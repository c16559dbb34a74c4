/** Working through a list of objects, in which the same object may come more than once. */
module Passes {
  import opened Sequences

  /** What each object shows once the first `n` have been worked on. */
  ghost function After<S, V>(work: V -> V, items: seq<S>, views: seq<V>, n: nat): (after: seq<V>)
    requires |items| == |views| && n <= |items|
    ensures |after| == |items|
    ensures forall i | 0 <= i < |items| :: after[i] == if items[i] in items[..n] then work(views[i]) else views[i]
  {
    seq(|items|, i requires 0 <= i < |items| => if items[i] in items[..n] then work(views[i]) else views[i])
  }

  /** What the work gives out: what each object gives when it is first met. */
  ghost function Output<S, V, E>(give: V -> seq<E>, items: seq<S>, views: seq<V>): seq<E>
    requires |items| == |views|
  {
    if items == [] then []
    else
      var n := |items| - 1;
      Output(give, items[..n], views[..n]) + if items[n] in items[..n] then [] else give(views[n])
  }

  ghost predicate SameItemSameView<S, V>(items: seq<S>, views: seq<V>)
    requires |items| == |views|
  {
    forall i, j | 0 <= i < |items| && 0 <= j < |items| && items[i] == items[j] :: views[i] == views[j]
  }

  /** Working on one more object, when working twice is working once. */
  lemma OneMore<S, V>(work: V -> V, items: seq<S>, views: seq<V>, before: seq<V>, after: seq<V>, n: nat)
    requires n < |items| == |views| == |before| == |after|
    requires SameItemSameView(items, views) && work(work(views[n])) == work(views[n])
    requires before == After(work, items, views, n)
    requires forall i | 0 <= i < |items| :: after[i] == if items[i] == items[n] then work(before[n]) else before[i]
    ensures after == After(work, items, views, n + 1)
  {
    TakeOneMore(items, n);
  }

  /** An object met again gives nothing, when nothing is given after the work. */
  lemma OneMoreOutput<S, V, E>(work: V -> V, give: V -> seq<E>, items: seq<S>, views: seq<V>, n: nat)
    requires n < |items| == |views| && give(work(views[n])) == []
    ensures Output(give, items[..n + 1], views[..n + 1])
         == Output(give, items[..n], views[..n]) + give(After(work, items, views, n)[n])
  {
    assert items[..n + 1][..n] == items[..n] && views[..n + 1][..n] == views[..n];
  }
}
