/** The stable sort that Python's `sort` and `sorted` perform, as a function of a strict order, and string order. */
module Sorting {
  import opened Sequences

  /** A strict weak order on the members of `s`: what a sort needs of its `less`. */
  ghost predicate Orders<T>(less: (T, T) -> bool, s: seq<T>) {
    && (forall a, b | a in s && b in s :: less(a, b) ==> !less(b, a))
    && (forall a, b, c | a in s && b in s && c in s :: !less(b, a) && !less(c, b) ==> !less(c, a))
  }

  ghost predicate IsSorted<T>(less: (T, T) -> bool, s: seq<T>) {
    forall i, j | 0 <= i < j < |s| :: !less(s[j], s[i])
  }

  function Insert<T>(less: (T, T) -> bool, x: T, s: seq<T>): seq<T> {
    if s == [] || !less(s[0], x) then [x] + s else [s[0]] + Insert(less, x, s[1..])
  }

  function Sort<T>(less: (T, T) -> bool, s: seq<T>): seq<T> {
    if s == [] then [] else Insert(less, s[0], Sort(less, s[1..]))
  }

  function Filter<T>(keep: T -> bool, s: seq<T>): seq<T> {
    if s == [] then [] else (if keep(s[0]) then [s[0]] else []) + Filter(keep, s[1..])
  }

  lemma {:induction false} FilterSplits<T>(keep: T -> bool, s: seq<T>, t: seq<T>)
    ensures Filter(keep, s + t) == Filter(keep, s) + Filter(keep, t)
  {
    if s == [] {
      assert s + t == t;
    } else {
      assert (s + t)[1..] == s[1..] + t;
      FilterSplits(keep, s[1..], t);
      ConcatIsAssociative(if keep(s[0]) then [s[0]] else [], Filter(keep, s[1..]), Filter(keep, t));
    }
  }

  lemma {:induction false} InsertKeepsMembers<T>(less: (T, T) -> bool, x: T, s: seq<T>)
    ensures multiset(Insert(less, x, s)) == multiset{x} + multiset(s)
    ensures |Insert(less, x, s)| == |s| + 1
  {
    if s != [] && less(s[0], x) {
      InsertKeepsMembers(less, x, s[1..]);
      assert s == [s[0]] + s[1..];
    }
  }

  /** Sorting permutes. */
  lemma {:induction false} SortKeepsMembers<T>(less: (T, T) -> bool, s: seq<T>)
    ensures multiset(Sort(less, s)) == multiset(s)
    ensures |Sort(less, s)| == |s|
  {
    if s != [] {
      SortKeepsMembers(less, s[1..]);
      InsertKeepsMembers(less, s[0], Sort(less, s[1..]));
      assert s == [s[0]] + s[1..];
    }
  }

  lemma {:induction false} InsertSorts<T>(less: (T, T) -> bool, x: T, s: seq<T>)
    requires Orders(less, [x] + s) && IsSorted(less, s)
    ensures IsSorted(less, Insert(less, x, s))
  {
    var r := Insert(less, x, s);
    if s == [] {
    } else if !less(s[0], x) {
      forall i, j | 0 <= i < j < |r|
        ensures !less(r[j], r[i])
      {
        if i == 0 {
          assert r[j] == s[j - 1] && s[j - 1] in [x] + s && s[0] in [x] + s && x in [x] + s;
          assert j - 1 == 0 || !less(s[j - 1], s[0]);
        }
      }
    } else {
      assert forall a | a in [x] + s[1..] :: a in [x] + s;
      var tail := Insert(less, x, s[1..]);
      InsertSorts(less, x, s[1..]);
      assert r == [s[0]] + tail;
      forall i, j | 0 <= i < j < |r|
        ensures !less(r[j], r[i])
      {
        InsertedAfterHead(less, x, s, tail, j - 1);
        assert r[j] == tail[j - 1] && (i > 0 ==> r[i] == tail[i - 1]);
      }
    }
  }

  lemma InsertedAfterHead<T>(less: (T, T) -> bool, x: T, s: seq<T>, tail: seq<T>, j: nat)
    requires Orders(less, [x] + s) && IsSorted(less, s) && s != [] && less(s[0], x)
    requires tail == Insert(less, x, s[1..]) && j < |tail|
    ensures !less(tail[j], s[0])
  {
    InsertKeepsMembers(less, x, s[1..]);
    assert s[0] in [x] + s && x in [x] + s;
    assert tail[j] in multiset(tail);
    if tail[j] != x {
      assert tail[j] in s[1..];
      var k :| 1 <= k < |s| && s[k] == tail[j];
    }
  }

  lemma SortedTailMembers<T>(less: (T, T) -> bool, s: seq<T>)
    requires s != []
    ensures forall a | a in [s[0]] + Sort(less, s[1..]) :: a in s
  {
    SortKeepsMembers(less, s[1..]);
    forall a | a in [s[0]] + Sort(less, s[1..])
      ensures a in s
    {
      if a != s[0] {
        assert a in multiset(Sort(less, s[1..]));
      }
    }
  }

  /** Sorting sorts. */
  lemma {:induction false} SortSorts<T>(less: (T, T) -> bool, s: seq<T>)
    requires Orders(less, s)
    ensures IsSorted(less, Sort(less, s))
  {
    if s != [] {
      assert forall a | a in s[1..] :: a in s;
      SortSorts(less, s[1..]);
      SortedTailMembers(less, s);
      InsertSorts(less, s[0], Sort(less, s[1..]));
    }
  }

  lemma {:induction false} InsertIsStable<T>(less: (T, T) -> bool, keep: T -> bool, x: T, s: seq<T>)
    requires forall a, b | a in [x] + s && b in [x] + s :: keep(a) && keep(b) ==> !less(a, b)
    ensures Filter(keep, Insert(less, x, s)) == Filter(keep, [x] + s)
  {
    assert ([x] + s)[1..] == s;
    if s != [] && less(s[0], x) {
      assert s[0] in [x] + s && x in [x] + s;
      assert ([x] + s[1..])[1..] == s[1..];
      assert forall a | a in [x] + s[1..] :: a in [x] + s;
      InsertIsStable(less, keep, x, s[1..]);
    }
  }

  /** Sorting is stable: elements none of which is less than another keep their order. */
  lemma {:induction false} SortIsStable<T>(less: (T, T) -> bool, keep: T -> bool, s: seq<T>)
    requires forall a, b | a in s && b in s :: keep(a) && keep(b) ==> !less(a, b)
    ensures Filter(keep, Sort(less, s)) == Filter(keep, s)
  {
    if s != [] {
      SortIsStable(less, keep, s[1..]);
      SortedTailMembers(less, s);
      var rest := Sort(less, s[1..]);
      InsertIsStable(less, keep, s[0], rest);
      assert ([s[0]] + rest)[1..] == rest;
    }
  }

  /** Python's string order: by code point, a proper prefix first. */
  predicate StringLess(a: string, b: string) {
    b != "" && (a == "" || a[0] < b[0] || (a[0] == b[0] && StringLess(a[1..], b[1..])))
  }

  lemma {:induction false} StringLessOrders(a: string, b: string, c: string)
    ensures StringLess(a, b) ==> !StringLess(b, a)
    ensures a == b || StringLess(a, b) || StringLess(b, a)
    ensures !StringLess(b, a) && !StringLess(c, b) ==> !StringLess(c, a)
  {
    if a != "" && b != "" {
      assert a == [a[0]] + a[1..] && b == [b[0]] + b[1..];
      StringLessOrders(a[1..], b[1..], if c == "" then "" else c[1..]);
    }
  }

  /** Both texts agree up to a position where the first ends or has the lesser character. */
  predicate LessAt(a: string, b: string, k: nat) {
    k <= |a| && k < |b| && a[..k] == b[..k] && (k == |a| || a[k] < b[k])
  }

  /** The order is the lexicographic one. */
  lemma {:induction false} StringLessIsLexicographic(a: string, b: string)
    ensures StringLess(a, b) <==> exists k: nat :: LessAt(a, b, k)
  {
    if a == "" || b == "" || a[0] != b[0] {
      assert LessAt(a, b, 0) <==> StringLess(a, b);
      forall k: nat | k > 0
        ensures !LessAt(a, b, k)
      {
        assert k <= |a| && k < |b| ==> a[..k][0] == a[0] && b[..k][0] == b[0];
      }
    } else {
      StringLessIsLexicographic(a[1..], b[1..]);
      forall k: nat
        ensures LessAt(a, b, k + 1) <==> LessAt(a[1..], b[1..], k)
      {
        LessAtOneOn(a, b, k);
      }
      if k: nat :| LessAt(a[1..], b[1..], k) {
        assert LessAt(a, b, k + 1);
      }
      if k: nat :| LessAt(a, b, k) {
        var m: nat := k - 1;
        assert LessAt(a, b, m + 1) && LessAt(a[1..], b[1..], m);
      }
    }
  }

  lemma LessAtOneOn(a: string, b: string, k: nat)
    requires a != "" && b != "" && a[0] == b[0]
    ensures LessAt(a, b, k + 1) <==> LessAt(a[1..], b[1..], k)
  {
    if k + 1 <= |a| && k + 1 <= |b| {
      assert a[..k + 1] == [a[0]] + a[1..][..k] && b[..k + 1] == [b[0]] + b[1..][..k];
      assert a[1..][..k] == a[..k + 1][1..] && b[1..][..k] == b[..k + 1][1..];
    }
  }
}
