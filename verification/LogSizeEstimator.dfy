/** The estimate of a log record's size: a level-by-level scan of values that may share or contain one another. */
module LogSizeEstimator {
  import opened Sequences

  const BASE_LOG_BUFFER_BYTE_SIZE := 2000
  const MAX_LOG_REQUEST_BYTE_SIZE := 1048576

  type Id = nat

  /** A log value; sequences and mappings are referred to by identity, so they can be shared or cyclic. */
  datatype Value = Missing | Bytes(length: nat) | Scalar(text: string) | Ref(id: Id)

  datatype Container = Sequence(items: seq<Value>) | Mapping(entries: seq<(string, Value)>) | Other

  type Heap = map<Id, Container>

  /** A value to look at, and how many levels down it was found. */
  datatype Item = Item(value: Value, depth: int)

  predicate Within(items: seq<Item>, low: int, high: int) {
    forall i | 0 <= i < |items| :: low <= items[i].depth <= high
  }

  predicate AtLeast(items: seq<Item>, low: int) { forall i | 0 <= i < |items| :: low <= items[i].depth }

  function Deref(h: Heap, id: Id): Container { if id in h then h[id] else Other }

  function Children(c: Container, depth: int): (items: seq<Item>)
    ensures Within(items, depth + 1, depth + 1)
  {
    match c
    case Sequence(values) => seq(|values|, i requires 0 <= i < |values| => Item(values[i], depth + 1))
    case Mapping(entries) => seq(|entries|, i requires 0 <= i < |entries| => Item(entries[i].1, depth + 1))
    case Other => []
  }

  function KeyLengths(entries: seq<(string, Value)>): nat {
    if entries == [] then 0 else KeyLengths(entries[..|entries| - 1]) + |entries[|entries| - 1].0|
  }

  function KeySize(c: Container): nat { if c.Mapping? then KeyLengths(c.entries) else 0 }

  // ---------- Text sizes ----------

  function Utf8Estimate(s: string): nat {
    if s == "" then 0 else Utf8Estimate(s[..|s| - 1]) + if s[|s| - 1] as int < 128 then 1 else 4
  }

  /** The number of bytes in the UTF-8 encoding of a text, section 3 of RFC 3629. */
  function Utf8Length(s: string): nat {
    if s == "" then 0
    else
      var code := s[|s| - 1] as int;
      Utf8Length(s[..|s| - 1])
      + if code < 0x80 then 1 else if code < 0x800 then 2 else if code < 0x10000 then 3 else 4
  }

  method EstimateUtf8Size(s: string) returns (size: nat)
    ensures size == Utf8Estimate(s)
  {
    var asciiCount, nonAsciiCount := 0, 0;
    for i := 0 to |s|
      invariant asciiCount + nonAsciiCount * 4 == Utf8Estimate(s[..i])
    {
      assert s[..i + 1][..i] == s[..i];
      if s[i] as int < 128 {
        asciiCount := asciiCount + 1;
      } else {
        nonAsciiCount := nonAsciiCount + 1;
      }
    }
    assert s[..|s|] == s;
    size := asciiCount + nonAsciiCount * 4;
  }

  /** The estimate is never below the real encoded length, at most twice it, and exact on ASCII. */
  lemma {:induction false} Utf8EstimateIsSafe(s: string)
    ensures Utf8Length(s) <= Utf8Estimate(s) <= 2 * Utf8Length(s)
    ensures (forall i | 0 <= i < |s| :: s[i] as int < 128) ==> Utf8Estimate(s) == Utf8Length(s) == |s|
  {
    if s != "" {
      Utf8EstimateIsSafe(s[..|s| - 1]);
    }
  }

  // ---------- The scan ----------

  /** Progress through a level: size so far, containers expanded so far in order, and the next level. */
  datatype Scan = Scan(size: nat, expanded: seq<Id>, next: seq<Item>)

  function Look(h: Heap, limit: int, s: Scan, item: Item): Scan {
    match item.value
    case Missing => s
    case Bytes(n) => s.(size := s.size + n)
    case Scalar(text) => s.(size := s.size + Utf8Estimate(text))
    case Ref(id) =>
      if item.depth <= limit && id !in s.expanded then
        Scan(s.size + KeySize(Deref(h, id)), s.expanded + [id], s.next + Children(Deref(h, id), item.depth))
      else s
  }

  function Level(h: Heap, limit: int, s: Scan, queue: seq<Item>): Scan {
    if queue == [] then s else Look(h, limit, Level(h, limit, s, queue[..|queue| - 1]), queue[|queue| - 1])
  }

  lemma {:induction false} LevelDescends(h: Heap, limit: int, s: Scan, queue: seq<Item>, low: int)
    requires Within(s.next, low + 1, limit + 1)
    requires AtLeast(queue, low)
    ensures Within(Level(h, limit, s, queue).next, low + 1, limit + 1)
    ensures Level(h, limit, s, queue).next != [] ==> low <= limit
  {
    if queue != [] {
      LevelDescends(h, limit, s, queue[..|queue| - 1], low);
    }
    var next := Level(h, limit, s, queue).next;
    assert next != [] ==> low + 1 <= next[0].depth <= limit + 1;
  }

  /** The whole scan without a size limit, level after level. */
  function Levels(h: Heap, limit: int, size: nat, expanded: seq<Id>, queue: seq<Item>, low: int): Scan
    requires AtLeast(queue, low)
    decreases limit + 1 - low
  {
    var s := Level(h, limit, Scan(size, expanded, []), queue);
    LevelDescends(h, limit, Scan(size, expanded, []), queue, low);
    if s.next == [] then s
    else
      Levels(h, limit, s.size, s.expanded, s.next, low + 1)
  }

  /** Where a scan of a log starts: the body at depth 0, the attributes one level above. */
  function Roots(body: Value, attributes: Value): (items: seq<Item>)
    ensures Within(items, -1, 0)
  {
    [Item(body, 0), Item(attributes, -1)]
  }

  function FullScan(h: Heap, body: Value, attributes: Value, limit: int): Scan {
    Levels(h, limit, BASE_LOG_BUFFER_BYTE_SIZE, [], Roots(body, attributes), -1)
  }

  /** What stopping early may change: nothing below the limit, and never the fact of reaching it. */
  predicate AgreeUpToLimit(estimate: int, full: int) {
    if full < MAX_LOG_REQUEST_BYTE_SIZE then estimate == full
    else MAX_LOG_REQUEST_BYTE_SIZE <= estimate <= full
  }

  /** One value: its size is counted, or its contents are put off to the next level. */
  method LookAt(h: Heap, item: Item, depth: int, size: nat, visited: set<Id>, newQueue: seq<Item>, ghost s: Scan)
    returns (size': nat, visited': set<Id>, newQueue': seq<Item>, ghost s': Scan)
    requires s.size == size && s.next == newQueue && visited == set id | id in s.expanded
    ensures s' == Look(h, depth, s, item)
    ensures s'.size == size' && s'.next == newQueue' && visited' == set id | id in s'.expanded
  {
    size', visited', newQueue', s' := size, visited, newQueue, Look(h, depth, s, item);
    match item.value {
      case Missing =>
      case Bytes(n) => size' := size + n;
      case Scalar(text) =>
        var n := EstimateUtf8Size(text);
        size' := size + n;
      case Ref(id) =>
        if item.depth <= depth {
          if id in visited {
            return;
          }
          visited' := visited + {id};
          var container := Deref(h, id);
          size' := size + KeySize(container);
          newQueue' := newQueue + Children(container, item.depth);
        }
    }
  }

  method EstimateLogSize(h: Heap, body: Value, attributes: Value, depth: int := 3) returns (size: nat)
    ensures AgreeUpToLimit(size, FullScan(h, body, attributes, depth).size)
    ensures size >= BASE_LOG_BUFFER_BYTE_SIZE
  {
    var queue := Roots(body, attributes);
    var visited: set<Id> := {};
    size := BASE_LOG_BUFFER_BYTE_SIZE;
    ghost var full := FullScan(h, body, attributes, depth);
    ghost var expanded: seq<Id>, low := [], -1;
    while queue != []
      invariant Within(queue, low, if low == -1 then 0 else depth + 1)
      invariant visited == set id | id in expanded
      invariant Levels(h, depth, size, expanded, queue, low) == full
      invariant size >= BASE_LOG_BUFFER_BYTE_SIZE && low >= -1
      decreases if queue == [] then 0 else 1, if low == -1 then 1 else 0, depth + 2 - low
    {
      var newQueue := [];
      ghost var start := Scan(size, expanded, []);
      ghost var s := start;
      for i := 0 to |queue|
        invariant Level(h, depth, start, queue[..i]) == s && s.size == size && s.next == newQueue
        invariant visited == set id | id in s.expanded
        invariant size >= BASE_LOG_BUFFER_BYTE_SIZE
      {
        assert queue[..i + 1][..i] == queue[..i];
        LevelGrows(h, depth, start, queue, i);
        if size >= MAX_LOG_REQUEST_BYTE_SIZE {
          LevelsGrow(h, depth, start.size, start.expanded, queue, low);
          return;
        }
        LevelGrows(h, depth, start, queue[..i + 1], i);
        size, visited, newQueue, s := LookAt(h, queue[i], depth, size, visited, newQueue, s);
      }
      TakeAll(queue);
      LevelDescends(h, depth, start, queue, low);
      queue, low, expanded := newQueue, low + 1, s.expanded;
    }
  }

  lemma {:induction false} LevelGrows(h: Heap, limit: int, s: Scan, queue: seq<Item>, i: nat)
    requires i <= |queue|
    ensures s.size <= Level(h, limit, s, queue[..i]).size <= Level(h, limit, s, queue).size
    decreases |queue|
  {
    if i == |queue| {
      assert queue[..i] == queue;
    }
    if queue != [] {
      var init := queue[..|queue| - 1];
      LevelGrows(h, limit, s, init, if i < |queue| then i else |queue| - 1);
      if i < |queue| {
        assert init[..i] == queue[..i];
      } else {
        assert init[..|queue| - 1] == init;
      }
    }
  }

  lemma {:induction false} LevelsGrow(
      h: Heap, limit: int, size: nat, expanded: seq<Id>, queue: seq<Item>, low: int)
    requires AtLeast(queue, low)
    ensures Level(h, limit, Scan(size, expanded, []), queue).size
         <= Levels(h, limit, size, expanded, queue, low).size
    decreases limit + 1 - low
  {
    var s := Level(h, limit, Scan(size, expanded, []), queue);
    LevelDescends(h, limit, Scan(size, expanded, []), queue, low);
    if s.next != [] {
      LevelsGrow(h, limit, s.size, s.expanded, s.next, low + 1);
      LevelGrows(h, limit, Scan(s.size, s.expanded, []), s.next, 0);
    }
  }

  // ---------- Each container at most once ----------

  predicate Unique(ids: seq<Id>) { forall i, j | 0 <= i < j < |ids| :: ids[i] != ids[j] }

  lemma {:induction false} LevelExpandsOnce(h: Heap, limit: int, s: Scan, queue: seq<Item>)
    requires Unique(s.expanded)
    ensures Unique(Level(h, limit, s, queue).expanded)
  {
    if queue != [] {
      LevelExpandsOnce(h, limit, s, queue[..|queue| - 1]);
    }
  }

  lemma {:induction false} LevelsExpandOnce(
      h: Heap, limit: int, size: nat, expanded: seq<Id>, queue: seq<Item>, low: int)
    requires Unique(expanded) && AtLeast(queue, low)
    ensures Unique(Levels(h, limit, size, expanded, queue, low).expanded)
    decreases limit + 1 - low
  {
    var s := Level(h, limit, Scan(size, expanded, []), queue);
    LevelExpandsOnce(h, limit, Scan(size, expanded, []), queue);
    LevelDescends(h, limit, Scan(size, expanded, []), queue, low);
    if s.next != [] {
      LevelsExpandOnce(h, limit, s.size, s.expanded, s.next, low + 1);
    }
  }

  /** On every heap, shared or cyclic, no container is expanded twice. */
  lemma ScanExpandsOnce(h: Heap, body: Value, attributes: Value, limit: int)
    ensures Unique(FullScan(h, body, attributes, limit).expanded)
  {
    LevelsExpandOnce(h, limit, BASE_LOG_BUFFER_BYTE_SIZE, [], Roots(body, attributes), -1);
  }

  // ---------- The recursive size it approximates ----------

  /** A value unfolded into a tree: its size, and the containers met, once per occurrence. */
  datatype Tree = Tree(size: nat, ids: multiset<Id>)

  function Both(a: Tree, b: Tree): Tree { Tree(a.size + b.size, a.ids + b.ids) }

  /** The depth-limited unfolding of one value. */
  function Unfold(h: Heap, limit: int, value: Value, depth: int): Tree
    decreases limit + 1 - depth, 0
  {
    match value
    case Missing => Tree(0, multiset{})
    case Bytes(n) => Tree(n, multiset{})
    case Scalar(text) => Tree(Utf8Estimate(text), multiset{})
    case Ref(id) =>
      if depth <= limit then
        Both(Tree(KeySize(Deref(h, id)), multiset{id}),
             UnfoldValues(h, limit, ValuesOf(Deref(h, id)), depth + 1))
      else Tree(0, multiset{})
  }

  function ValuesOf(c: Container): seq<Value> {
    match c
    case Sequence(items) => items
    case Mapping(entries) => seq(|entries|, i requires 0 <= i < |entries| => entries[i].1)
    case Other => []
  }

  function UnfoldValues(h: Heap, limit: int, values: seq<Value>, depth: int): Tree
    decreases limit + 1 - depth, |values| + 1
  {
    if values == [] then Tree(0, multiset{})
    else Both(UnfoldValues(h, limit, values[..|values| - 1], depth), Unfold(h, limit, values[|values| - 1], depth))
  }

  function UnfoldItems(h: Heap, limit: int, items: seq<Item>): Tree {
    if items == [] then Tree(0, multiset{})
    else Both(UnfoldItems(h, limit, items[..|items| - 1]),
              Unfold(h, limit, items[|items| - 1].value, items[|items| - 1].depth))
  }

  lemma BothIsAssociative(a: Tree, b: Tree, c: Tree)
    ensures Both(Both(a, b), c) == Both(a, Both(b, c)) && Both(a, Tree(0, multiset{})) == a
  {
  }

  lemma UnfoldOneMore(h: Heap, limit: int, items: seq<Item>, item: Item)
    ensures UnfoldItems(h, limit, items + [item]) ==
              Both(UnfoldItems(h, limit, items), Unfold(h, limit, item.value, item.depth))
  {
    assert (items + [item])[..|items|] == items;
  }

  lemma {:induction false} UnfoldItemsSplits(h: Heap, limit: int, a: seq<Item>, b: seq<Item>)
    ensures UnfoldItems(h, limit, a + b) == Both(UnfoldItems(h, limit, a), UnfoldItems(h, limit, b))
  {
    if b == [] {
      assert a + b == a;
      BothIsAssociative(UnfoldItems(h, limit, a), Tree(0, multiset{}), Tree(0, multiset{}));
    } else {
      var init, last := b[..|b| - 1], b[|b| - 1];
      UnfoldItemsSplits(h, limit, a, init);
      TakeOneMore(b, |b| - 1);
      TakeAll(b);
      ConcatIsAssociative(a, init, [last]);
      UnfoldOneMore(h, limit, a + init, last);
      UnfoldOneMore(h, limit, init, last);
      BothIsAssociative(UnfoldItems(h, limit, a), UnfoldItems(h, limit, init),
                        Unfold(h, limit, last.value, last.depth));
    }
  }

  lemma {:induction false} ChildrenUnfoldAsValues(h: Heap, limit: int, items: seq<Item>, values: seq<Value>, depth: int)
    requires |items| == |values|
    requires forall i | 0 <= i < |items| :: items[i] == Item(values[i], depth)
    ensures UnfoldItems(h, limit, items) == UnfoldValues(h, limit, values, depth)
    decreases |items|
  {
    if items != [] {
      ChildrenUnfoldAsValues(h, limit, items[..|items| - 1], values[..|values| - 1], depth);
    }
  }

  /** No container occurs twice. */
  ghost predicate Unshared(ids: multiset<Id>) { forall id :: ids[id] <= 1 }

  lemma ContainerUnfolds(h: Heap, limit: int, id: Id, depth: int)
    requires depth <= limit
    ensures Unfold(h, limit, Ref(id), depth) ==
              Both(Tree(KeySize(Deref(h, id)), multiset{id}), UnfoldValues(h, limit, ValuesOf(Deref(h, id)), depth + 1))
  {
  }

  /** Expanding a container leaves its values' trees to the next level. */
  lemma ChildrenUnfold(h: Heap, limit: int, next: seq<Item>, c: Container, depth: int)
    ensures UnfoldItems(h, limit, next + Children(c, depth)) ==
              Both(UnfoldItems(h, limit, next), UnfoldValues(h, limit, ValuesOf(c), depth + 1))
  {
    UnfoldItemsSplits(h, limit, next, Children(c, depth));
    ChildrenUnfoldAsValues(h, limit, Children(c, depth), ValuesOf(c), depth + 1);
  }

  lemma SumsAgree(s: Scan, s': Scan, id: Id, keys: nat, values: Tree, rest: Tree, rest': Tree, t: Tree)
    requires s'.size == s.size + keys && s'.expanded == s.expanded + [id]
    requires t == Both(Tree(keys, multiset{id}), values) && rest' == Both(rest, values)
    ensures s'.size + rest'.size == s.size + rest.size + t.size
    ensures multiset(s'.expanded) + rest'.ids == multiset(s.expanded) + rest.ids + t.ids
  {
  }

  lemma LookExpands(h: Heap, limit: int, s: Scan, s': Scan, id: Id, depth: int, t: Tree, rest: Tree, rest': Tree)
    requires depth <= limit && id !in s.expanded && s' == Look(h, limit, s, Item(Ref(id), depth))
    requires t == Unfold(h, limit, Ref(id), depth)
    requires rest == UnfoldItems(h, limit, s.next) && rest' == UnfoldItems(h, limit, s'.next)
    ensures s'.size + rest'.size == s.size + rest.size + t.size
    ensures multiset(s'.expanded) + rest'.ids == multiset(s.expanded) + rest.ids + t.ids
  {
    var c := Deref(h, id);
    var values := UnfoldValues(h, limit, ValuesOf(c), depth + 1);
    ContainerUnfolds(h, limit, id, depth);
    ChildrenUnfold(h, limit, s.next, c, depth);
    SumsAgree(s, s', id, KeySize(c), values, rest, rest', t);
  }

  /** A container on the way is in its own tree. */
  lemma ContainerIsInItsTree(h: Heap, limit: int, id: Id, depth: int)
    requires depth <= limit
    ensures Unfold(h, limit, Ref(id), depth).ids[id] >= 1
  {
  }

  /** Looking at one item moves its own size into the total and leaves the rest of its tree to the next level. */
  lemma LookAccounts(h: Heap, limit: int, s: Scan, item: Item)
    ensures var s' := Look(h, limit, s, item);
            var t, rest, rest' := Unfold(h, limit, item.value, item.depth), UnfoldItems(h, limit, s.next),
                                  UnfoldItems(h, limit, s'.next);
            && s'.size + rest'.size <= s.size + rest.size + t.size
            && (Unshared(multiset(s.expanded) + t.ids) ==>
                  && s'.size + rest'.size == s.size + rest.size + t.size
                  && multiset(s'.expanded) + rest'.ids == multiset(s.expanded) + rest.ids + t.ids)
  {
    if item.value.Ref? && item.depth <= limit {
      var id := item.value.id;
      if id in s.expanded {
        ContainerIsInItsTree(h, limit, id, item.depth);
        assert (multiset(s.expanded) + Unfold(h, limit, item.value, item.depth).ids)[id] >= 2;
      } else {
        var s' := Look(h, limit, s, item);
        LookExpands(h, limit, s, s', id, item.depth, Unfold(h, limit, item.value, item.depth),
                    UnfoldItems(h, limit, s.next), UnfoldItems(h, limit, s'.next));
      }
    } else {
      assert Unfold(h, limit, item.value, item.depth).ids == multiset{};
    }
  }

  /** Accounts of a stretch and of one more item make the account of both. */
  lemma AccountsTogether(start: multiset<Id>, rest: multiset<Id>, now: multiset<Id>, rest1: multiset<Id>,
                         t1: multiset<Id>, last: multiset<Id>)
    requires Unshared(start + rest + t1) ==> now + rest1 == start + rest + t1
    requires Unshared(start + rest + (t1 + last))
    ensures Unshared(start + rest + t1) && Unshared(now + last)
    ensures now + rest1 + last == start + rest + (t1 + last)
  {
    assert forall id :: (start + rest + t1)[id] <= (start + rest + (t1 + last))[id];
    assert forall id :: (now + last)[id] <= (start + rest + (t1 + last))[id];
  }

  lemma {:induction false} LevelAccounts(h: Heap, limit: int, s: Scan, queue: seq<Item>)
    ensures var s' := Level(h, limit, s, queue);
            var t, rest, rest' := UnfoldItems(h, limit, queue), UnfoldItems(h, limit, s.next),
                                  UnfoldItems(h, limit, s'.next);
            && s'.size + rest'.size <= s.size + rest.size + t.size
            && (Unshared(multiset(s.expanded) + rest.ids + t.ids) ==>
                  && s'.size + rest'.size == s.size + rest.size + t.size
                  && multiset(s'.expanded) + rest'.ids == multiset(s.expanded) + rest.ids + t.ids)
  {
    if queue != [] {
      var init, last := queue[..|queue| - 1], queue[|queue| - 1];
      var s1 := Level(h, limit, s, init);
      LevelAccounts(h, limit, s, init);
      LookAccounts(h, limit, s1, last);
      var rest, rest1 := UnfoldItems(h, limit, s.next), UnfoldItems(h, limit, s1.next);
      var t1, tLast := UnfoldItems(h, limit, init), Unfold(h, limit, last.value, last.depth);
      if Unshared(multiset(s.expanded) + rest.ids + (t1.ids + tLast.ids)) {
        AccountsTogether(multiset(s.expanded), rest.ids, multiset(s1.expanded), rest1.ids, t1.ids, tLast.ids);
      }
    }
  }

  lemma {:induction false} LevelsAccount(
      h: Heap, limit: int, size: nat, expanded: seq<Id>, queue: seq<Item>, low: int)
    requires AtLeast(queue, low)
    ensures var full, t := Levels(h, limit, size, expanded, queue, low), UnfoldItems(h, limit, queue);
            && full.size <= size + t.size
            && (Unshared(multiset(expanded) + t.ids) ==> full.size == size + t.size)
    decreases limit + 1 - low
  {
    var start := Scan(size, expanded, []);
    var s := Level(h, limit, start, queue);
    LevelAccounts(h, limit, start, queue);
    LevelDescends(h, limit, start, queue, low);
    var t := UnfoldItems(h, limit, queue);
    assert multiset(expanded) + UnfoldItems(h, limit, []).ids + t.ids == multiset(expanded) + t.ids;
    if s.next != [] {
      LevelsAccount(h, limit, s.size, s.expanded, s.next, low + 1);
    }
  }

  /** The recursive, depth-limited size of a log. */
  function RecursiveSize(h: Heap, body: Value, attributes: Value, limit: int): Tree {
    UnfoldItems(h, limit, Roots(body, attributes))
  }

  lemma RecursiveSizeIsSum(h: Heap, body: Value, attributes: Value, limit: int)
    ensures RecursiveSize(h, body, attributes, limit)
         == Both(Unfold(h, limit, body, 0), Unfold(h, limit, attributes, -1))
  {
    var a, b := Item(body, 0), Item(attributes, -1);
    assert Roots(body, attributes) == [a] + [b];
    UnfoldItemsSplits(h, limit, [a], [b]);
    OneItemUnfolds(h, limit, a);
    OneItemUnfolds(h, limit, b);
  }

  lemma OneItemUnfolds(h: Heap, limit: int, item: Item)
    ensures UnfoldItems(h, limit, [item]) == Unfold(h, limit, item.value, item.depth)
  {
    assert [item][..0] == [];
    var t := Unfold(h, limit, item.value, item.depth);
    assert multiset{} + t.ids == t.ids;
  }

  /**
    The scan never counts more than 2000 plus the recursive size of body and attributes, and counts exactly that when no
    container occurs twice within the depth limit.
   */
  lemma ScanIsRecursiveSize(h: Heap, body: Value, attributes: Value, limit: int)
    ensures var full, t := FullScan(h, body, attributes, limit), RecursiveSize(h, body, attributes, limit);
            && full.size <= BASE_LOG_BUFFER_BYTE_SIZE + t.size
            && (Unshared(t.ids) ==> full.size == BASE_LOG_BUFFER_BYTE_SIZE + t.size)
  {
    ScanAccounts(h, limit, Roots(body, attributes));
  }

  lemma ScanAccounts(h: Heap, limit: int, roots: seq<Item>)
    requires AtLeast(roots, -1)
    ensures var full, t := Levels(h, limit, BASE_LOG_BUFFER_BYTE_SIZE, [], roots, -1), UnfoldItems(h, limit, roots);
            && full.size <= BASE_LOG_BUFFER_BYTE_SIZE + t.size
            && (Unshared(t.ids) ==> full.size == BASE_LOG_BUFFER_BYTE_SIZE + t.size)
  {
    LevelsAccount(h, limit, BASE_LOG_BUFFER_BYTE_SIZE, [], roots, -1);
    var none: seq<Id> := [];
    assert multiset(none) + UnfoldItems(h, limit, roots).ids == UnfoldItems(h, limit, roots).ids;
  }
}
