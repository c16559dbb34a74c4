/** What the size estimate of a log counts: which containers, and what of each. */
module LogSizeContents {
  import opened Sequences
  import opened LogSizeEstimator

  // ---------- Texts ----------

  /** One byte for each character, and three more for each that is not ASCII. */
  lemma {:induction false} Utf8EstimateCounts(s: string)
    ensures Utf8Estimate(s) == |s| + 3 * |set i | 0 <= i < |s| && s[i] as int >= 128|
  {
    var wide := set i | 0 <= i < |s| && s[i] as int >= 128;
    if s != "" {
      var init, n := s[..|s| - 1], |s| - 1;
      Utf8EstimateCounts(init);
      var before := set i | 0 <= i < |init| && init[i] as int >= 128;
      assert wide == if s[n] as int >= 128 then before + {n} else before;
    }
  }

  // ---------- What is counted of each container ----------

  /** What a value counts for by itself. */
  function OwnSize(value: Value): nat {
    match value
    case Missing => 0
    case Bytes(length) => length
    case Scalar(text) => |text| + 3 * |set i | 0 <= i < |text| && text[i] as int >= 128|
    case Ref(_) => 0
  }

  function ItemsSize(items: seq<Value>): nat {
    if items == [] then 0 else OwnSize(items[0]) + ItemsSize(items[1..])
  }

  function EntriesSize(entries: seq<(string, Value)>): nat {
    if entries == [] then 0 else |entries[0].0| + OwnSize(entries[0].1) + EntriesSize(entries[1..])
  }

  /** Of a sequence its items, and of a mapping the lengths of its keys and its values. */
  function ContentsSize(h: Heap, id: Id): nat {
    if id !in h then 0
    else
      match h[id]
      case Sequence(items) => ItemsSize(items)
      case Mapping(entries) => EntriesSize(entries)
      case Other => 0
  }

  function AllContents(h: Heap, ids: seq<Id>): nat {
    if ids == [] then 0 else AllContents(h, ids[..|ids| - 1]) + ContentsSize(h, ids[|ids| - 1])
  }

  /** What the values of items to look at count for. */
  function Pending(items: seq<Item>): nat {
    if items == [] then 0 else Pending(items[..|items| - 1]) + OwnSize(items[|items| - 1].value)
  }

  lemma {:induction false} PendingSplits(a: seq<Item>, b: seq<Item>)
    ensures Pending(a + b) == Pending(a) + Pending(b)
    decreases |b|
  {
    if b == [] {
      assert a + b == a;
    } else {
      assert (a + b)[..|a + b| - 1] == a + b[..|b| - 1];
      PendingSplits(a, b[..|b| - 1]);
    }
  }

  lemma PendingFirst(items: seq<Item>)
    requires items != []
    ensures Pending(items) == OwnSize(items[0].value) + Pending(items[1..])
  {
    assert items == items[..1] + items[1..] && items[..1][..0] == [];
    PendingSplits(items[..1], items[1..]);
    assert Pending(items[..1]) == OwnSize(items[0].value);
  }

  lemma {:induction false} ItemsArePending(items: seq<Value>, next: seq<Item>)
    requires |next| == |items| && forall i | 0 <= i < |items| :: next[i].value == items[i]
    ensures Pending(next) == ItemsSize(items)
  {
    if items != [] {
      ItemsArePending(items[1..], next[1..]);
      PendingFirst(next);
    }
  }

  lemma {:induction false} KeyLengthsFirst(entries: seq<(string, Value)>)
    requires entries != []
    ensures KeyLengths(entries) == |entries[0].0| + KeyLengths(entries[1..])
  {
    if |entries| > 1 {
      var init := entries[..|entries| - 1];
      KeyLengthsFirst(init);
      assert init[1..] == entries[1..][..|entries| - 2];
    }
  }

  lemma {:induction false} EntriesArePending(entries: seq<(string, Value)>, next: seq<Item>)
    requires |next| == |entries| && forall i | 0 <= i < |entries| :: next[i].value == entries[i].1
    ensures KeyLengths(entries) + Pending(next) == EntriesSize(entries)
  {
    if entries != [] {
      EntriesArePending(entries[1..], next[1..]);
      PendingFirst(next);
      KeyLengthsFirst(entries);
    }
  }

  lemma ContentsArePending(h: Heap, id: Id, depth: int)
    ensures KeySize(Deref(h, id)) + Pending(Children(Deref(h, id), depth)) == ContentsSize(h, id)
  {
    match Deref(h, id) {
      case Sequence(items) => ItemsArePending(items, Children(Deref(h, id), depth));
      case Mapping(entries) => EntriesArePending(entries, Children(Deref(h, id), depth));
      case Other =>
    }
  }

  lemma LookCounts(h: Heap, limit: int, s: Scan, item: Item)
    ensures var s' := Look(h, limit, s, item);
            && s.expanded <= s'.expanded
            && s'.size + Pending(s'.next) + AllContents(h, s.expanded)
               == s.size + Pending(s.next) + OwnSize(item.value) + AllContents(h, s'.expanded)
  {
    match item.value {
      case Missing =>
      case Bytes(_) =>
      case Scalar(text) => Utf8EstimateCounts(text);
      case Ref(id) =>
        if item.depth <= limit && id !in s.expanded {
          ContentsArePending(h, id, item.depth);
          PendingSplits(s.next, Children(Deref(h, id), item.depth));
          assert (s.expanded + [id])[..|s.expanded|] == s.expanded;
        }
    }
  }

  lemma {:induction false} LevelCounts(h: Heap, limit: int, s: Scan, queue: seq<Item>)
    ensures var s' := Level(h, limit, s, queue);
            && s.expanded <= s'.expanded
            && s'.size + Pending(s'.next) + AllContents(h, s.expanded)
               == s.size + Pending(s.next) + Pending(queue) + AllContents(h, s'.expanded)
  {
    if queue != [] {
      LevelCounts(h, limit, s, queue[..|queue| - 1]);
      LookCounts(h, limit, Level(h, limit, s, queue[..|queue| - 1]), queue[|queue| - 1]);
    }
  }

  lemma {:induction false} LevelsCount(h: Heap, limit: int, size: nat, expanded: seq<Id>, queue: seq<Item>, low: int)
    requires AtLeast(queue, low)
    ensures var full := Levels(h, limit, size, expanded, queue, low);
            full.size + AllContents(h, expanded) == size + Pending(queue) + AllContents(h, full.expanded)
    decreases limit + 1 - low
  {
    var start := Scan(size, expanded, []);
    var s := Level(h, limit, start, queue);
    LevelCounts(h, limit, start, queue);
    LevelDescends(h, limit, start, queue, low);
    if s.next != [] {
      LevelsCount(h, limit, s.size, s.expanded, s.next, low + 1);
    }
  }

  /**
    On every heap the scan counts 2000, the texts and bytes that body and attributes are by themselves, and for each
    container it expands the lengths of its keys and the texts and bytes in it.
   */
  lemma ScanCountsContents(h: Heap, body: Value, attributes: Value, limit: int)
    ensures var full := FullScan(h, body, attributes, limit);
            full.size == 2000 + OwnSize(body) + OwnSize(attributes) + AllContents(h, full.expanded)
  {
    var roots := Roots(body, attributes);
    LevelsCount(h, limit, BASE_LOG_BUFFER_BYTE_SIZE, [], roots, -1);
    PendingFirst(roots);
    PendingFirst(roots[1..]);
    assert roots[1..][1..] == [];
  }

  // ---------- Which containers are expanded ----------

  /** A container holds a value, as an item or under a key. */
  ghost predicate Holds(h: Heap, id: Id, value: Value) {
    id in h
    && match h[id]
       case Sequence(items) => value in items
       case Mapping(entries) => exists key :: (key, value) in entries
       case Other => false
  }

  /** A container that is found by going down so many times from a value. */
  ghost predicate IsBelow(h: Heap, from: Value, id: Id, steps: nat)
    decreases steps
  {
    if steps == 0 then from == Ref(id)
    else from.Ref? && exists child | Holds(h, from.id, Ref(child)) :: IsBelow(h, Ref(child), id, steps - 1)
  }

  lemma ChildrenAreHeld(h: Heap, id: Id, depth: int)
    ensures forall item | item in Children(Deref(h, id), depth) :: Holds(h, id, item.value) && item.depth == depth + 1
    ensures forall value | Holds(h, id, value) :: Item(value, depth + 1) in Children(Deref(h, id), depth)
  {
    var items := Children(Deref(h, id), depth);
    forall item | item in items
      ensures Holds(h, id, item.value) && item.depth == depth + 1
    {
      var i :| 0 <= i < |items| && items[i] == item;
      if Deref(h, id).Mapping? {
        assert (h[id].entries[i].0, item.value) in h[id].entries;
      }
    }
    forall value | Holds(h, id, value)
      ensures Item(value, depth + 1) in items
    {
      if h[id].Sequence? {
        var i :| 0 <= i < |h[id].items| && h[id].items[i] == value;
        assert items[i] == Item(value, depth + 1);
      } else {
        var key :| (key, value) in h[id].entries;
        var i :| 0 <= i < |h[id].entries| && h[id].entries[i] == (key, value);
        assert items[i] == Item(value, depth + 1);
      }
    }
  }

  lemma {:induction false} BelowExtends(h: Heap, from: Value, id: Id, steps: nat, child: Id)
    requires IsBelow(h, from, id, steps) && Holds(h, id, Ref(child))
    ensures IsBelow(h, from, child, steps + 1)
    decreases steps
  {
    if steps == 0 {
      assert IsBelow(h, Ref(child), child, 0);
    } else {
      var first :| Holds(h, from.id, Ref(first)) && IsBelow(h, Ref(first), id, steps - 1);
      BelowExtends(h, Ref(first), id, steps - 1, child);
    }
  }

  lemma {:induction false} BelowComesFrom(h: Heap, from: Value, id: Id, steps: nat) returns (mid: Id)
    requires IsBelow(h, from, id, steps + 1)
    ensures IsBelow(h, from, mid, steps) && Holds(h, mid, Ref(id))
    decreases steps
  {
    var child :| Holds(h, from.id, Ref(child)) && IsBelow(h, Ref(child), id, steps);
    if steps == 0 {
      mid := from.id;
    } else {
      mid := BelowComesFrom(h, Ref(child), id, steps - 1);
    }
  }

  ghost predicate IsBelowWithin(h: Heap, from: Value, id: Id, most: int) {
    exists steps: nat | steps <= most :: IsBelow(h, from, id, steps)
  }

  /** A container within so many steps of the body or of the attributes. */
  ghost predicate IsReached(h: Heap, body: Value, attributes: Value, id: Id, most: int) {
    IsBelowWithin(h, body, id, most) || IsBelowWithin(h, attributes, id, most)
  }

  /** A container so many steps below the attributes, by way of one that the body does not reach as soon. */
  ghost predicate IsByAttributes(h: Heap, body: Value, attributes: Value, id: Id, steps: nat) {
    if steps == 0 then attributes == Ref(id)
    else
      exists mid | Holds(h, mid, Ref(id)) ::
        IsBelow(h, attributes, mid, steps - 1) && !IsBelowWithin(h, body, mid, steps - 1)
  }

  lemma ReachedOneMore(h: Heap, body: Value, attributes: Value, mid: Id, id: Id, most: int)
    requires IsReached(h, body, attributes, mid, most) && Holds(h, mid, Ref(id))
    ensures IsReached(h, body, attributes, id, most + 1)
  {
    if steps: nat :| steps <= most && IsBelow(h, body, mid, steps) {
      BelowExtends(h, body, mid, steps, id);
    } else {
      var steps: nat :| steps <= most && IsBelow(h, attributes, mid, steps);
      BelowExtends(h, attributes, mid, steps, id);
    }
  }

  // ---------- One level: first what the body leads to, then what the attributes do ----------

  predicate Queued(queue: seq<Item>, id: Id) {
    exists i | 0 <= i < |queue| :: queue[i].value == Ref(id)
  }

  predicate QueuedAt(queue: seq<Item>, depth: int) {
    forall i | 0 <= i < |queue| && queue[i].value.Ref? :: queue[i].depth == depth
  }

  lemma QueuedInBoth(a: seq<Item>, b: seq<Item>, id: Id)
    ensures Queued(a + b, id) <==> Queued(a, id) || Queued(b, id)
  {
    if i :| 0 <= i < |a| && a[i].value == Ref(id) {
      assert (a + b)[i] == a[i];
    }
    if i :| 0 <= i < |b| && b[i].value == Ref(id) {
      assert (a + b)[|a| + i] == b[i];
    }
  }

  /** What containers that are expanded from one scan to the next hold, and nothing else, is queued. */
  ghost predicate QueuesHeld(h: Heap, s: Scan, s': Scan, added: seq<Item>) {
    forall child :: Queued(added, child) <==>
                      exists id | id in s'.expanded && id !in s.expanded :: Holds(h, id, Ref(child))
  }

  /** Containers of one depth that are looked at are expanded, and what the new ones hold is queued one deeper. */
  ghost predicate Expands(h: Heap, s: Scan, s': Scan, queue: seq<Item>, depth: int) {
    && s.next <= s'.next && QueuedAt(s'.next[|s.next|..], depth + 1)
    && (forall id :: id in s'.expanded <==> id in s.expanded || Queued(queue, id))
    && QueuesHeld(h, s, s', s'.next[|s.next|..])
  }

  lemma ChildrenAreQueued(h: Heap, id: Id, depth: int, child: Id)
    ensures Queued(Children(Deref(h, id), depth), child) <==> Holds(h, id, Ref(child))
  {
    ChildrenAreHeld(h, id, depth);
    var items := Children(Deref(h, id), depth);
    if Holds(h, id, Ref(child)) {
      var i :| 0 <= i < |items| && items[i] == Item(Ref(child), depth + 1);
    }
  }

  lemma LookExpands(h: Heap, limit: int, s: Scan, item: Item, depth: int)
    requires item.value.Ref? && item.depth == depth <= limit
    ensures Expands(h, s, Look(h, limit, s, item), [item], depth)
  {
    var s', id := Look(h, limit, s, item), item.value.id;
    var added := s'.next[|s.next|..];
    assert [item][0].value == Ref(id);
    if id in s.expanded {
      assert added == [];
    } else {
      assert added == Children(Deref(h, id), depth);
      forall child
        ensures Queued(added, child) <==> Holds(h, id, Ref(child))
      {
        ChildrenAreQueued(h, id, depth, child);
      }
      assert id in s'.expanded;
    }
  }

  lemma ExpandsOnward(h: Heap, s: Scan, s1: Scan, s2: Scan, queue: seq<Item>, last: seq<Item>, depth: int)
    requires Expands(h, s, s1, queue, depth) && Expands(h, s1, s2, last, depth)
    ensures Expands(h, s, s2, queue + last, depth)
  {
    var a, b := s1.next[|s.next|..], s2.next[|s1.next|..];
    assert s2.next[|s.next|..] == a + b;
    forall id
      ensures id in s2.expanded <==> id in s.expanded || Queued(queue + last, id)
    {
      QueuedInBoth(queue, last, id);
    }
    forall child
      ensures Queued(a + b, child) <==>
                exists id | id in s2.expanded && id !in s.expanded :: Holds(h, id, Ref(child))
    {
      QueuedInBoth(a, b, child);
    }
  }

  lemma {:induction false} LevelExpands(h: Heap, limit: int, s: Scan, queue: seq<Item>, depth: int)
    requires QueuedAt(queue, depth) && depth <= limit
    ensures Expands(h, s, Level(h, limit, s, queue), queue, depth)
  {
    if queue == [] {
      assert s.next[|s.next|..] == [];
    } else {
      var init, last := queue[..|queue| - 1], queue[|queue| - 1];
      var s1 := Level(h, limit, s, init);
      LevelExpands(h, limit, s, init, depth);
      assert queue == init + [last];
      if last.value.Ref? {
        LookExpands(h, limit, s1, last, depth);
        ExpandsOnward(h, s, s1, Look(h, limit, s1, last), init, [last], depth);
      } else {
        forall id
          ensures Queued(queue, id) <==> Queued(init, id)
        {
          QueuedInBoth(init, [last], id);
        }
      }
    }
  }

  lemma {:induction false} LevelPassesOver(h: Heap, limit: int, s: Scan, queue: seq<Item>, depth: int)
    requires QueuedAt(queue, depth) && depth > limit
    ensures Level(h, limit, s, queue).expanded == s.expanded && Level(h, limit, s, queue).next == s.next
  {
    if queue != [] {
      LevelPassesOver(h, limit, s, queue[..|queue| - 1], depth);
    }
  }

  lemma {:induction false} LevelSplits(h: Heap, limit: int, s: Scan, a: seq<Item>, b: seq<Item>)
    ensures Level(h, limit, s, a + b) == Level(h, limit, Level(h, limit, s, a), b)
    decreases |b|
  {
    if b == [] {
      assert a + b == a;
    } else {
      assert (a + b)[..|a + b| - 1] == a + b[..|b| - 1];
      LevelSplits(h, limit, s, a, b[..|b| - 1]);
    }
  }

  // ---------- Level after level ----------

  /**
    Before the level of so many steps: everything reached in fewer is expanded, what is reached next from the body is
    queued first, and what is reached next from the attributes alone after that.
   */
  ghost predicate Explored(h: Heap, body: Value, attributes: Value, steps: nat, expanded: seq<Id>,
                           first: seq<Item>, second: seq<Item>) {
    && QueuedAt(first, steps) && QueuedAt(second, steps - 1)
    && (forall id :: id in expanded <==> IsReached(h, body, attributes, id, steps - 1))
    && (forall id :: Queued(first, id) ==> IsBelow(h, body, id, steps))
    && (forall id :: Queued(second, id) ==> IsByAttributes(h, body, attributes, id, steps))
    && (forall id :: IsBelow(h, body, id, steps) ==> Queued(first, id) || id in expanded)
    && (forall id :: IsByAttributes(h, body, attributes, id, steps) ==> Queued(second, id) || id in expanded)
  }

  lemma ByAttributesIsBelow(h: Heap, body: Value, attributes: Value, id: Id, steps: nat)
    requires IsByAttributes(h, body, attributes, id, steps)
    ensures IsBelow(h, attributes, id, steps)
  {
    if steps > 0 {
      var mid :| Holds(h, mid, Ref(id)) && IsBelow(h, attributes, mid, steps - 1);
      BelowExtends(h, attributes, mid, steps - 1, id);
    }
  }

  /** A container reached in so many steps is expanded or queued. */
  lemma ReachedIsQueued(h: Heap, body: Value, attributes: Value, steps: nat, expanded: seq<Id>,
                        first: seq<Item>, second: seq<Item>, id: Id)
    requires Explored(h, body, attributes, steps, expanded, first, second)
    ensures IsReached(h, body, attributes, id, steps) <==>
              id in expanded || Queued(first, id) || Queued(second, id)
  {
    if Queued(second, id) {
      ByAttributesIsBelow(h, body, attributes, id, steps);
    }
    if IsBelow(h, attributes, id, steps) && steps > 0 {
      var mid := BelowComesFrom(h, attributes, id, steps - 1);
      if IsBelowWithin(h, body, mid, steps - 1) {
        var n: nat :| n <= steps - 1 && IsBelow(h, body, mid, n);
        BelowExtends(h, body, mid, n, id);
        assert n + 1 < steps ==> IsReached(h, body, attributes, id, steps - 1);
      } else {
        assert IsByAttributes(h, body, attributes, id, steps);
      }
    }
  }

  /** One level within the limit. */
  lemma ExploresOn(h: Heap, body: Value, attributes: Value, limit: int, size: nat, steps: nat, expanded: seq<Id>,
                   first: seq<Item>, second: seq<Item>) returns (next: seq<Item>, rest: seq<Item>)
    requires Explored(h, body, attributes, steps, expanded, first, second) && steps <= limit
    ensures var s := Level(h, limit, Scan(size, expanded, []), first + second);
            s.next == next + rest && Explored(h, body, attributes, steps + 1, s.expanded, next, rest)
  {
    var start := Scan(size, expanded, []);
    var s1 := Level(h, limit, start, first);
    var s := Level(h, limit, s1, second);
    LevelSplits(h, limit, start, first, second);
    LevelExpands(h, limit, start, first, steps);
    LevelExpands(h, limit, s1, second, steps - 1);
    next, rest := s1.next, s.next[|s1.next|..];
    assert s1.next[|start.next|..] == next;
    forall id
      ensures id in s.expanded <==> IsReached(h, body, attributes, id, steps)
    {
      ReachedIsQueued(h, body, attributes, steps, expanded, first, second, id);
    }
    forall id
      ensures Queued(next, id) ==> IsBelow(h, body, id, steps + 1)
      ensures IsBelow(h, body, id, steps + 1) ==> Queued(next, id) || id in s.expanded
    {
      FirstQueuesNext(h, body, attributes, steps, expanded, first, second, start, s1, s.expanded, id);
    }
    forall id
      ensures Queued(rest, id) ==> IsByAttributes(h, body, attributes, id, steps + 1)
      ensures IsByAttributes(h, body, attributes, id, steps + 1) ==> Queued(rest, id) || id in s.expanded
    {
      SecondQueuesNext(h, body, attributes, steps, expanded, first, second, s1, s, id);
    }
  }

  lemma FirstQueuesNext(h: Heap, body: Value, attributes: Value, steps: nat, expanded: seq<Id>, first: seq<Item>,
                        second: seq<Item>, start: Scan, s1: Scan, after: seq<Id>, id: Id)
    requires Explored(h, body, attributes, steps, expanded, first, second)
    requires start.expanded == expanded && start.next == [] && Expands(h, start, s1, first, steps)
    requires forall other :: other in after <==> IsReached(h, body, attributes, other, steps)
    ensures Queued(s1.next, id) ==> IsBelow(h, body, id, steps + 1)
    ensures IsBelow(h, body, id, steps + 1) ==> Queued(s1.next, id) || id in after
  {
    assert s1.next[|start.next|..] == s1.next;
    if Queued(s1.next, id) {
      var mid :| mid in s1.expanded && mid !in expanded && Holds(h, mid, Ref(id));
      BelowExtends(h, body, mid, steps, id);
    }
    if IsBelow(h, body, id, steps + 1) {
      var mid := BelowComesFrom(h, body, id, steps);
      if mid in expanded {
        ReachedOneMore(h, body, attributes, mid, id, steps - 1);
      }
    }
  }

  lemma SecondQueuesBelow(h: Heap, body: Value, attributes: Value, steps: nat, expanded: seq<Id>, first: seq<Item>,
                          second: seq<Item>, id: Id)
    requires Explored(h, body, attributes, steps, expanded, first, second)
    requires Queued(second, id) && id !in expanded && !Queued(first, id)
    ensures IsBelow(h, attributes, id, steps) && !IsBelowWithin(h, body, id, steps)
  {
    ByAttributesIsBelow(h, body, attributes, id, steps);
    assert !IsReached(h, body, attributes, id, steps - 1) && !IsBelow(h, body, id, steps);
    assert !IsBelowWithin(h, body, id, steps - 1);
  }

  lemma ByAttributesIsQueued(h: Heap, body: Value, attributes: Value, steps: nat, expanded: seq<Id>, first: seq<Item>,
                             second: seq<Item>, after: seq<Id>, id: Id) returns (mid: Id)
    requires Explored(h, body, attributes, steps, expanded, first, second)
    requires forall other :: other in after <==> IsReached(h, body, attributes, other, steps)
    requires IsByAttributes(h, body, attributes, id, steps + 1) && id !in after
    ensures Holds(h, mid, Ref(id)) && mid in after && mid !in expanded && !Queued(first, mid)
  {
    mid :| Holds(h, mid, Ref(id)) && IsBelow(h, attributes, mid, steps) && !IsBelowWithin(h, body, mid, steps);
    if mid in expanded {
      ReachedOneMore(h, body, attributes, mid, id, steps - 1);
    }
  }

  lemma SecondQueuesNext(h: Heap, body: Value, attributes: Value, steps: nat, expanded: seq<Id>, first: seq<Item>,
                         second: seq<Item>, s1: Scan, s: Scan, id: Id)
    requires Explored(h, body, attributes, steps, expanded, first, second)
    requires forall other :: other in s1.expanded <==> other in expanded || Queued(first, other)
    requires Expands(h, s1, s, second, steps - 1)
    requires forall other :: other in s.expanded <==> IsReached(h, body, attributes, other, steps)
    ensures var rest := s.next[|s1.next|..];
            && (Queued(rest, id) ==> IsByAttributes(h, body, attributes, id, steps + 1))
            && (IsByAttributes(h, body, attributes, id, steps + 1) ==> Queued(rest, id) || id in s.expanded)
  {
    if Queued(s.next[|s1.next|..], id) {
      var mid :| mid in s.expanded && mid !in s1.expanded && Holds(h, mid, Ref(id));
      SecondQueuesBelow(h, body, attributes, steps, expanded, first, second, mid);
    }
    if IsByAttributes(h, body, attributes, id, steps + 1) && id !in s.expanded {
      var mid := ByAttributesIsQueued(h, body, attributes, steps, expanded, first, second, s.expanded, id);
    }
  }

  /** The last level that expands: only what the attributes alone lead to. */
  lemma ExploresLast(h: Heap, body: Value, attributes: Value, limit: int, size: nat, expanded: seq<Id>,
                     first: seq<Item>, second: seq<Item>, low: int)
    requires limit >= -1 && Explored(h, body, attributes, limit + 1, expanded, first, second)
    requires AtLeast(first + second, low)
    ensures forall id :: id in Levels(h, limit, size, expanded, first + second, low).expanded <==>
              IsReached(h, body, attributes, id, limit) || IsByAttributes(h, body, attributes, id, limit + 1)
  {
    var start := Scan(size, expanded, []);
    var s := Level(h, limit, start, first + second);
    var s1 := Level(h, limit, start, first);
    LevelSplits(h, limit, start, first, second);
    LevelPassesOver(h, limit, start, first, limit + 1);
    LevelExpands(h, limit, s1, second, limit);
    LevelDescends(h, limit, start, first + second, low);
    assert s.next == s.next[|s1.next|..];
    if s.next != [] {
      var s' := Level(h, limit, Scan(s.size, s.expanded, []), s.next);
      LevelPassesOver(h, limit, Scan(s.size, s.expanded, []), s.next, limit + 1);
      assert s'.next == [] && s'.expanded == s.expanded;
    }
  }

  lemma {:induction false} LevelsExplore(h: Heap, body: Value, attributes: Value, limit: int, size: nat, steps: nat,
                                         expanded: seq<Id>, first: seq<Item>, second: seq<Item>, low: int)
    requires steps <= limit + 1 && Explored(h, body, attributes, steps, expanded, first, second)
    requires AtLeast(first + second, low)
    ensures forall id :: id in Levels(h, limit, size, expanded, first + second, low).expanded <==>
              IsReached(h, body, attributes, id, limit) || IsByAttributes(h, body, attributes, id, limit + 1)
    decreases limit + 1 - steps
  {
    if steps == limit + 1 {
      ExploresLast(h, body, attributes, limit, size, expanded, first, second, low);
    } else {
      var start := Scan(size, expanded, []);
      var s := Level(h, limit, start, first + second);
      var next, rest := ExploresOn(h, body, attributes, limit, size, steps, expanded, first, second);
      LevelDescends(h, limit, start, first + second, low);
      LevelsExplore(h, body, attributes, limit, s.size, steps + 1, s.expanded, next, rest, low + 1);
      if s.next == [] {
        assert Levels(h, limit, s.size, s.expanded, s.next, low + 1).expanded == s.expanded;
      }
    }
  }

  /**
    On every heap exactly these containers are expanded: those at most `limit` steps below the body or the attributes,
    and of those one step further below the attributes the ones that are held by a container which the body does not
    lead to within the limit.
   */
  lemma ScanExpandsExactly(h: Heap, body: Value, attributes: Value, limit: int, id: Id)
    requires limit >= -1
    ensures id in FullScan(h, body, attributes, limit).expanded <==>
              IsReached(h, body, attributes, id, limit) || IsByAttributes(h, body, attributes, id, limit + 1)
  {
    var first, second := [Item(body, 0)], [Item(attributes, -1)];
    assert Roots(body, attributes) == first + second;
    assert first[0].value == body && second[0].value == attributes;
    assert forall id :: !IsReached(h, body, attributes, id, -1);
    LevelsExplore(h, body, attributes, limit, BASE_LOG_BUFFER_BYTE_SIZE, 0, [], first, second, -1);
  }

  lemma AttributesAlone(h: Heap, body: Value, attributes: Value, id: Id, steps: nat)
    requires !body.Ref? && IsBelow(h, attributes, id, steps)
    ensures IsByAttributes(h, body, attributes, id, steps)
  {
    if steps > 0 {
      var mid := BelowComesFrom(h, attributes, id, steps - 1);
    }
  }

  /** With a body that is no container, exactly what is at most `limit + 1` steps below the attributes is expanded. */
  lemma ScanExpandsAttributes(h: Heap, body: Value, attributes: Value, limit: int, id: Id)
    requires limit >= -1 && !body.Ref?
    ensures id in FullScan(h, body, attributes, limit).expanded <==> IsBelowWithin(h, attributes, id, limit + 1)
  {
    ScanExpandsExactly(h, body, attributes, limit, id);
    if IsBelow(h, attributes, id, limit + 1) {
      AttributesAlone(h, body, attributes, id, limit + 1);
    }
    if IsByAttributes(h, body, attributes, id, limit + 1) {
      ByAttributesIsBelow(h, body, attributes, id, limit + 1);
    }
  }

  /** A body and attributes that hold nothing but one container, which holds another. */
  ghost predicate Share(h: Heap, body: Id, attributes: Id, shared: Id, inner: Id) {
    && inner != body && inner != attributes && inner != shared
    && (forall value :: Holds(h, body, value) <==> value == Ref(shared))
    && (forall value :: Holds(h, attributes, value) <==> value == Ref(shared))
    && Holds(h, shared, Ref(inner))
  }

  /** What they share is met in the body first, and what it holds then lies too deep, though not in the attributes. */
  lemma SharedContentIsMissed(h: Heap, body: Id, attributes: Id, shared: Id, inner: Id, limit: int)
    requires limit == 1 && Share(h, body, attributes, shared, inner)
    ensures IsBelow(h, Ref(attributes), inner, limit + 1)
    ensures inner !in FullScan(h, Ref(body), Ref(attributes), limit).expanded
  {
    ScanExpandsExactly(h, Ref(body), Ref(attributes), limit, inner);
    assert IsBelow(h, Ref(inner), inner, 0) && IsBelow(h, Ref(shared), shared, 0);
    assert IsBelow(h, Ref(shared), inner, 1);
    assert Holds(h, body, Ref(shared)) && Holds(h, attributes, Ref(shared));
    assert IsBelow(h, Ref(body), shared, 1);
    forall steps: nat | steps <= 1
      ensures !IsBelow(h, Ref(body), inner, steps) && !IsBelow(h, Ref(attributes), inner, steps)
    {
      assert !IsBelow(h, Ref(shared), inner, 0);
    }
    forall mid | IsBelow(h, Ref(attributes), mid, 1)
      ensures mid == shared
    {
    }
  }
}
