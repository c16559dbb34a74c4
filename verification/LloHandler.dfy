/** Moving generative-AI content out of spans: what is removed, what is collected and what is emitted. */
module LloHandler {
  import opened Wrappers
  import opened Sequences
  import opened Sorting
  import opened OrderedDict
  import opened Passes

  /** An attribute value, or all the attributes of an event taken as one value. */
  datatype Value = Scalar(text: string) | Attributes(entries: Dict<string, Value>)

  type Attrs = Dict<string, Value>

  // ---------- The pattern registry ----------

  datatype Direct = Direct(role: string, source: string)

  /** A pattern with a number between prefix and suffix; the role attribute has the same prefix and its own suffix. */
  datatype Indexed = Indexed(prefix: string, suffix: string, roleSuffix: string, defaultRole: string, source: string)

  datatype Registry = Registry(direct: map<string, Direct>, indexed: seq<Indexed>)

  const DIRECT_PATTERNS: map<string, Direct> := map[
    "traceloop.entity.input" := Direct("user", "input"),
    "traceloop.entity.output" := Direct("assistant", "output"),
    "crewai.crew.tasks_output" := Direct("assistant", "output"),
    "crewai.crew.result" := Direct("assistant", "result"),
    "gen_ai.prompt" := Direct("user", "prompt"),
    "gen_ai.completion" := Direct("assistant", "completion"),
    "gen_ai.content.revised_prompt" := Direct("system", "prompt"),
    "gen_ai.agent.actual_output" := Direct("assistant", "output"),
    "gen_ai.agent.human_input" := Direct("user", "input"),
    "input.value" := Direct("user", "input"),
    "output.value" := Direct("assistant", "output"),
    "system_prompt" := Direct("system", "prompt"),
    "tool.result" := Direct("assistant", "output"),
    "llm.prompts" := Direct("user", "prompt"),
    "gen_ai.user.message" := Direct("user", "prompt"),
    "gen_ai.assistant.message" := Direct("assistant", "output"),
    "gen_ai.system.message" := Direct("system", "prompt"),
    "gen_ai.tool.message" := Direct("tool", "prompt"),
    "gen_ai.choice" := Direct("assistant", "output")
  ]

  const INDEXED_PATTERNS := [
    Indexed("gen_ai.prompt.", ".content", ".role", "unknown", "prompt"),
    Indexed("gen_ai.completion.", ".content", ".role", "unknown", "completion"),
    Indexed("llm.input_messages.", ".message.content", ".message.role", "user", "input"),
    Indexed("llm.output_messages.", ".message.content", ".message.role", "assistant", "output")
  ]

  const LLO_PATTERNS := Registry(DIRECT_PATTERNS, INDEXED_PATTERNS)

  predicate IsDigit(c: char) { '0' <= c <= '9' }

  function DigitValue(c: char): nat
    requires IsDigit(c)
  {
    c as int - '0' as int
  }

  function ParseDigits(s: string): nat
    requires forall i | 0 <= i < |s| :: IsDigit(s[i])
  {
    if s == "" then 0 else 10 * ParseDigits(s[..|s| - 1]) + DigitValue(s[|s| - 1])
  }

  /** A `$` in a regex also matches just before a final newline. */
  function Chomp(s: string): string { if s != "" && s[|s| - 1] == '\n' then s[..|s| - 1] else s }

  predicate EndsWith(s: string, suffix: string) { |s| >= |suffix| && s[|s| - |suffix|..] == suffix }

  predicate AllDigits(text: string) { text != "" && forall i | 0 <= i < |text| :: IsDigit(text[i]) }

  /** The index a key holds for a pattern, if it matches. */
  function IndexIn(p: Indexed, key: string): Option<nat> {
    var s := Chomp(key);
    if p.prefix <= s && EndsWith(s, p.suffix) && |p.prefix| + |p.suffix| < |s| then
      var digits := s[|p.prefix|..|s| - |p.suffix|];
      if AllDigits(digits) then Some(ParseDigits(digits)) else None
    else None
  }

  /** The first pattern a key matches, or the number of patterns. */
  function FirstIndexed(ps: seq<Indexed>, key: string): (i: nat)
    ensures i <= |ps| && (i < |ps| ==> IndexIn(ps[i], key).Some?)
    ensures forall j | 0 <= j < i :: IndexIn(ps[j], key).None?
  {
    if ps == [] || IndexIn(ps[0], key).Some? then 0 else 1 + FirstIndexed(ps[1..], key)
  }

  predicate IsIndexed(reg: Registry, key: string) { FirstIndexed(reg.indexed, key) < |reg.indexed| }

  predicate IsLlo(reg: Registry, key: string) { key in reg.direct || IsIndexed(reg, key) }

  // ---------- Filtering, for any idea `llo` of which keys are LLO ----------

  datatype Event = Event(name: string, attributes: Attrs, timestamp: int)

  datatype SpanState = SpanState(attributes: Option<Attrs>, events: seq<Event>)

  /** The attributes that stay, in order. */
  function Kept(llo: string -> bool, d: Attrs): Attrs {
    if d == [] then []
    else Kept(llo, d[..|d| - 1]) + if llo(d[|d| - 1].0) then [] else [d[|d| - 1]]
  }

  function KeptEvent(llo: string -> bool, e: Event): seq<Event> {
    if llo(e.name) then [] else [e.(attributes := Kept(llo, e.attributes))]
  }

  function KeptEvents(llo: string -> bool, events: seq<Event>): seq<Event> {
    if events == [] then [] else KeptEvents(llo, events[..|events| - 1]) + KeptEvent(llo, events[|events| - 1])
  }

  function Cleaned(llo: string -> bool, s: SpanState): SpanState {
    SpanState(if s.attributes.Some? then Some(Kept(llo, s.attributes.value)) else None, KeptEvents(llo, s.events))
  }

  ghost predicate NoLloKeys(llo: string -> bool, d: Attrs) { forall i | 0 <= i < |d| :: !llo(d[i].0) }

  ghost predicate CleanEvent(llo: string -> bool, e: Event) { !llo(e.name) && NoLloKeys(llo, e.attributes) }

  ghost predicate CleanEvents(llo: string -> bool, events: seq<Event>) {
    forall i | 0 <= i < |events| :: CleanEvent(llo, events[i])
  }

  ghost predicate IsClean(llo: string -> bool, s: SpanState) {
    (s.attributes.Some? ==> NoLloKeys(llo, s.attributes.value)) && CleanEvents(llo, s.events)
  }

  lemma {:induction false} KeptHasNoLloKeys(llo: string -> bool, d: Attrs)
    ensures NoLloKeys(llo, Kept(llo, d)) && |Kept(llo, d)| <= |d|
    ensures NoLloKeys(llo, d) <==> Kept(llo, d) == d
    ensures Kept(llo, d) == d <==> |Kept(llo, d)| == |d|
  {
    if d != [] {
      KeptHasNoLloKeys(llo, d[..|d| - 1]);
      assert d == d[..|d| - 1] + [d[|d| - 1]];
    }
  }

  lemma KeptEventIsClean(llo: string -> bool, e: Event)
    ensures CleanEvents(llo, KeptEvent(llo, e))
    ensures CleanEvent(llo, e) ==> KeptEvent(llo, e) == [e]
  {
    KeptHasNoLloKeys(llo, e.attributes);
  }

  lemma CleanTogether(llo: string -> bool, a: seq<Event>, b: seq<Event>)
    ensures CleanEvents(llo, a + b) <==> CleanEvents(llo, a) && CleanEvents(llo, b)
  {
    assert forall i | 0 <= i < |a| :: (a + b)[i] == a[i];
    assert forall i | 0 <= i < |b| :: (a + b)[|a| + i] == b[i];
  }

  lemma {:induction false} KeptEventsAreClean(llo: string -> bool, events: seq<Event>)
    ensures CleanEvents(llo, KeptEvents(llo, events))
    ensures CleanEvents(llo, events) ==> KeptEvents(llo, events) == events
  {
    if events != [] {
      var init, last := events[..|events| - 1], events[|events| - 1];
      KeptEventsAreClean(llo, init);
      KeptEventIsClean(llo, last);
      CleanTogether(llo, KeptEvents(llo, init), KeptEvent(llo, last));
      assert CleanEvents(llo, events) ==> CleanEvent(llo, events[|events| - 1]);
      TakeOneMore(events, |events| - 1);
      CleanTogether(llo, init, [last]);
    }
  }

  /** After cleaning no key or event name is LLO; a clean span is left as it is, so cleaning twice is cleaning once. */
  lemma CleaningCleans(llo: string -> bool, s: SpanState)
    ensures IsClean(llo, Cleaned(llo, s))
    ensures IsClean(llo, s) ==> Cleaned(llo, s) == s
    ensures Cleaned(llo, Cleaned(llo, s)) == Cleaned(llo, s)
  {
    KeptEventsAreClean(llo, s.events);
    KeptEventsAreClean(llo, KeptEvents(llo, s.events));
    if s.attributes.Some? {
      KeptHasNoLloKeys(llo, s.attributes.value);
      KeptHasNoLloKeys(llo, Kept(llo, s.attributes.value));
    }
  }

  /** What stays is exactly the entries whose keys are not LLO, however often and wherever they occur. */
  lemma {:induction false} KeptKeepsTheRest(llo: string -> bool, d: Attrs, entry: (string, Value))
    ensures multiset(Kept(llo, d))[entry] == if llo(entry.0) then 0 else multiset(d)[entry]
  {
    if d != [] {
      KeptKeepsTheRest(llo, d[..|d| - 1], entry);
      assert d == d[..|d| - 1] + [d[|d| - 1]];
    }
  }

  /** Order is kept: what stays of two stretches is what stays of the first, then what stays of the second. */
  lemma {:induction false} KeptInOrder(llo: string -> bool, a: Attrs, b: Attrs)
    ensures Kept(llo, a + b) == Kept(llo, a) + Kept(llo, b)
  {
    if b == [] {
      assert a + b == a;
    } else {
      var init, last := b[..|b| - 1], b[|b| - 1];
      assert (a + b)[..|a + b| - 1] == a + init;
      KeptInOrder(llo, a, init);
      ConcatIsAssociative(Kept(llo, a), Kept(llo, init), if llo(last.0) then [] else [last]);
    }
  }

  lemma {:induction false} KeptEventsInOrder(llo: string -> bool, a: seq<Event>, b: seq<Event>)
    ensures KeptEvents(llo, a + b) == KeptEvents(llo, a) + KeptEvents(llo, b)
  {
    if b == [] {
      assert a + b == a;
    } else {
      var init := b[..|b| - 1];
      assert (a + b)[..|a + b| - 1] == a + init;
      KeptEventsInOrder(llo, a, init);
      ConcatIsAssociative(KeptEvents(llo, a), KeptEvents(llo, init), KeptEvent(llo, b[|b| - 1]));
    }
  }

  // ---------- Collecting ----------

  /** The LLO entries of a dictionary, in order. */
  function LloEntries(llo: string -> bool, d: Attrs): Attrs {
    if d == [] then []
    else LloEntries(llo, d[..|d| - 1]) + if llo(d[|d| - 1].0) then [d[|d| - 1]] else []
  }

  /** What an event contributes: itself whole if its name is LLO, then its LLO attributes. */
  function EventEntry(llo: string -> bool, e: Event): Attrs {
    (if llo(e.name) then [(e.name, Attributes(e.attributes))] else []) + LloEntries(llo, e.attributes)
  }

  function EventEntries(llo: string -> bool, events: seq<Event>): Attrs {
    if events == [] then [] else EventEntries(llo, events[..|events| - 1]) + EventEntry(llo, events[|events| - 1])
  }

  /** All LLO entries of a span, as they are met. */
  function LloContent(llo: string -> bool, s: SpanState): Attrs {
    LloEntries(llo, s.attributes.GetOr([])) + EventEntries(llo, s.events)
  }

  /** They are merged into one dictionary before anything is emitted. */
  function Collected(llo: string -> bool, s: SpanState): Attrs { PutAll([], LloContent(llo, s)) }

  /** An attribute either stays or is LLO content, as often as it occurs. */
  lemma {:induction false} KeptAndLloPartition(llo: string -> bool, d: Attrs)
    ensures multiset(Kept(llo, d)) + multiset(LloEntries(llo, d)) == multiset(d)
  {
    if d != [] {
      KeptAndLloPartition(llo, d[..|d| - 1]);
      AroundOne(d, |d| - 1);
      assert d == d[..|d| - 1] + [d[|d| - 1]];
    }
  }

  /** The last value given for a key. */
  function LastFor(entries: Attrs, key: string): Option<Value> {
    if entries == [] then None
    else if entries[|entries| - 1].0 == key then Some(entries[|entries| - 1].1)
    else LastFor(entries[..|entries| - 1], key)
  }

  lemma {:induction false} LookupPut(d: Attrs, key: string, value: Value, other: string)
    ensures Lookup(Put(d, key, value), other) == if other == key then Some(value) else Lookup(d, other)
  {
    if d != [] && d[0].0 != key {
      LookupPut(d[1..], key, value, other);
      assert Put(d, key, value)[1..] == Put(d[1..], key, value);
    } else if d != [] {
      assert Put(d, key, value)[1..] == d[1..];
    }
  }

  /** Of entries that share a key, wherever in the span they come from, only the last is collected. */
  lemma {:induction false} LastEntryIsCollected(entries: Attrs, key: string)
    ensures Lookup(PutAll([], entries), key) == LastFor(entries, key)
  {
    if entries != [] {
      var init, last := entries[..|entries| - 1], entries[|entries| - 1];
      LastEntryIsCollected(init, key);
      LookupPut(PutAll([], init), last.0, last.1, key);
    }
  }

  lemma {:induction false} EntriesAreLlo(llo: string -> bool, d: Attrs)
    ensures forall i | 0 <= i < |LloEntries(llo, d)| :: llo(LloEntries(llo, d)[i].0)
    ensures LloEntries(llo, d) == [] <==> NoLloKeys(llo, d)
  {
    if d != [] {
      EntriesAreLlo(llo, d[..|d| - 1]);
    }
  }

  lemma {:induction false} EventEntriesAreLlo(llo: string -> bool, events: seq<Event>)
    ensures forall i | 0 <= i < |EventEntries(llo, events)| :: llo(EventEntries(llo, events)[i].0)
    ensures EventEntries(llo, events) == [] <==> CleanEvents(llo, events)
  {
    if events != [] {
      EventEntriesAreLlo(llo, events[..|events| - 1]);
      EntriesAreLlo(llo, events[|events| - 1].attributes);
    }
  }

  /** Everything collected is LLO, keys are collected once, and nothing is collected exactly from clean spans. */
  lemma CollectedIsLlo(llo: string -> bool, s: SpanState)
    ensures var c := Collected(llo, s);
            && KeysDistinct(c)
            && (forall i | 0 <= i < |c| :: llo(c[i].0))
            && (c == [] <==> IsClean(llo, s))
  {
    var own, all := LloEntries(llo, s.attributes.GetOr([])),
                    LloEntries(llo, s.attributes.GetOr([])) + EventEntries(llo, s.events);
    EntriesAreLlo(llo, s.attributes.GetOr([]));
    EventEntriesAreLlo(llo, s.events);
    PutAllKeys<string, Value>([], all);
    var c := Collected(llo, s);
    forall i | 0 <= i < |c|
      ensures llo(c[i].0)
    {
      assert HasKey(c, c[i].0);
      assert HasKey(all, c[i].0);
    }
    if c == [] {
      assert all != [] ==> HasKey(all, all[0].0);
      assert all == [];
    }
  }

  // ---------- Messages ----------

  /** A key's place among indexed messages, and how to make one of it. */
  datatype Hit = Hit(pattern: string, index: nat, roleKey: string, defaultRole: string, source: string)

  /** What the registry says of keys. */
  datatype Patterns = Patterns(direct: string -> Option<Direct>, indexed: string -> Option<Hit>)

  predicate Matched(m: Patterns, key: string) { m.direct(key).Some? || m.indexed(key).Some? }

  datatype Message = Message(content: Value, role: Value, source: string)

  type IndexKey = (string, nat)

  function Lookup(d: Attrs, key: string): Option<Value> {
    if d == [] then None else if d[0].0 == key then Some(d[0].1) else Lookup(d[1..], key)
  }

  function DirectMessage(content: Value, c: Direct): Message { Message(content, Scalar(c.role), c.source) }

  function IndexedMessage(d: Attrs, content: Value, hit: Hit): Message {
    Message(content, Lookup(d, hit.roleKey).GetOr(Scalar(hit.defaultRole)), hit.source)
  }

  function DirectMessages(m: Patterns, d: Attrs): seq<Message> {
    if d == [] then []
    else
      var (key, value), before := d[|d| - 1], DirectMessages(m, d[..|d| - 1]);
      if m.direct(key).Some? then before + [DirectMessage(value, m.direct(key).value)] else before
  }

  /** The indexed messages found in `part`, keyed by pattern and index; roles are looked up in the whole dictionary. */
  function IndexedEntries(m: Patterns, d: Attrs, part: Attrs): Dict<IndexKey, Message> {
    if part == [] then []
    else
      var (key, value), before := part[|part| - 1], IndexedEntries(m, d, part[..|part| - 1]);
      if m.indexed(key).Some? then
        var hit := m.indexed(key).value;
        before + [((hit.pattern, hit.index), IndexedMessage(d, value, hit))]
      else before
  }

  predicate ByIndexKey(a: (IndexKey, Message), b: (IndexKey, Message)) {
    if a.0.0 == b.0.0 then a.0.1 < b.0.1 else StringLess(a.0.0, b.0.0)
  }

  function Values(d: Dict<IndexKey, Message>): seq<Message> {
    if d == [] then [] else Values(d[..|d| - 1]) + [d[|d| - 1].1]
  }

  function IndexedMessages(m: Patterns, d: Attrs): seq<Message> {
    Values(Sort(ByIndexKey, PutAll([], IndexedEntries(m, d, d))))
  }

  function AllMessages(m: Patterns, d: Attrs): seq<Message> { DirectMessages(m, d) + IndexedMessages(m, d) }

  /** What each collected entry should become, entry by entry. */
  function Expected(m: Patterns, d: Attrs, part: Attrs): seq<Message> {
    if part == [] then []
    else
      var (key, value), before := part[|part| - 1], Expected(m, d, part[..|part| - 1]);
      if m.direct(key).Some? then before + [DirectMessage(value, m.direct(key).value)]
      else if m.indexed(key).Some? then before + [IndexedMessage(d, value, m.indexed(key).value)]
      else before
  }

  /** A dictionary of collected entries: all matched, none both directly and by index. */
  ghost predicate AllMatched(m: Patterns, d: Attrs) {
    forall i | 0 <= i < |d| :: m.direct(d[i].0).Some? <==> m.indexed(d[i].0).None?
  }

  lemma {:induction false} ExpectedCounts(m: Patterns, d: Attrs, part: Attrs)
    requires AllMatched(m, part)
    ensures |Expected(m, d, part)| == |part| == |DirectMessages(m, part)| + |IndexedEntries(m, d, part)|
  {
    if part != [] {
      ExpectedCounts(m, d, part[..|part| - 1]);
    }
  }

  lemma ValuesOneMore(d: Dict<IndexKey, Message>, entry: (IndexKey, Message))
    ensures Values(d + [entry]) == Values(d) + [entry.1]
  {
    assert (d + [entry])[..|d|] == d;
  }

  lemma OneMoreMessage(all: seq<Message>, direct: seq<Message>, indexed: seq<Message>, x: Message)
    requires multiset(all) == multiset(direct) + multiset(indexed)
    ensures multiset(all + [x]) == multiset(direct + [x]) + multiset(indexed)
    ensures multiset(all + [x]) == multiset(direct) + multiset(indexed + [x])
  {
  }

  lemma {:induction false} ExpectedSplits(m: Patterns, d: Attrs, part: Attrs)
    requires AllMatched(m, part)
    ensures multiset(Expected(m, d, part))
         == multiset(DirectMessages(m, part)) + multiset(Values(IndexedEntries(m, d, part)))
  {
    if part != [] {
      var init, key, value := part[..|part| - 1], part[|part| - 1].0, part[|part| - 1].1;
      ExpectedSplits(m, d, init);
      var all, direct, indexed := Expected(m, d, init), DirectMessages(m, init), IndexedEntries(m, d, init);
      if m.direct(key).Some? {
        OneMoreMessage(all, direct, Values(indexed), DirectMessage(value, m.direct(key).value));
      } else {
        var hit := m.indexed(key).value;
        var x := IndexedMessage(d, value, hit);
        OneMoreMessage(all, direct, Values(indexed), x);
        ValuesOneMore(indexed, ((hit.pattern, hit.index), x));
      }
    }
  }

  lemma {:induction false} ValuesSplit(a: Dict<IndexKey, Message>, b: Dict<IndexKey, Message>)
    ensures Values(a + b) == Values(a) + Values(b)
    ensures |Values(a)| == |a|
    decreases |a| + |b|
  {
    if b == [] {
      assert a + b == a;
      if a != [] {
        ValuesSplit(a[..|a| - 1], []);
      }
    } else {
      assert (a + b)[..|a + b| - 1] == a + b[..|b| - 1];
      ValuesSplit(a, b[..|b| - 1]);
    }
  }

  lemma ValuesTogether(a: Dict<IndexKey, Message>, b: Dict<IndexKey, Message>)
    ensures multiset(Values(a + b)) == multiset(Values(a)) + multiset(Values(b))
  {
    ValuesSplit(a, b);
    MultisetOfBoth(Values(a), Values(b));
  }

  type PlaceOrder = ((IndexKey, Message), (IndexKey, Message)) -> bool

  lemma {:induction false} InsertKeepsValues(less: PlaceOrder, x: (IndexKey, Message), d: Dict<IndexKey, Message>)
    ensures multiset(Values(Insert(less, x, d))) == multiset(Values([x])) + multiset(Values(d))
    decreases |d|
  {
    if d != [] && less(d[0], x) {
      InsertKeepsValues(less, x, d[1..]);
      AroundOne(d, 0);
      assert [] + ([d[0]] + d[1..]) == [d[0]] + d[1..];
      ValuesTogether([d[0]], d[1..]);
      ValuesTogether([d[0]], Insert(less, x, d[1..]));
    } else {
      ValuesTogether([x], d);
    }
  }

  lemma {:induction false} SortKeepsValues(less: PlaceOrder, d: Dict<IndexKey, Message>)
    ensures multiset(Values(Sort(less, d))) == multiset(Values(d))
    decreases |d|
  {
    if d != [] {
      SortKeepsValues(less, d[1..]);
      InsertKeepsValues(less, d[0], Sort(less, d[1..]));
      AroundOne(d, 0);
      assert [] + ([d[0]] + d[1..]) == [d[0]] + d[1..];
      ValuesTogether([d[0]], d[1..]);
    }
  }

  /**
    Every collected entry becomes a message of its own if and only if no two keys share pattern and index, as the keys
    ending in 1 and 01 do; otherwise messages are lost, and the later entry of a place is the one emitted.
   */
  lemma {:induction false} EveryEntryBecomesAMessage(m: Patterns, d: Attrs)
    requires AllMatched(m, d)
    ensures |AllMessages(m, d)| <= |d|
    ensures |AllMessages(m, d)| == |d| <==> KeysDistinct(IndexedEntries(m, d, d))
    ensures multiset(AllMessages(m, d)) == multiset(Expected(m, d, d)) <==> KeysDistinct(IndexedEntries(m, d, d))
  {
    var entries := IndexedEntries(m, d, d);
    var placed := PutAll([], entries);
    ExpectedCounts(m, d, d);
    ExpectedSplits(m, d, d);
    PutAllFromEmpty(entries);
    PutAllKeys<IndexKey, Message>([], entries);
    SortKeepsValues(ByIndexKey, placed);
    SortKeepsMembers(ByIndexKey, placed);
    ValuesSplit(Sort(ByIndexKey, placed), []);
    var ms, expected := AllMessages(m, d), Expected(m, d, d);
    assert multiset(ms) == multiset(DirectMessages(m, d)) + multiset(Values(Sort(ByIndexKey, placed)));
    assert |multiset(ms)| == |ms| && |multiset(expected)| == |expected|;
  }

  lemma IndexKeysOrder(d: Dict<IndexKey, Message>)
    ensures Orders(ByIndexKey, d)
  {
    forall a, b | a in d && b in d
      ensures ByIndexKey(a, b) ==> !ByIndexKey(b, a)
    {
      StringLessOrders(a.0.0, b.0.0, "");
    }
    forall a, b, c | a in d && b in d && c in d
      ensures !ByIndexKey(b, a) && !ByIndexKey(c, b) ==> !ByIndexKey(c, a)
    {
      StringLessOrders(a.0.0, b.0.0, c.0.0);
      StringLessOrders(b.0.0, c.0.0, a.0.0);
      StringLessOrders(c.0.0, a.0.0, b.0.0);
    }
  }

  /** Indexed messages come in the order of pattern, then index. */
  lemma IndexedMessagesInOrder(m: Patterns, d: Attrs)
    ensures IsSorted(ByIndexKey, Sort(ByIndexKey, PutAll([], IndexedEntries(m, d, d))))
  {
    IndexKeysOrder(PutAll([], IndexedEntries(m, d, d)));
    SortSorts(ByIndexKey, PutAll([], IndexedEntries(m, d, d)));
  }

  // ---------- Grouping and emission ----------

  /** Messages of the three usual roles go by role; all others, tools among them, by where they came from. */
  predicate IsInput(m: Message) {
    if m.role == Scalar("system") || m.role == Scalar("user") then true
    else if m.role == Scalar("assistant") then false
    else !(Contains(m.source, "completion") || Contains(m.source, "output") || Contains(m.source, "result"))
  }

  predicate IsOutput(m: Message) { !IsInput(m) }

  /** A message as it is emitted. */
  datatype Formatted = Formatted(role: Value, content: Value)

  function Format(ms: seq<Message>): seq<Formatted> {
    if ms == [] then [] else [Formatted(ms[0].role, ms[0].content)] + Format(ms[1..])
  }

  /** The body of a consolidated event. */
  datatype Emission = Emission(input: seq<Formatted>, output: seq<Formatted>)

  function Grouped(ms: seq<Message>): Emission { Emission(Format(Filter(IsInput, ms)), Format(Filter(IsOutput, ms))) }

  function EmissionOf(m: Patterns, collected: Attrs): Option<Emission> {
    var ms := AllMessages(m, collected);
    if ms == [] then None else Some(Grouped(ms))
  }

  lemma {:induction false} FormatSplits(a: seq<Message>, b: seq<Message>)
    ensures Format(a + b) == Format(a) + Format(b) && |Format(a)| == |a|
  {
    if a == [] {
      assert a + b == b;
    } else {
      assert (a + b)[1..] == a[1..] + b;
      FormatSplits(a[1..], b);
      ConcatIsAssociative([Formatted(a[0].role, a[0].content)], Format(a[1..]), Format(b));
    }
  }

  lemma FormatOfOne(x: Message)
    ensures Format([x]) == [Formatted(x.role, x.content)]
  {
    assert |[x][1..]| == 0;
  }

  lemma FormatTogether(a: seq<Message>, b: seq<Message>)
    ensures multiset(Format(a + b)) == multiset(Format(a)) + multiset(Format(b))
  {
    FormatSplits(a, b);
    MultisetOfBoth(Format(a), Format(b));
  }

  /** Taking one occurrence of an element out of both sides. */
  lemma CancelOne<T>(x: T, rest: seq<T>, before: seq<T>, after: seq<T>)
    requires multiset([x] + rest) == multiset(before + ([x] + after))
    ensures multiset(rest) == multiset(before + after)
  {
    MultisetOfBoth([x], rest);
    MultisetOfBoth([x], after);
    MultisetOfBoth(before, [x] + after);
    MultisetOfBoth(before, after);
    assert multiset(rest) == multiset([x]) + multiset(rest) - multiset([x]);
    assert multiset(before) + multiset(after) == multiset(before) + (multiset([x]) + multiset(after)) - multiset([x]);
  }

  /** The same messages in another order are emitted as the same messages. */
  lemma {:induction false} FormatKeepsMembers(a: seq<Message>, b: seq<Message>)
    requires multiset(a) == multiset(b)
    ensures multiset(Format(a)) == multiset(Format(b))
    decreases |a|
  {
    assert |multiset(a)| == |a| && |multiset(b)| == |b|;
    if a != [] {
      var x, rest := a[0], a[1..];
      assert x in multiset(b);
      var k :| 0 <= k < |b| && b[k] == x;
      var before, after := b[..k], b[k + 1..];
      AroundOne(a, 0);
      AroundOne(b, k);
      assert [] + ([x] + rest) == [x] + rest;
      CancelOne(x, rest, before, after);
      FormatKeepsMembers(rest, before + after);
      FormatTogether([x], rest);
      FormatTogether([x], after);
      FormatTogether(before, [x] + after);
      FormatTogether(before, after);
    }
  }

  /** Grouping puts every message in exactly one of the two lists. */
  lemma {:induction false} GroupingPartitions(ms: seq<Message>)
    ensures multiset(Grouped(ms).input) + multiset(Grouped(ms).output) == multiset(Format(ms))
    ensures |Grouped(ms).input| + |Grouped(ms).output| == |ms|
  {
    FilterPartitions(ms);
    var input, output := Filter(IsInput, ms), Filter(IsOutput, ms);
    MultisetOfBoth(input, output);
    FormatKeepsMembers(input + output, ms);
    FormatTogether(input, output);
    FormatSplits(input, output);
    FormatSplits(output, input);
  }

  lemma {:induction false} FilterPartitions(ms: seq<Message>)
    ensures multiset(Filter(IsInput, ms)) + multiset(Filter(IsOutput, ms)) == multiset(ms)
    ensures |Filter(IsInput, ms)| + |Filter(IsOutput, ms)| == |ms|
  {
    if ms != [] {
      FilterPartitions(ms[1..]);
      assert ms == [ms[0]] + ms[1..];
    }
  }

  /** `llo` is the idea of an LLO key that the patterns give. */
  ghost predicate Describes(m: Patterns, llo: string -> bool) { forall key :: llo(key) <==> Matched(m, key) }

  /** No key is matched both directly and by index, and no role key is matched at all. */
  ghost predicate Exclusive(m: Patterns) {
    && (forall key :: m.direct(key).None? || m.indexed(key).None?)
    && forall key :: m.indexed(key).Some? ==> !Matched(m, m.indexed(key).value.roleKey)
  }

  /**
    What a span's emission holds: a message in exactly one list for every collected entry if no two share pattern and
    index, and fewer messages than entries otherwise.  A span emits unless it is clean.
   */
  lemma {:induction false} EmissionHoldsCollected(m: Patterns, llo: string -> bool, s: SpanState)
    requires Describes(m, llo) && Exclusive(m)
    ensures var c, e := Collected(llo, s), EmissionOf(m, Collected(llo, s));
            && (e.None? <==> IsClean(llo, s))
            && (e.Some? && KeysDistinct(IndexedEntries(m, c, c)) ==>
                  multiset(e.value.input) + multiset(e.value.output) == multiset(Format(Expected(m, c, c))))
            && (e.Some? && !KeysDistinct(IndexedEntries(m, c, c)) ==>
                  |e.value.input| + |e.value.output| < |c|)
  {
    var c := Collected(llo, s);
    CollectedIsLlo(llo, s);
    forall i | 0 <= i < |c|
      ensures m.direct(c[i].0).Some? <==> m.indexed(c[i].0).None?
    {
      assert llo(c[i].0);
    }
    EveryEntryBecomesAMessage(m, c);
    GroupingPartitions(AllMessages(m, c));
    ExpectedCounts(m, c, c);
    if KeysDistinct(IndexedEntries(m, c, c)) {
      FormatKeepsMembers(AllMessages(m, c), Expected(m, c, c));
    }
    if AllMessages(m, c) == [] {
      NoMessagesNoEntries(m, c);
    }
  }

  lemma NoMessagesNoEntries(m: Patterns, d: Attrs)
    requires AllMatched(m, d) && AllMessages(m, d) == []
    ensures d == []
  {
    var entries := IndexedEntries(m, d, d);
    ExpectedCounts(m, d, d);
    SortKeepsMembers(ByIndexKey, PutAll([], entries));
    ValuesSplit(Sort(ByIndexKey, PutAll([], entries)), []);
    PutAllKeys<IndexKey, Message>([], entries);
    assert entries != [] ==> HasKey(entries, entries[0].0);
  }

  /** Role attributes of a span are never consulted: a collected dictionary holds no role key. */
  lemma RolesAreDefaults(m: Patterns, llo: string -> bool, s: SpanState, content: Value, key: string)
    requires Describes(m, llo) && Exclusive(m) && m.indexed(key).Some?
    ensures var hit := m.indexed(key).value;
            IndexedMessage(Collected(llo, s), content, hit) == Message(content, Scalar(hit.defaultRole), hit.source)
  {
    CollectedIsLlo(llo, s);
    LookupMisses(Collected(llo, s), m.indexed(key).value.roleKey, llo);
  }

  lemma {:induction false} LookupMisses(d: Attrs, key: string, llo: string -> bool)
    requires !llo(key) && forall i | 0 <= i < |d| :: llo(d[i].0)
    ensures Lookup(d, key).None?
  {
    if d != [] {
      assert llo(d[0].0);
      forall i | 0 <= i < |d[1..]|
        ensures llo(d[1..][i].0)
      {
        assert d[1..][i] == d[i + 1];
      }
      LookupMisses(d[1..], key, llo);
    }
  }

  /** A second pass over a processed span collects nothing, emits nothing and changes nothing. */
  lemma SecondPassDoesNothing(m: Patterns, llo: string -> bool, s: SpanState)
    requires Describes(m, llo) && Exclusive(m)
    ensures Cleaned(llo, Cleaned(llo, s)) == Cleaned(llo, s)
    ensures Collected(llo, Cleaned(llo, s)) == [] && EmissionOf(m, Collected(llo, Cleaned(llo, s))).None?
  {
    CleaningCleans(llo, s);
    CollectedIsLlo(llo, Cleaned(llo, s));
    EmissionHoldsCollected(m, llo, Cleaned(llo, s));
  }

  // ---------- The registry in use ----------

  function DirectOf(reg: Registry, key: string): Option<Direct> {
    if key in reg.direct then Some(reg.direct[key]) else None
  }

  function HitOf(reg: Registry, key: string): Option<Hit> {
    var i := FirstIndexed(reg.indexed, key);
    if i == |reg.indexed| then None
    else
      var p, index := reg.indexed[i], IndexIn(reg.indexed[i], key).value;
      var roleKey := p.prefix + Decimal(index) + p.roleSuffix;
      Some(Hit(p.prefix + "{index}" + p.suffix, index, roleKey, p.defaultRole, p.source))
  }

  /** The patterns of a registry, as functions of keys. */
  ghost predicate PatternsFor(reg: Registry, m: Patterns) {
    forall key {:trigger DirectOf(reg, key)} {:trigger HitOf(reg, key)} ::
      m.direct(key) == DirectOf(reg, key) && m.indexed(key) == HitOf(reg, key)
  }

  /** A pattern with an index written into it. */
  function FillIn(pattern: string, index: nat): string {
    if pattern == "" then ""
    else if "{index}" <= pattern then Decimal(index) + pattern[7..]
    else [pattern[0]] + FillIn(pattern[1..], index)
  }

  /** An indexed key is canonical if it is its pattern with its index written in: no leading zeros, no final newline. */
  ghost predicate Canonical(m: Patterns, d: Attrs) {
    forall i | 0 <= i < |d| && m.indexed(d[i].0).Some? ::
      d[i].0 == FillIn(m.indexed(d[i].0).value.pattern, m.indexed(d[i].0).value.index)
  }

  /** Canonical keys never share pattern and index, so each of them becomes a message of its own. */
  lemma {:induction false} CanonicalKeysAreDistinct(m: Patterns, d: Attrs, part: Attrs)
    requires KeysDistinct(part) && Canonical(m, part)
    ensures var entries := IndexedEntries(m, d, part);
            && KeysDistinct(entries)
            && forall j | 0 <= j < |entries| :: HasKey(part, FillIn(entries[j].0.0, entries[j].0.1))
  {
    if part != [] {
      var init := part[..|part| - 1];
      CanonicalKeysAreDistinct(m, d, init);
      var before, entries := IndexedEntries(m, d, init), IndexedEntries(m, d, part);
      assert forall key :: HasKey(init, key) ==> HasKey(part, key);
      assert !HasKey(init, part[|part| - 1].0) && HasKey(part, part[|part| - 1].0);
      assert forall j | 0 <= j < |before| :: HasKey(init, FillIn(before[j].0.0, before[j].0.1));
    }
  }

  lemma CollectedMatchesOnce(m: Patterns, llo: string -> bool, d: Attrs)
    requires Describes(m, llo) && Exclusive(m) && forall i | 0 <= i < |d| :: llo(d[i].0)
    ensures AllMatched(m, d)
  {
    forall i | 0 <= i < |d|
      ensures m.direct(d[i].0).Some? <==> m.indexed(d[i].0).None?
    {
      assert llo(d[i].0);
    }
  }

  /** With canonical keys every collected entry is emitted as a message of its own, in exactly one of the two lists. */
  lemma CanonicalKeysEmitAllCollected(m: Patterns, llo: string -> bool, s: SpanState)
    requires Describes(m, llo) && Exclusive(m) && Canonical(m, Collected(llo, s))
    ensures var c, e := Collected(llo, s), EmissionOf(m, Collected(llo, s));
            && |Expected(m, c, c)| == |c|
            && (e.None? ==> c == [])
            && (e.Some? ==> multiset(e.value.input) + multiset(e.value.output) == multiset(Format(Expected(m, c, c))))
  {
    var c := Collected(llo, s);
    CollectedIsLlo(llo, s);
    CanonicalKeysAreDistinct(m, c, c);
    EmissionHoldsCollected(m, llo, s);
    CollectedMatchesOnce(m, llo, c);
    ExpectedCounts(m, c, c);
  }

  /** How many messages an emission has. */
  function EmittedCount(e: Option<Emission>): nat { if e.None? then 0 else |e.value.input| + |e.value.output| }

  lemma EmittedCountIsMessages(m: Patterns, d: Attrs)
    ensures EmittedCount(EmissionOf(m, d)) == |AllMessages(m, d)|
  {
    GroupingPartitions(AllMessages(m, d));
  }

  /** No two LLO entries of a span share a key, and no two indexed ones a place. */
  ghost predicate NothingCollides(m: Patterns, all: Attrs) {
    KeysDistinct(all) && KeysDistinct(IndexedEntries(m, all, all))
  }

  /**
    From span to emission: everything LLO in a span is emitted, each entry as a message of its own in one of the two
    lists, if and only if nothing collides; otherwise fewer messages than entries are emitted.
   */
  lemma {:induction false} SpanEmitsEverythingExactly(m: Patterns, llo: string -> bool, s: SpanState)
    requires Describes(m, llo) && Exclusive(m)
    ensures var all, e := LloContent(llo, s), EmissionOf(m, Collected(llo, s));
            && EmittedCount(e) <= |all|
            && (EmittedCount(e) == |all| <==> NothingCollides(m, all))
            && (NothingCollides(m, all) && e.Some? ==>
                  multiset(e.value.input) + multiset(e.value.output) == multiset(Format(Expected(m, all, all))))
  {
    var all, c := LloContent(llo, s), Collected(llo, s);
    CollectedIsLlo(llo, s);
    CollectedMatchesOnce(m, llo, c);
    PutAllFromEmpty(all);
    PutAllKeys<string, Value>([], all);
    EveryEntryBecomesAMessage(m, c);
    EmittedCountIsMessages(m, c);
    EmissionHoldsCollected(m, llo, s);
  }

  /** Entries are collected without loss if and only if no two share a key. */
  lemma CollectedWithoutLossExactly(llo: string -> bool, s: SpanState)
    ensures |Collected(llo, s)| <= |LloContent(llo, s)|
    ensures |Collected(llo, s)| == |LloContent(llo, s)| <==> KeysDistinct(LloContent(llo, s))
  {
    PutAllFromEmpty(LloContent(llo, s));
    PutAllKeys<string, Value>([], LloContent(llo, s));
  }

  lemma TwoEvents(llo: string -> bool, first: Event, second: Event)
    ensures EventEntries(llo, [first, second]) == EventEntry(llo, first) + EventEntry(llo, second)
    ensures KeptEvents(llo, [first, second]) == KeptEvent(llo, first) + KeptEvent(llo, second)
  {
    var both, one := [first, second], [first];
    assert both[..1] == one && one[..0] == [];
    assert EventEntries(llo, one) == [] + EventEntry(llo, first) && KeptEvents(llo, one) == [] + KeptEvent(llo, first);
  }

  lemma WholeEventEntry(llo: string -> bool, e: Event)
    requires llo(e.name) && NoLloKeys(llo, e.attributes)
    ensures EventEntry(llo, e) == [(e.name, Attributes(e.attributes))] && KeptEvent(llo, e) == []
  {
    EntriesAreLlo(llo, e.attributes);
    assert [(e.name, Attributes(e.attributes))] + LloEntries(llo, e.attributes) == [(e.name, Attributes(e.attributes))];
  }

  lemma SecondReplacesFirst(key: string, first: Value, second: Value)
    ensures PutAll([], [(key, first), (key, second)]) == [(key, second)]
  {
    var both, one: Attrs := [(key, first), (key, second)], [(key, first)];
    assert both[..1] == one && one[..0] == [];
    assert PutAll([], one) == Put(PutAll([], one[..0]), key, first) == [(key, first)];
  }

  /** Of two events of one LLO name in a span, such as two user messages, both go and only the last is collected. */
  lemma SameNameLosesTheFirst(llo: string -> bool, first: Event, second: Event)
    requires first.name == second.name && llo(first.name)
    requires NoLloKeys(llo, first.attributes) && NoLloKeys(llo, second.attributes)
    ensures var s := SpanState(None, [first, second]);
            && Cleaned(llo, s).events == [] && |LloContent(llo, s)| == 2
            && Collected(llo, s) == [(second.name, Attributes(second.attributes))]
  {
    TwoEvents(llo, first, second);
    WholeEventEntry(llo, first);
    WholeEventEntry(llo, second);
    var all: Attrs := [(first.name, Attributes(first.attributes)), (first.name, Attributes(second.attributes))];
    assert LloContent(llo, SpanState(None, [first, second])) == [] + all == all;
    SecondReplacesFirst(first.name, Attributes(first.attributes), Attributes(second.attributes));
  }

  /** So with the registered patterns, of two user messages in a span only the second is collected. */
  lemma TwoUserMessagesLoseTheFirst(first: Event, second: Event)
    requires first.name == "gen_ai.user.message" == second.name
    requires NoLloKeys(LloKey, first.attributes) && NoLloKeys(LloKey, second.attributes)
    ensures var s := SpanState(None, [first, second]);
            && Cleaned(LloKey, s).events == [] && |LloContent(LloKey, s)| == 2
            && Collected(LloKey, s) == [(second.name, Attributes(second.attributes))]
  {
    assert "gen_ai.user.message" in DIRECT_PATTERNS;
    SameNameLosesTheFirst(LloKey, first, second);
  }

  /** Two entries of one place become one message. */
  lemma SharedPlaceLosesAMessage(m: Patterns, a: (string, Value), b: (string, Value))
    requires m.direct(a.0).None? && m.direct(b.0).None? && m.indexed(a.0).Some? && m.indexed(b.0).Some?
    requires m.indexed(a.0).value.pattern == m.indexed(b.0).value.pattern
    requires m.indexed(a.0).value.index == m.indexed(b.0).value.index
    ensures |AllMessages(m, [a, b])| == 1
  {
    var d := [a, b];
    var one := d[..1];
    assert one == [a] && |one[..0]| == 0;
    var entries := IndexedEntries(m, d, d);
    assert IndexedEntries(m, d, one) == [entries[0]];
    assert entries[0].0 == entries[1].0;
    EveryEntryBecomesAMessage(m, d);
    if AllMessages(m, d) == [] {
      NoMessagesNoEntries(m, d);
    }
  }

  /** A pattern matches its own keys, with the number their digits spell. */
  lemma {:induction false} KeyHits(p: Indexed, digits: string)
    requires p.suffix != "" && p.suffix[|p.suffix| - 1] != '\n'
    requires digits != "" && forall i | 0 <= i < |digits| :: IsDigit(digits[i])
    ensures IndexIn(p, p.prefix + digits + p.suffix) == Some(ParseDigits(digits))
  {
    var key := p.prefix + digits + p.suffix;
    ThreeParts(p.prefix, digits, p.suffix);
    assert key[|key| - 1] == p.suffix[|p.suffix| - 1];
  }

  lemma FirstPatternHits(indexed: seq<Indexed>, key: string)
    requires indexed != [] && IndexIn(indexed[0], key).Some?
    ensures FirstIndexed(indexed, key) == 0
  {
  }

  function PromptKey(digits: string): string { "gen_ai.prompt." + digits + ".content" }

  lemma PromptKeyHits(digits: string)
    requires AllDigits(digits)
    ensures FirstIndexed(INDEXED_PATTERNS, PromptKey(digits)) == 0
    ensures IndexIn(INDEXED_PATTERNS[0], PromptKey(digits)) == Some(ParseDigits(digits))
  {
    var first := INDEXED_PATTERNS[0];
    assert PromptKey(digits) == first.prefix + digits + first.suffix;
    KeyHits(first, digits);
    FirstPatternHits(INDEXED_PATTERNS, PromptKey(digits));
  }

  /** Keys whose digits spell the same number share a place. */
  lemma SameNumberSharesAPlace(a: string, b: string)
    requires AllDigits(a) && AllDigits(b) && ParseDigits(a) == ParseDigits(b)
    ensures HitOf(LLO_PATTERNS, PromptKey(a)).Some?
    ensures HitOf(LLO_PATTERNS, PromptKey(b)) == HitOf(LLO_PATTERNS, PromptKey(a))
  {
    PromptKeyHits(a);
    PromptKeyHits(b);
  }

  /** The keys ending in 1 and 01 do share a place. */
  lemma {:induction false} OneAndZeroOneShareAPlace()
    ensures PromptKey("1") != PromptKey("01") && HitOf(LLO_PATTERNS, PromptKey("1")).Some?
    ensures HitOf(LLO_PATTERNS, PromptKey("01")) == HitOf(LLO_PATTERNS, PromptKey("1"))
  {
    assert |PromptKey("1")| != |PromptKey("01")|;
    assert ParseDigits("1") == 1 && ParseDigits("01") == 1;
    SameNumberSharesAPlace("1", "01");
  }

  lemma EndsWithEndOf(s: string, t: string, u: string)
    requires EndsWith(s, t) && EndsWith(t, u)
    ensures EndsWith(s, u)
  {
    assert s[|s| - |t|..][|t| - |u|..] == s[|s| - |u|..];
  }

  /** Every indexed key ends like the word content, give or take a newline. */
  lemma IndexedKeysEndInContent(key: string)
    requires FirstIndexed(INDEXED_PATTERNS, key) < |INDEXED_PATTERNS|
    ensures EndsWith(Chomp(key), "ent")
  {
    var p := INDEXED_PATTERNS[FirstIndexed(INDEXED_PATTERNS, key)];
    assert p.suffix == ".content" || p.suffix == ".message.content";
    assert EndsWith(p.suffix, "ent");
    EndsWithEndOf(Chomp(key), p.suffix, "ent");
  }

  lemma DirectKeysEndOtherwise(key: string)
    requires key in DIRECT_PATTERNS
    ensures |key| >= 3 && key[|key| - 1] != '\n' && key[|key| - 3..] != "ent" && key[|key| - 2..] != "le"
  {
  }

  lemma {:induction false} RoleKeysEndInRole(i: nat, index: nat)
    requires i < |INDEXED_PATTERNS|
    ensures var p := INDEXED_PATTERNS[i];
            var key := p.prefix + Decimal(index) + p.roleSuffix;
            |key| >= 3 && key[|key| - 1] == 'e' && key[|key| - 2..] == "le"
  {
    var p := INDEXED_PATTERNS[i];
    assert |p.roleSuffix| >= 5 && p.roleSuffix[|p.roleSuffix| - 2..] == "le";
  }

  lemma KeyIsExclusive(key: string)
    ensures DirectOf(LLO_PATTERNS, key).None? || HitOf(LLO_PATTERNS, key).None?
  {
    if key in DIRECT_PATTERNS && HitOf(LLO_PATTERNS, key).Some? {
      DirectKeysEndOtherwise(key);
      IndexedKeysEndInContent(key);
    }
  }

  lemma {:induction false} RoleKeyIsUnmatched(i: nat, index: nat)
    requires i < |INDEXED_PATTERNS|
    ensures var key := INDEXED_PATTERNS[i].prefix + Decimal(index) + INDEXED_PATTERNS[i].roleSuffix;
            DirectOf(LLO_PATTERNS, key).None? && HitOf(LLO_PATTERNS, key).None?
  {
    var key := INDEXED_PATTERNS[i].prefix + Decimal(index) + INDEXED_PATTERNS[i].roleSuffix;
    RoleKeysEndInRole(i, index);
    if key in DIRECT_PATTERNS {
      DirectKeysEndOtherwise(key);
    }
    if HitOf(LLO_PATTERNS, key).Some? {
      IndexedKeysEndInContent(key);
    }
  }

  /** The registry in use matches no key in two ways, and no role key at all. */
  lemma RegistryIsExclusive(m: Patterns)
    requires PatternsFor(LLO_PATTERNS, m)
    ensures Exclusive(m)
  {
    forall key
      ensures m.direct(key).None? || m.indexed(key).None?
    {
      assert m.direct(key) == DirectOf(LLO_PATTERNS, key) && m.indexed(key) == HitOf(LLO_PATTERNS, key);
      KeyIsExclusive(key);
    }
    forall key | m.indexed(key).Some?
      ensures !Matched(m, m.indexed(key).value.roleKey)
    {
      assert m.indexed(key) == HitOf(LLO_PATTERNS, key);
      var roleKey := m.indexed(key).value.roleKey;
      RoleKeyIsUnmatched(FirstIndexed(INDEXED_PATTERNS, key), m.indexed(key).value.index);
      assert m.direct(roleKey) == DirectOf(LLO_PATTERNS, roleKey) && m.indexed(roleKey) == HitOf(LLO_PATTERNS, roleKey);
    }
  }

  // ---------- The handler ----------

  ghost predicate LloFor(reg: Registry, llo: string -> bool) {
    forall key {:trigger IsLlo(reg, key)} :: llo(key) <==> IsLlo(reg, key)
  }

  class Span {
    var attributes: Option<Attrs>
    var events: seq<Event>

    function View(): SpanState
      reads this
    {
      SpanState(attributes, events)
    }

    constructor (attributes: Option<Attrs>, events: seq<Event>)
      ensures View() == SpanState(attributes, events)
    {
      this.attributes, this.events := attributes, events;
    }
  }

  method IsLloAttribute(reg: Registry, key: string, ghost llo: string -> bool) returns (matched: bool)
    requires LloFor(reg, llo)
    ensures matched == llo(key)
  {
    assert llo(key) <==> IsLlo(reg, key);
    if key in reg.direct {
      return true;
    }
    for i := 0 to |reg.indexed|
      invariant forall j | 0 <= j < i :: IndexIn(reg.indexed[j], key).None?
    {
      if IndexIn(reg.indexed[i], key).Some? {
        return true;
      }
    }
    return false;
  }

  method FilterAttributes(reg: Registry, attributes: Attrs, ghost llo: string -> bool) returns (filtered: Attrs)
    requires LloFor(reg, llo)
    ensures filtered == Kept(llo, attributes)
  {
    var hasLloAttrs := false;
    for i := 0 to |attributes|
      invariant !hasLloAttrs && forall j | 0 <= j < i :: !llo(attributes[j].0)
    {
      hasLloAttrs := IsLloAttribute(reg, attributes[i].0, llo);
      if hasLloAttrs {
        break;
      }
    }
    if !hasLloAttrs {
      KeptHasNoLloKeys(llo, attributes);
      return attributes;
    }
    filtered := [];
    for i := 0 to |attributes|
      invariant filtered == Kept(llo, attributes[..i])
    {
      assert attributes[..i + 1][..i] == attributes[..i];
      var matched := IsLloAttribute(reg, attributes[i].0, llo);
      if !matched {
        filtered := filtered + [attributes[i]];
      }
    }
    assert attributes[..|attributes|] == attributes;
  }

  lemma PutOneMore(seen: Attrs, entries: Attrs, entry: (string, Value))
    ensures PutAll([], seen + (entries + [entry])) == Put(PutAll([], seen + entries), entry.0, entry.1)
  {
    var all := seen + (entries + [entry]);
    assert all[..|all| - 1] == seen + entries && all[|all| - 1] == entry;
  }

  method CollectLloEntries(reg: Registry, acc: Attrs, attributes: Attrs, ghost llo: string -> bool, ghost seen: Attrs)
    returns (acc': Attrs)
    requires LloFor(reg, llo) && acc == PutAll([], seen)
    ensures acc' == PutAll([], seen + LloEntries(llo, attributes))
  {
    acc' := acc;
    assert seen + [] == seen;
    for i := 0 to |attributes|
      invariant acc' == PutAll([], seen + LloEntries(llo, attributes[..i]))
    {
      assert attributes[..i + 1][..i] == attributes[..i];
      ghost var before := LloEntries(llo, attributes[..i]);
      var matched := IsLloAttribute(reg, attributes[i].0, llo);
      if matched {
        PutOneMore(seen, before, attributes[i]);
        acc' := Put(acc', attributes[i].0, attributes[i].1);
      } else {
        assert before + [] == before;
      }
    }
    assert attributes[..|attributes|] == attributes;
  }

  method CollectEvent(reg: Registry, acc: Attrs, event: Event, ghost llo: string -> bool, ghost seen: Attrs)
    returns (acc': Attrs)
    requires LloFor(reg, llo) && acc == PutAll([], seen)
    ensures acc' == PutAll([], seen + EventEntry(llo, event))
  {
    acc' := acc;
    ghost var whole: Attrs := [];
    assert seen + [] == seen;
    var matched := IsLloAttribute(reg, event.name, llo);
    if matched {
      PutOneMore(seen, [], (event.name, Attributes(event.attributes)));
      whole := [(event.name, Attributes(event.attributes))];
      assert [] + whole == whole;
      acc' := Put(acc', event.name, Attributes(event.attributes));
    }
    acc' := CollectLloEntries(reg, acc', event.attributes, llo, seen + whole);
    assert seen + whole + LloEntries(llo, event.attributes) == seen + EventEntry(llo, event);
  }

  method CollectLloAttributesFromSpan(reg: Registry, span: Span, ghost llo: string -> bool) returns (collected: Attrs)
    requires LloFor(reg, llo)
    ensures collected == Collected(llo, span.View())
  {
    ghost var own := LloEntries(llo, span.attributes.GetOr([]));
    collected := CollectLloEntries(reg, [], span.attributes.GetOr([]), llo, []);
    assert [] + own == own && own + [] == own;
    for i := 0 to |span.events|
      invariant collected == PutAll([], own + EventEntries(llo, span.events[..i]))
    {
      assert span.events[..i + 1][..i] == span.events[..i];
      ghost var before := EventEntries(llo, span.events[..i]);
      collected := CollectEvent(reg, collected, span.events[i], llo, own + before);
      ConcatIsAssociative(own, before, EventEntry(llo, span.events[i]));
    }
    assert span.events[..|span.events|] == span.events;
  }

  method CollectAllLloMessages(reg: Registry, attributes: Attrs, ghost m: Patterns) returns (messages: seq<Message>)
    requires PatternsFor(reg, m)
    ensures messages == AllMessages(m, attributes)
  {
    messages := [];
    for i := 0 to |attributes|
      invariant messages == DirectMessages(m, attributes[..i])
    {
      assert attributes[..i + 1][..i] == attributes[..i];
      var key, value := attributes[i].0, attributes[i].1;
      assert m.direct(key) == DirectOf(reg, key);
      if key in reg.direct {
        var config := reg.direct[key];
        messages := messages + [Message(value, Scalar(config.role), config.source)];
      }
    }
    assert attributes[..|attributes|] == attributes;
    var indexed := CollectIndexedMessages(reg, attributes, m);
    messages := messages + indexed;
  }

  method CollectIndexedMessages(reg: Registry, attributes: Attrs, ghost m: Patterns) returns (messages: seq<Message>)
    requires PatternsFor(reg, m)
    ensures messages == IndexedMessages(m, attributes)
  {
    var indexed: Dict<IndexKey, Message> := [];
    for i := 0 to |attributes|
      invariant indexed == PutAll([], IndexedEntries(m, attributes, attributes[..i]))
    {
      assert attributes[..i + 1][..i] == attributes[..i];
      var key, value := attributes[i].0, attributes[i].1;
      assert m.indexed(key) == HitOf(reg, key);
      ghost var before := IndexedEntries(m, attributes, attributes[..i]);
      for j := 0 to |reg.indexed|
        invariant forall k | 0 <= k < j :: IndexIn(reg.indexed[k], key).None?
        invariant indexed == PutAll([], before)
      {
        var p := reg.indexed[j];
        var found := IndexIn(p, key);
        if found.Some? {
          var roleKey := p.prefix + Decimal(found.value) + p.roleSuffix;
          var role := Lookup(attributes, roleKey).GetOr(Scalar(p.defaultRole));
          var place := (p.prefix + "{index}" + p.suffix, found.value);
          assert FirstIndexed(reg.indexed, key) == j;
          assert (before + [(place, Message(value, role, p.source))])[..|before|] == before;
          indexed := Put(indexed, place, Message(value, role, p.source));
          break;
        }
      }
    }
    assert attributes[..|attributes|] == attributes;
    messages := Values(Sort(ByIndexKey, indexed));
  }

  lemma {:induction false} FormatStep(keep: Message -> bool, before: seq<Formatted>, ms: seq<Message>, i: nat)
    requires i < |ms|
    ensures (if keep(ms[i]) then before + [Formatted(ms[i].role, ms[i].content)] else before)
            + Format(Filter(keep, ms[i + 1..])) == before + Format(Filter(keep, ms[i..]))
  {
    var x, rest := ms[i], Filter(keep, ms[i + 1..]);
    assert ms[i..][1..] == ms[i + 1..];
    FormatOfOne(x);
    FormatSplits([x], rest);
    assert [] + rest == rest;
    ConcatIsAssociative(before, Format([x]), Format(rest));
  }

  method GroupMessagesByType(messages: seq<Message>) returns (grouped: Emission)
    ensures grouped == Grouped(messages)
  {
    var input, output := [], [];
    TakeAll(messages);
    assert messages[0..] == messages;
    for i := 0 to |messages|
      invariant input + Format(Filter(IsInput, messages[i..])) == Format(Filter(IsInput, messages))
      invariant output + Format(Filter(IsOutput, messages[i..])) == Format(Filter(IsOutput, messages))
    {
      FormatStep(IsInput, input, messages, i);
      FormatStep(IsOutput, output, messages, i);
      var message := messages[i];
      var formatted := Formatted(message.role, message.content);
      if message.role == Scalar("system") || message.role == Scalar("user") {
        input := input + [formatted];
      } else if message.role == Scalar("assistant") {
        output := output + [formatted];
      } else if Contains(message.source, "completion") || Contains(message.source, "output")
             || Contains(message.source, "result") {
        output := output + [formatted];
      } else {
        input := input + [formatted];
      }
    }
    grouped := Emission(input, output);
  }

  method FilterSpanEvents(reg: Registry, span: Span, ghost llo: string -> bool)
    requires LloFor(reg, llo)
    modifies span`events
    ensures span.events == KeptEvents(llo, old(span.events))
  {
    if span.events == [] {
      return;
    }
    var events, updated := span.events, [];
    for i := 0 to |events|
      invariant updated == KeptEvents(llo, events[..i])
    {
      assert events[..i + 1][..i] == events[..i];
      var kept := FilterEvent(reg, events[i], llo);
      updated := updated + kept;
    }
    assert events[..|events|] == events;
    span.events := updated;
  }

  method FilterEvent(reg: Registry, event: Event, ghost llo: string -> bool) returns (kept: seq<Event>)
    requires LloFor(reg, llo)
    ensures kept == KeptEvent(llo, event)
  {
    var matched := IsLloAttribute(reg, event.name, llo);
    if matched {
      return [];
    }
    if event.attributes == [] {
      return [event];
    }
    var filtered := FilterAttributes(reg, event.attributes, llo);
    KeptHasNoLloKeys(llo, event.attributes);
    kept := if |filtered| != |event.attributes| then [Event(event.name, filtered, event.timestamp)] else [event];
  }

  ghost function Views(spans: seq<Span>): (views: seq<SpanState>)
    reads spans
    ensures |views| == |spans|
    ensures forall i | 0 <= i < |spans| :: views[i] == spans[i].View()
  {
    seq(|spans|, i requires 0 <= i < |spans| reads spans => spans[i].View())
  }

  function Emitted(e: Option<Emission>): seq<Emission> { if e.Some? then [e.value] else [] }

  lemma {:induction false} NoLloNoMessages(m: Patterns, llo: string -> bool, d: Attrs, part: Attrs)
    requires Describes(m, llo) && NoLloKeys(llo, part)
    ensures DirectMessages(m, part) == [] && IndexedEntries(m, d, part) == []
  {
    if part != [] {
      NoLloNoMessages(m, llo, d, part[..|part| - 1]);
      assert !llo(part[|part| - 1].0);
    }
  }

  /** The key test and the patterns of the registry in use. */
  predicate LloKey(key: string) { IsLlo(LLO_PATTERNS, key) }

  function DirectKey(key: string): Option<Direct> { DirectOf(LLO_PATTERNS, key) }

  function IndexedKey(key: string): Option<Hit> { HitOf(LLO_PATTERNS, key) }

  ghost const PATTERNS := Patterns(DirectKey, IndexedKey)

  lemma RegistryDescribes()
    ensures LloFor(LLO_PATTERNS, LloKey) && PatternsFor(LLO_PATTERNS, PATTERNS)
    ensures Describes(PATTERNS, LloKey) && Exclusive(PATTERNS)
  {
    RegistryIsExclusive(PATTERNS);
    forall key
      ensures LloKey(key) <==> Matched(PATTERNS, key)
    {
      assert PATTERNS.direct(key) == DirectOf(LLO_PATTERNS, key) && PATTERNS.indexed(key) == HitOf(LLO_PATTERNS, key);
    }
  }

  class Handler {
    const registry: Registry
    ghost const llo: string -> bool
    ghost const m: Patterns
    var emitted: seq<Emission>

    ghost predicate Valid() {
      LloFor(registry, llo) && PatternsFor(registry, m) && Describes(m, llo) && Exclusive(m)
    }

    constructor ()
      ensures Valid() && registry == LLO_PATTERNS && llo == LloKey && m == PATTERNS && emitted == []
    {
      registry, llo, m, emitted := LLO_PATTERNS, LloKey, PATTERNS, [];
      new;
      RegistryDescribes();
    }

    method EmitLloAttributes(attributes: Attrs)
      requires Valid()
      modifies this
      ensures emitted == old(emitted) + Emitted(EmissionOf(m, attributes))
    {
      var hasLloAttrs := false;
      for i := 0 to |attributes|
        invariant emitted == old(emitted)
        invariant !hasLloAttrs && forall j | 0 <= j < i :: !llo(attributes[j].0)
      {
        hasLloAttrs := IsLloAttribute(registry, attributes[i].0, llo);
        if hasLloAttrs {
          break;
        }
      }
      if !hasLloAttrs {
        NoLloNoMessages(m, llo, attributes, attributes);
        return;
      }
      var messages := CollectAllLloMessages(registry, attributes, m);
      if messages == [] {
        return;
      }
      var grouped := GroupMessagesByType(messages);
      emitted := emitted + [grouped];
    }

    ghost function Clean(): SpanState -> SpanState { s => Cleaned(llo, s) }

    ghost function Emit(): SpanState -> seq<Emission> { s => Emitted(EmissionOf(m, Collected(llo, s))) }

    lemma SecondPass(s: SpanState)
      requires Valid()
      ensures Clean()(Clean()(s)) == Clean()(s) && Emit()(Clean()(s)) == []
    {
      SecondPassDoesNothing(m, llo, s);
    }

    method ProcessSpan(span: Span)
      requires Valid()
      modifies this, span
      ensures span.View() == Clean()(old(span.View()))
      ensures emitted == old(emitted) + Emit()(old(span.View()))
    {
      var attributes := CollectLloAttributesFromSpan(registry, span, llo);
      if attributes != [] {
        EmitLloAttributes(attributes);
      }
      if span.attributes.Some? {
        var filtered := FilterAttributes(registry, span.attributes.value, llo);
        span.attributes := Some(filtered);
      }
      FilterSpanEvents(registry, span, llo);
    }

    method ProcessSpanAt(spans: seq<Span>, n: nat, ghost views: seq<SpanState>)
      requires Valid() && n < |spans| == |views| && SameItemSameView(spans, views)
      requires Views(spans) == After(Clean(), spans, views, n)
      modifies this, spans
      ensures Views(spans) == After(Clean(), spans, views, n + 1)
      ensures emitted == old(emitted) + Emit()(After(Clean(), spans, views, n)[n])
      ensures Output(Emit(), spans[..n + 1], views[..n + 1])
           == Output(Emit(), spans[..n], views[..n]) + Emit()(After(Clean(), spans, views, n)[n])
    {
      ghost var before := Views(spans);
      SecondPass(views[n]);
      ProcessSpan(spans[n]);
      OneMore(Clean(), spans, views, before, Views(spans), n);
      OneMoreOutput(Clean(), Emit(), spans, views, n);
    }

    /** Each span is cleaned, and its LLO content is emitted once, even if the same span comes twice. */
    method ProcessSpans(spans: seq<Span>) returns (modified: seq<Span>)
      requires Valid()
      modifies this, spans
      ensures modified == spans
      ensures Views(spans) == After(Clean(), spans, old(Views(spans)), |spans|)
      ensures emitted == old(emitted) + Output(Emit(), spans, old(Views(spans)))
    {
      ghost var views := Views(spans);
      modified := [];
      for i := 0 to |spans|
        invariant modified == spans[..i]
        invariant Views(spans) == After(Clean(), spans, views, i)
        invariant emitted == old(emitted) + Output(Emit(), spans[..i], views[..i])
      {
        ConcatIsAssociative(old(emitted), Output(Emit(), spans[..i], views[..i]),
                            Emit()(After(Clean(), spans, views, i)[i]));
        TakeOneMore(spans, i);
        ProcessSpanAt(spans, i, views);
        modified := modified + [spans[i]];
      }
      TakeAll(spans);
      TakeAll(views);
    }
  }
}
