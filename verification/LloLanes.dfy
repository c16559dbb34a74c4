/** Which list each piece of generative-AI content is emitted in, and with which role. */
module LloLanes {
  import opened Wrappers
  import opened Sequences
  import opened Sorting
  import opened OrderedDict
  import opened LloHandler

  // ---------- Grouping ----------

  predicate OccursAt(s: string, part: string, k: nat) { k + |part| <= |s| && s[k..k + |part|] == part }

  lemma {:induction false} ContainsExactly(s: string, part: string)
    ensures Contains(s, part) <==> exists k: nat :: OccursAt(s, part, k)
  {
    assert OccursAt(s, part, 0) <==> part <= s;
    if s != "" {
      ContainsExactly(s[1..], part);
      forall k: nat
        ensures OccursAt(s, part, k + 1) <==> OccursAt(s[1..], part, k)
      {
        if k + 1 + |part| <= |s| {
          assert s[1..][k..k + |part|] == s[k + 1..k + 1 + |part|];
        }
      }
      if k: nat :| OccursAt(s[1..], part, k) {
        assert OccursAt(s, part, k + 1);
      }
      if k: nat :| OccursAt(s, part, k) {
        if k > 0 {
          var j: nat := k - 1;
          assert OccursAt(s, part, j + 1) && OccursAt(s[1..], part, j);
        }
      }
    }
  }

  /** Assistants' messages are output, systems' and users' are not, and others are by the word their source holds. */
  ghost predicate IsAnswer(m: Message) {
    if m.role == Scalar("assistant") then true
    else if m.role == Scalar("system") || m.role == Scalar("user") then false
    else exists word, k: nat :: word in {"completion", "output", "result"} && OccursAt(m.source, word, k)
  }

  lemma AnswersAreOutput(m: Message)
    ensures IsOutput(m) <==> IsAnswer(m)
  {
    ContainsExactly(m.source, "completion");
    ContainsExactly(m.source, "output");
    ContainsExactly(m.source, "result");
  }

  lemma {:induction false} FilterMembers<T>(keep: T -> bool, s: seq<T>)
    ensures forall x :: x in Filter(keep, s) <==> x in s && keep(x)
  {
    if s != [] {
      FilterMembers(keep, s[1..]);
    }
  }

  lemma {:induction false} FormattedComesFrom(ms: seq<Message>, f: Formatted)
    requires f in Format(ms)
    ensures exists m :: m in ms && f == Formatted(m.role, m.content)
  {
    if f != Format(ms)[0] {
      FormattedComesFrom(ms[1..], f);
      var m :| m in ms[1..] && f == Formatted(m.role, m.content);
      assert m in ms;
    } else {
      assert ms[0] in ms;
    }
  }

  /** No system or user message is emitted as output, and no assistant message as input. */
  lemma RolesKeepToTheirLists(ms: seq<Message>)
    ensures forall f | f in Grouped(ms).output :: f.role != Scalar("system") && f.role != Scalar("user")
    ensures forall f | f in Grouped(ms).input :: f.role != Scalar("assistant")
  {
    FilterMembers(IsInput, ms);
    FilterMembers(IsOutput, ms);
    forall f | f in Grouped(ms).output
      ensures f.role != Scalar("system") && f.role != Scalar("user")
    {
      FormattedComesFrom(Filter(IsOutput, ms), f);
      var m :| m in Filter(IsOutput, ms) && f == Formatted(m.role, m.content);
      AnswersAreOutput(m);
    }
    forall f | f in Grouped(ms).input
      ensures f.role != Scalar("assistant")
    {
      FormattedComesFrom(Filter(IsInput, ms), f);
      var m :| m in Filter(IsInput, ms) && f == Formatted(m.role, m.content);
      AnswersAreOutput(m);
    }
  }

  /** The messages of one of the two lists, in the order of all messages. */
  ghost function ListOf(ms: seq<Message>, answers: bool): seq<Formatted> {
    if ms == [] then []
    else
      (if IsAnswer(ms[0]) == answers then [Formatted(ms[0].role, ms[0].content)] else []) + ListOf(ms[1..], answers)
  }

  /** Messages are emitted in the lists of their own, each list in the order of the messages. */
  lemma {:induction false} GroupedInOrder(ms: seq<Message>)
    ensures Grouped(ms).input == ListOf(ms, false) && Grouped(ms).output == ListOf(ms, true)
  {
    if ms != [] {
      var x, rest := ms[0], ms[1..];
      GroupedInOrder(rest);
      AnswersAreOutput(x);
      FormatOfOne(x);
      FormatSplits([x], Filter(IsInput, rest));
      FormatSplits([x], Filter(IsOutput, rest));
      assert [] + Filter(IsInput, rest) == Filter(IsInput, rest);
      assert [] + Filter(IsOutput, rest) == Filter(IsOutput, rest);
      assert [] + ListOf(rest, true) == ListOf(rest, true) && [] + ListOf(rest, false) == ListOf(rest, false);
    }
  }

  // ---------- Which role and list a key stands for ----------

  datatype Lane = Lane(role: string, answers: bool)

  const USER_KEYS := {"traceloop.entity.input", "gen_ai.prompt", "gen_ai.agent.human_input", "input.value",
                      "llm.prompts", "gen_ai.user.message"}

  const SYSTEM_KEYS := {"gen_ai.content.revised_prompt", "system_prompt", "gen_ai.system.message"}

  const ASSISTANT_KEYS := {"traceloop.entity.output", "crewai.crew.tasks_output", "crewai.crew.result",
                           "gen_ai.completion", "gen_ai.agent.actual_output", "output.value", "tool.result",
                           "gen_ai.assistant.message", "gen_ai.choice"}

  /** A key with a number between two texts, and perhaps a newline at its end. */
  ghost predicate IsNumbered(key: string, prefix: string, suffix: string) {
    exists digits :: AllDigits(digits) && (key == prefix + digits + suffix || key == prefix + digits + suffix + "\n")
  }

  ghost predicate IsPromptKey(key: string) { IsNumbered(key, "gen_ai.prompt.", ".content") }

  ghost predicate IsCompletionKey(key: string) { IsNumbered(key, "gen_ai.completion.", ".content") }

  ghost predicate IsInputKey(key: string) { IsNumbered(key, "llm.input_messages.", ".message.content") }

  ghost predicate IsOutputKey(key: string) { IsNumbered(key, "llm.output_messages.", ".message.content") }

  ghost function LaneOf(key: string): Option<Lane> {
    if key in USER_KEYS then Some(Lane("user", false))
    else if key in SYSTEM_KEYS then Some(Lane("system", false))
    else if key in ASSISTANT_KEYS then Some(Lane("assistant", true))
    else if key == "gen_ai.tool.message" then Some(Lane("tool", false))
    else if IsPromptKey(key) then Some(Lane("unknown", false))
    else if IsCompletionKey(key) then Some(Lane("unknown", true))
    else if IsInputKey(key) then Some(Lane("user", false))
    else if IsOutputKey(key) then Some(Lane("assistant", true))
    else None
  }

  lemma DirectRoles(key: string)
    ensures key in DIRECT_PATTERNS <==>
              key in USER_KEYS || key in SYSTEM_KEYS || key in ASSISTANT_KEYS || key == "gen_ai.tool.message"
    ensures key in USER_KEYS ==> DIRECT_PATTERNS[key].role == "user"
    ensures key in SYSTEM_KEYS ==> DIRECT_PATTERNS[key].role == "system"
    ensures key in ASSISTANT_KEYS ==> DIRECT_PATTERNS[key].role == "assistant"
    ensures key == "gen_ai.tool.message" ==> DIRECT_PATTERNS[key] == LloHandler.Direct("tool", "prompt")
  {
  }

  lemma ChompOfPlain(s: string)
    requires s != "" && s[|s| - 1] != '\n'
    ensures Chomp(s) == s && Chomp(s + "\n") == s
  {
    assert (s + "\n")[..|s|] == s;
  }

  lemma ChompIsOneOf(key: string)
    ensures key == Chomp(key) || key == Chomp(key) + "\n"
  {
  }

  lemma ThreePartsOf(s: string, prefix: string, suffix: string)
    requires prefix <= s && EndsWith(s, suffix) && |prefix| + |suffix| <= |s|
    ensures s == prefix + s[|prefix|..|s| - |suffix|] + suffix
  {
  }

  lemma HasForm(key: string, prefix: string, digits: string, suffix: string)
    requires AllDigits(digits) && (key == prefix + digits + suffix || key == prefix + digits + suffix + "\n")
    ensures IsNumbered(key, prefix, suffix)
  {
  }

  lemma MatchedHasForm(p: Indexed, key: string)
    requires IndexIn(p, key).Some?
    ensures IsNumbered(key, p.prefix, p.suffix)
  {
    var s := Chomp(key);
    var digits := s[|p.prefix|..|s| - |p.suffix|];
    assert AllDigits(digits);
    ThreePartsOf(s, p.prefix, p.suffix);
    ChompIsOneOf(key);
    HasForm(key, p.prefix, digits, p.suffix);
  }

  lemma FormIsMatched(p: Indexed, digits: string)
    requires p.suffix != "" && p.suffix[|p.suffix| - 1] != '\n' && AllDigits(digits)
    ensures var s := p.prefix + digits + p.suffix;
            IndexIn(p, s).Some? && IndexIn(p, s + "\n").Some?
  {
    var s := p.prefix + digits + p.suffix;
    KeyHits(p, digits);
    assert s[|s| - 1] == p.suffix[|p.suffix| - 1];
    ChompOfPlain(s);
  }

  /** A pattern is matched exactly by keys of its form. */
  lemma IndexInExactly(p: Indexed, key: string)
    requires p.suffix != "" && p.suffix[|p.suffix| - 1] != '\n'
    ensures IndexIn(p, key).Some? <==> IsNumbered(key, p.prefix, p.suffix)
  {
    if IndexIn(p, key).Some? {
      MatchedHasForm(p, key);
    }
    if IsNumbered(key, p.prefix, p.suffix) {
      var digits :| AllDigits(digits)
                    && (key == p.prefix + digits + p.suffix || key == p.prefix + digits + p.suffix + "\n");
      FormIsMatched(p, digits);
    }
  }

  lemma PromptIsNoAnswer(word: string, k: nat)
    requires word in {"completion", "output", "result"}
    ensures !OccursAt("prompt", word, k)
  {
    if k + |word| <= |"prompt"| {
      assert k == 0 && "prompt"[0..6] == "prompt";
      assert "prompt"[0] != word[0];
    }
  }

  lemma CompletionIsAnswer()
    ensures OccursAt("completion", "completion", 0)
  {
  }

  /** A direct message has its key's role and list. */
  lemma DirectLane(key: string, content: Value)
    requires key in DIRECT_PATTERNS
    ensures var x := DirectMessage(content, DIRECT_PATTERNS[key]);
            && LaneOf(key).Some? && x.role == Scalar(LaneOf(key).value.role)
            && (IsAnswer(x) <==> LaneOf(key).value.answers)
  {
    DirectRoles(key);
    if key == "gen_ai.tool.message" {
      forall word, k: nat | word in {"completion", "output", "result"}
        ensures !OccursAt("prompt", word, k)
      {
        PromptIsNoAnswer(word, k);
      }
    }
  }

  /** The lane of the i-th indexed pattern. */
  function PatternLane(i: nat): Lane
    requires i < 4
  {
    [Lane("unknown", false), Lane("unknown", true), Lane("user", false), Lane("assistant", true)][i]
  }

  lemma PatternLaneHolds(i: nat, content: Value)
    requires i < 4
    ensures var x := Message(content, Scalar(INDEXED_PATTERNS[i].defaultRole), INDEXED_PATTERNS[i].source);
            x.role == Scalar(PatternLane(i).role) && (IsAnswer(x) <==> PatternLane(i).answers)
  {
    CompletionIsAnswer();
    forall word, k: nat | word in {"completion", "output", "result"}
      ensures !OccursAt("prompt", word, k)
    {
      PromptIsNoAnswer(word, k);
    }
  }

  lemma PatternsInUse()
    ensures INDEXED_PATTERNS[0].prefix == "gen_ai.prompt." && INDEXED_PATTERNS[0].suffix == ".content"
    ensures INDEXED_PATTERNS[1].prefix == "gen_ai.completion." && INDEXED_PATTERNS[1].suffix == ".content"
    ensures INDEXED_PATTERNS[2].prefix == "llm.input_messages." && INDEXED_PATTERNS[2].suffix == ".message.content"
    ensures INDEXED_PATTERNS[3].prefix == "llm.output_messages." && INDEXED_PATTERNS[3].suffix == ".message.content"
    ensures forall i | 0 <= i < 4 ::
              var suffix := INDEXED_PATTERNS[i].suffix;
              suffix != "" && suffix[|suffix| - 1] != '\n'
  {
  }

  lemma KeysOfPatterns(key: string)
    ensures IndexIn(INDEXED_PATTERNS[0], key).Some? <==> IsPromptKey(key)
    ensures IndexIn(INDEXED_PATTERNS[1], key).Some? <==> IsCompletionKey(key)
    ensures IndexIn(INDEXED_PATTERNS[2], key).Some? <==> IsInputKey(key)
    ensures IndexIn(INDEXED_PATTERNS[3], key).Some? <==> IsOutputKey(key)
  {
    PatternsInUse();
    IndexInExactly(INDEXED_PATTERNS[0], key);
    IndexInExactly(INDEXED_PATTERNS[1], key);
    IndexInExactly(INDEXED_PATTERNS[2], key);
    IndexInExactly(INDEXED_PATTERNS[3], key);
  }

  /** A key matched by index is in the lane of its pattern. */
  lemma IndexedLane(key: string)
    requires key !in DIRECT_PATTERNS && FirstIndexed(INDEXED_PATTERNS, key) < 4
    ensures LaneOf(key) == Some(PatternLane(FirstIndexed(INDEXED_PATTERNS, key)))
  {
    var i := FirstIndexed(INDEXED_PATTERNS, key);
    DirectRoles(key);
    KeysOfPatterns(key);
    assert IndexIn(INDEXED_PATTERNS[i], key).Some? && forall j | 0 <= j < i :: IndexIn(INDEXED_PATTERNS[j], key).None?;
    if i == 0 {
    } else if i == 1 {
    } else if i == 2 {
    } else {
      assert i == 3;
    }
  }

  // ---------- What spans emit ----------

  /** The entries whose keys belong to one of the two lists, as they should be emitted. */
  ghost function InLane(part: Attrs, answers: bool): seq<Formatted> {
    if part == [] then []
    else
      var (key, value) := part[|part| - 1];
      InLane(part[..|part| - 1], answers)
      + if LaneOf(key).Some? && LaneOf(key).value.answers == answers
        then [Formatted(Scalar(LaneOf(key).value.role), value)] else []
  }

  lemma {:induction false} ListOneMore(ms: seq<Message>, x: Message, answers: bool)
    ensures ListOf(ms + [x], answers) ==
              ListOf(ms, answers) + if IsAnswer(x) == answers then [Formatted(x.role, x.content)] else []
  {
    if ms == [] {
      assert [] + [x] == [x] && [x][1..] == [];
    } else {
      assert (ms + [x])[1..] == ms[1..] + [x];
      ListOneMore(ms[1..], x, answers);
      ConcatIsAssociative(if IsAnswer(ms[0]) == answers then [Formatted(ms[0].role, ms[0].content)] else [],
                          ListOf(ms[1..], answers),
                          if IsAnswer(x) == answers then [Formatted(x.role, x.content)] else []);
    }
  }

  /** What a collected entry becomes. */
  ghost function MessageFor(d: Attrs, key: string, value: Value): Option<Message> {
    if PATTERNS.direct(key).Some? then Some(DirectMessage(value, PATTERNS.direct(key).value))
    else if PATTERNS.indexed(key).Some? then Some(IndexedMessage(d, value, PATTERNS.indexed(key).value))
    else None
  }

  lemma MessageIsInLane(s: SpanState, key: string, value: Value)
    requires LloKey(key)
    ensures var x := MessageFor(Collected(LloKey, s), key, value);
            && x.Some? && x.value.content == value
            && LaneOf(key).Some? && x.value.role == Scalar(LaneOf(key).value.role)
            && (IsAnswer(x.value) <==> LaneOf(key).value.answers)
  {
    RegistryDescribes();
    assert PATTERNS.direct(key) == DirectOf(LLO_PATTERNS, key) && PATTERNS.indexed(key) == HitOf(LLO_PATTERNS, key);
    if key in DIRECT_PATTERNS {
      DirectLane(key, value);
    } else {
      var i := FirstIndexed(INDEXED_PATTERNS, key);
      IndexedLane(key);
      PatternLaneHolds(i, value);
      RolesAreDefaults(PATTERNS, LloKey, s, value, key);
    }
  }

  lemma {:induction false} ExpectedIsInLane(s: SpanState, part: Attrs, answers: bool)
    requires forall i | 0 <= i < |part| :: LloKey(part[i].0)
    ensures ListOf(Expected(PATTERNS, Collected(LloKey, s), part), answers) == InLane(part, answers)
  {
    if part != [] {
      var init, d := part[..|part| - 1], Collected(LloKey, s);
      var (key, value) := part[|part| - 1];
      ExpectedIsInLane(s, init, answers);
      MessageIsInLane(s, key, value);
      var x := MessageFor(d, key, value).value;
      assert Expected(PATTERNS, d, part) == Expected(PATTERNS, d, init) + [x];
      ListOneMore(Expected(PATTERNS, d, init), x, answers);
    }
  }

  lemma {:induction false} FilterCounts<T>(keep: T -> bool, s: seq<T>, x: T)
    ensures multiset(Filter(keep, s))[x] == if keep(x) then multiset(s)[x] else 0
  {
    if s != [] {
      FilterCounts(keep, s[1..], x);
      assert s == [s[0]] + s[1..];
    }
  }

  lemma SameMessagesSameLists(a: seq<Message>, b: seq<Message>)
    requires multiset(a) == multiset(b)
    ensures multiset(Grouped(a).input) == multiset(Grouped(b).input)
    ensures multiset(Grouped(a).output) == multiset(Grouped(b).output)
  {
    forall x: Message
      ensures multiset(Filter(IsInput, a))[x] == multiset(Filter(IsInput, b))[x]
      ensures multiset(Filter(IsOutput, a))[x] == multiset(Filter(IsOutput, b))[x]
    {
      FilterCounts(IsInput, a, x);
      FilterCounts(IsInput, b, x);
      FilterCounts(IsOutput, a, x);
      FilterCounts(IsOutput, b, x);
    }
    FormatKeepsMembers(Filter(IsInput, a), Filter(IsInput, b));
    FormatKeepsMembers(Filter(IsOutput, a), Filter(IsOutput, b));
  }

  /**
    With the registered patterns a span whose content does not collide emits every piece of it once, in the list and
    with the role of its key.
   */
  lemma SpanEmitsInLanes(s: SpanState)
    requires NothingCollides(PATTERNS, LloContent(LloKey, s))
    ensures var all, e := LloContent(LloKey, s), EmissionOf(PATTERNS, Collected(LloKey, s));
            && (e.None? <==> all == [])
            && (e.Some? ==> multiset(e.value.input) == multiset(InLane(all, false))
                            && multiset(e.value.output) == multiset(InLane(all, true)))
  {
    var all, c := LloContent(LloKey, s), Collected(LloKey, s);
    RegistryDescribes();
    PutAllFromEmpty(all);
    assert c == all;
    CollectedIsLlo(LloKey, s);
    CollectedMatchesOnce(PATTERNS, LloKey, c);
    EveryEntryBecomesAMessage(PATTERNS, c);
    EmissionHoldsCollected(PATTERNS, LloKey, s);
    var messages, expected := AllMessages(PATTERNS, c), Expected(PATTERNS, c, c);
    SameMessagesSameLists(messages, expected);
    GroupedInOrder(expected);
    ExpectedIsInLane(s, c, false);
    ExpectedIsInLane(s, c, true);
  }

  lemma {:induction false} NoIndexedEntries(d: Attrs, part: Attrs)
    requires forall i | 0 <= i < |part| :: LloKey(part[i].0) && part[i].0 in DIRECT_PATTERNS
    ensures IndexedEntries(PATTERNS, d, part) == [] && DirectMessages(PATTERNS, part) == Expected(PATTERNS, d, part)
  {
    if part != [] {
      var init, key := part[..|part| - 1], part[|part| - 1].0;
      NoIndexedEntries(d, init);
      RegistryDescribes();
      assert PATTERNS.direct(key) == DirectOf(LLO_PATTERNS, key) && PATTERNS.indexed(key) == HitOf(LLO_PATTERNS, key);
      KeyIsExclusive(key);
    }
  }

  /** A span with unnumbered content only emits what it has collected in the order it was met. */
  lemma UnnumberedContentKeepsOrder(s: SpanState)
    requires forall i | 0 <= i < |Collected(LloKey, s)| :: Collected(LloKey, s)[i].0 in DIRECT_PATTERNS
    ensures var c, e := Collected(LloKey, s), EmissionOf(PATTERNS, Collected(LloKey, s));
            && (e.None? <==> c == [])
            && (e.Some? ==> e.value == Emission(InLane(c, false), InLane(c, true)))
  {
    var c := Collected(LloKey, s);
    RegistryDescribes();
    CollectedIsLlo(LloKey, s);
    NoIndexedEntries(c, c);
    assert Sort(ByIndexKey, PutAll([], [])) == [];
    assert AllMessages(PATTERNS, c) == Expected(PATTERNS, c, c) + [] == Expected(PATTERNS, c, c);
    GroupedInOrder(Expected(PATTERNS, c, c));
    ExpectedIsInLane(s, c, false);
    ExpectedIsInLane(s, c, true);
    CollectedMatchesOnce(PATTERNS, LloKey, c);
    ExpectedCounts(PATTERNS, c, c);
  }
}
