/** The sampler's rule cache as a state machine over its four public operations. */
module RuleCache {
  import opened Wrappers
  import opened Passes
  import opened Sequences
  import opened Sorting
  import opened SamplingRuleApplier
  import Matcher

  // ---------- The order of rules ----------

  predicate RuleLess(a: SamplingRule, b: SamplingRule) {
    if a.priority == b.priority then StringLess(a.ruleName, b.ruleName) else a.priority < b.priority
  }

  lemma RuleLessOrders(rules: seq<SamplingRule>)
    ensures Orders(RuleLess, rules)
  {
    forall a, b | a in rules && b in rules
      ensures RuleLess(a, b) ==> !RuleLess(b, a)
    {
      StringLessOrders(a.ruleName, b.ruleName, "");
    }
    forall a, b, c | a in rules && b in rules && c in rules
      ensures !RuleLess(b, a) && !RuleLess(c, b) ==> !RuleLess(c, a)
    {
      StringLessOrders(a.ruleName, b.ruleName, c.ruleName);
    }
  }

  // ---------- States and operations ----------

  datatype CacheState = CacheState(appliers: seq<ApplierState>, lastModified: real)

  /** What a request offers for matching, the same for every rule. */
  datatype Facts = Facts(
    attributes: Option<map<string, string>>, urlPath: Option<string>, httpMethod: Option<string>,
    serverAddress: Option<string>, serviceName: Option<string>, serviceType: string, arn: string)

  datatype Op =
    | Route(facts: Facts, now: real, verdict: Verdict)
    | ReportAll(now: real)
    | UpdateTargets(targets: seq<SamplingTarget>, now: real)
    | UpdateRules(rules: seq<SamplingRule>, now: real)

  predicate RuleMatches(rule: SamplingRule, f: Facts) {
    && (rule.attributes == map[]
        || (f.attributes.Some? && Matcher.AttributesMatch(f.attributes.value, rule.attributes)))
    && Matcher.Matches(f.urlPath, Some(rule.urlPath))
    && Matcher.Matches(f.httpMethod, Some(rule.httpMethod))
    && Matcher.Matches(f.serverAddress, Some(rule.host))
    && Matcher.Matches(f.serviceName, Some(rule.serviceName))
    && Matcher.Matches(Some(f.serviceType), Some(rule.serviceType))
    && Matcher.Matches(Some(f.arn), Some(rule.resourceARN))
  }

  // ---------- Which fact meets which pattern ----------

  datatype Field = UrlPath | HttpMethod | Host | ServiceName | ServiceType | ResourceARN

  function PatternOf(rule: SamplingRule, field: Field): string {
    match field
    case UrlPath => rule.urlPath
    case HttpMethod => rule.httpMethod
    case Host => rule.host
    case ServiceName => rule.serviceName
    case ServiceType => rule.serviceType
    case ResourceARN => rule.resourceARN
  }

  function FactOf(f: Facts, field: Field): Option<string> {
    match field
    case UrlPath => f.urlPath
    case HttpMethod => f.httpMethod
    case Host => f.serverAddress
    case ServiceName => f.serviceName
    case ServiceType => Some(f.serviceType)
    case ResourceARN => Some(f.arn)
  }

  /** The rule with these attributes that asks for nothing else. */
  function OnAttributes(rule: SamplingRule, attributes: map<string, string>): SamplingRule {
    rule.(attributes := attributes, urlPath := "*", httpMethod := "*", host := "*", serviceName := "*",
          serviceType := "*", resourceARN := "*")
  }

  /** The rule with a pattern in one field that asks for nothing else. */
  function OnField(rule: SamplingRule, field: Field, pattern: string): SamplingRule {
    var any := OnAttributes(rule, map[]);
    match field
    case UrlPath => any.(urlPath := pattern)
    case HttpMethod => any.(httpMethod := pattern)
    case Host => any.(host := pattern)
    case ServiceName => any.(serviceName := pattern)
    case ServiceType => any.(serviceType := pattern)
    case ResourceARN => any.(resourceARN := pattern)
  }

  predicate OneLine(f: Facts) {
    && (f.attributes.Some? ==> forall key | key in f.attributes.value :: '\n' !in f.attributes.value[key])
    && forall field: Field {:trigger FactOf(f, field)} | FactOf(f, field).Some? :: '\n' !in FactOf(f, field).value
  }

  /** A rule that asks for one field matches exactly the requests whose own fact of that field meets the pattern. */
  lemma OneFieldMatchesExactly(rule: SamplingRule, field: Field, pattern: string, f: Facts)
    requires OneLine(f)
    ensures RuleMatches(OnField(rule, field, pattern), f) <==> Matcher.Meets(FactOf(f, field), pattern)
  {
    Matcher.MatchesIsMeeting(FactOf(f, field), pattern);
  }

  /** A rule that asks for attributes alone matches exactly the requests that have them all. */
  lemma AttributesAloneMatchExactly(rule: SamplingRule, attributes: map<string, string>, f: Facts)
    requires OneLine(f)
    ensures RuleMatches(OnAttributes(rule, attributes), f) <==> Matcher.AttributesMeet(f.attributes, attributes)
  {
    if f.attributes.Some? {
      Matcher.AttributesMatchIsMeeting(f.attributes.value, attributes);
    }
  }

  /** A rule matches if and only if each of its seven one-field rules does. */
  lemma MatchesFieldByField(rule: SamplingRule, f: Facts)
    ensures RuleMatches(rule, f) <==>
              && RuleMatches(OnAttributes(rule, rule.attributes), f)
              && forall field: Field {:trigger PatternOf(rule, field)} ::
                   RuleMatches(OnField(rule, field, PatternOf(rule, field)), f)
  {
    if RuleMatches(rule, f) {
      forall field: Field
        ensures RuleMatches(OnField(rule, field, PatternOf(rule, field)), f)
      {
      }
    } else {
      assert PatternOf(rule, UrlPath) == rule.urlPath && PatternOf(rule, HttpMethod) == rule.httpMethod
          && PatternOf(rule, Host) == rule.host && PatternOf(rule, ServiceName) == rule.serviceName
          && PatternOf(rule, ServiceType) == rule.serviceType && PatternOf(rule, ResourceARN) == rule.resourceARN;
    }
  }

  /** All patterns of a rule are met by the facts they are about. */
  predicate MeetsAll(rule: SamplingRule, f: Facts) {
    && Matcher.AttributesMeet(f.attributes, rule.attributes)
    && forall field: Field {:trigger PatternOf(rule, field)} :: Matcher.Meets(FactOf(f, field), PatternOf(rule, field))
  }

  lemma MatchingIsMeetingAll(rule: SamplingRule, f: Facts)
    requires OneLine(f)
    ensures RuleMatches(rule, f) <==> MeetsAll(rule, f)
  {
    MatchesFieldByField(rule, f);
    AttributesAloneMatchExactly(rule, rule.attributes, f);
    forall field: Field {:trigger PatternOf(rule, field)}
      ensures RuleMatches(OnField(rule, field, PatternOf(rule, field)), f) <==>
                Matcher.Meets(FactOf(f, field), PatternOf(rule, field))
    {
      OneFieldMatchesExactly(rule, field, PatternOf(rule, field), f);
    }
  }

  /** The first of the rules all of whose patterns are met, or none. */
  predicate IsFirstMet(rules: seq<SamplingRule>, f: Facts, i: nat) {
    && i <= |rules| && (i < |rules| ==> MeetsAll(rules[i], f))
    && forall j | 0 <= j < i :: !MeetsAll(rules[j], f)
  }

  lemma FirstMatchIsFirstMet(rules: seq<SamplingRule>, f: Facts)
    ensures OneLine(f) ==> IsFirstMet(rules, f, FirstMatch(rules, f))
  {
    if OneLine(f) {
      FirstMatchIsMet(rules, f);
    }
  }

  lemma FirstMatchIsMet(rules: seq<SamplingRule>, f: Facts)
    requires OneLine(f)
    ensures IsFirstMet(rules, f, FirstMatch(rules, f))
  {
    forall j | 0 <= j < |rules|
      ensures RuleMatches(rules[j], f) <==> MeetsAll(rules[j], f)
    {
      MatchingIsMeetingAll(rules[j], f);
    }
  }

  function RulesOf(appliers: seq<ApplierState>): seq<SamplingRule> {
    seq(|appliers|, i requires 0 <= i < |appliers| => appliers[i].rule)
  }

  /** The position of the first rule that matches, or the number of rules when none does. */
  function FirstMatch(rules: seq<SamplingRule>, f: Facts): (i: nat)
    ensures i <= |rules| && (i < |rules| ==> RuleMatches(rules[i], f))
    ensures forall j | 0 <= j < i :: !RuleMatches(rules[j], f)
  {
    if rules == [] || RuleMatches(rules[0], f) then 0 else 1 + FirstMatch(rules[1..], f)
  }

  function Routed(c: CacheState, f: Facts, now: real, verdict: Verdict): CacheState {
    var i := FirstMatch(RulesOf(c.appliers), f);
    if i == |c.appliers| then c else c.(appliers := c.appliers[i := Sampled(c.appliers[i], now, verdict)])
  }

  function Reset(a: ApplierState): ApplierState { a.(counts := NO_COUNTS) }

  function Reports(c: CacheState, now: real): seq<Report> {
    seq(|c.appliers|, i requires 0 <= i < |c.appliers| =>
      Report(c.appliers[i].rule.ruleName, now, c.appliers[i].counts))
  }

  /** The last target for a name: later entries of a response replace earlier ones. */
  function TargetFor(targets: seq<SamplingTarget>, name: string): Option<SamplingTarget> {
    if targets == [] then None
    else if targets[|targets| - 1].ruleName == name then Some(targets[|targets| - 1])
    else TargetFor(targets[..|targets| - 1], name)
  }

  function Targeted(a: ApplierState, targets: seq<SamplingTarget>, now: real): ApplierState {
    var t := TargetFor(targets, a.rule.ruleName);
    if t.Some? then Retargeted(a, t.value, now) else a
  }

  /** A target is found for a name exactly if there is one, and it is the last of that name. */
  lemma {:induction false} TargetForIsLast(targets: seq<SamplingTarget>, name: string)
    ensures TargetFor(targets, name).Some? <==> exists i :: 0 <= i < |targets| && targets[i].ruleName == name
    ensures TargetFor(targets, name).Some? ==>
              exists i :: 0 <= i < |targets| && targets[i] == TargetFor(targets, name).value
                          && targets[i].ruleName == name
                          && forall j | i < j < |targets| :: targets[j].ruleName != name
  {
    if targets != [] {
      var init, n := targets[..|targets| - 1], |targets| - 1;
      if targets[n].ruleName != name {
        TargetForIsLast(init, name);
        assert forall i | 0 <= i < n :: targets[i] == init[i];
      }
    }
  }

  predicate Supported(rule: SamplingRule) { rule.ruleName != "" && rule.version == 1 }

  function SupportedRules(rules: seq<SamplingRule>): seq<SamplingRule> {
    Filter(Supported, Sort(RuleLess, rules))
  }

  /** The position of the last applier with a name, or the number of appliers when there is none. */
  function LastNamed(rules: seq<SamplingRule>, name: string): (i: nat)
    ensures i <= |rules| && (i < |rules| ==> rules[i].ruleName == name)
    ensures i == |rules| ==> forall j | 0 <= j < |rules| :: rules[j].ruleName != name
    ensures forall j | i < j < |rules| :: rules[j].ruleName != name
  {
    if rules == [] then 0
    else if rules[|rules| - 1].ruleName == name then |rules| - 1
    else
      var i := LastNamed(rules[..|rules| - 1], name);
      if i == |rules| - 1 then |rules| else i
  }

  /** The applier a rule gets in an update: the old one of its name if that rule is unchanged, else a new one. */
  function Installed(held: seq<ApplierState>, rule: SamplingRule, now: real): ApplierState {
    var i := LastNamed(RulesOf(held), rule.ruleName);
    if i < |held| && held[i].rule == rule then held[i] else Untargeted(rule, now)
  }

  function WithRules(c: CacheState, rules: seq<SamplingRule>, now: real): CacheState {
    var supported := SupportedRules(rules);
    CacheState(seq(|supported|, i requires 0 <= i < |supported| => Installed(c.appliers, supported[i], now)), now)
  }

  function Do(c: CacheState, op: Op): CacheState {
    match op
    case Route(facts, now, verdict) => Routed(c, facts, now, verdict)
    case ReportAll(_) =>
      c.(appliers := seq(|c.appliers|, i requires 0 <= i < |c.appliers| => Reset(c.appliers[i])))
    case UpdateTargets(targets, now) =>
      c.(appliers := seq(|c.appliers|, i requires 0 <= i < |c.appliers| => Targeted(c.appliers[i], targets, now)))
    case UpdateRules(rules, now) => WithRules(c, rules, now)
  }

  function Run(c: CacheState, ops: seq<Op>): CacheState {
    if ops == [] then c else Do(Run(c, ops[..|ops| - 1]), ops[|ops| - 1])
  }

  // ---------- Which rules are held, and which one is used ----------

  /** The rules of the last update in a run, if there was one. */
  function LastUpdate(ops: seq<Op>): seq<SamplingRule> {
    if ops == [] then []
    else if ops[|ops| - 1].UpdateRules? then ops[|ops| - 1].rules
    else LastUpdate(ops[..|ops| - 1])
  }

  /** In every reachable state the cache holds exactly the supported rules of the last update, in rule order. */
  lemma {:induction false} CacheHoldsLastUpdate(start: real, ops: seq<Op>)
    ensures var rules := RulesOf(Run(CacheState([], start), ops).appliers);
            && rules == SupportedRules(LastUpdate(ops))
            && IsSorted(RuleLess, rules)
            && (forall r :: r in rules <==> r in LastUpdate(ops) && r.ruleName != "" && r.version == 1)
  {
    var c := Run(CacheState([], start), ops);
    if ops == [] {
      assert RulesOf(c.appliers) == [];
    } else {
      CacheHoldsLastUpdate(start, ops[..|ops| - 1]);
      var before := Run(CacheState([], start), ops[..|ops| - 1]);
      if ops[|ops| - 1].UpdateRules? {
        assert RulesOf(c.appliers) == SupportedRules(ops[|ops| - 1].rules);
      } else {
        assert RulesOf(c.appliers) == RulesOf(before.appliers);
      }
    }
    SupportedRulesAreSorted(LastUpdate(ops));
  }

  lemma SupportedRulesAreSorted(rules: seq<SamplingRule>)
    ensures IsSorted(RuleLess, SupportedRules(rules))
    ensures forall r :: r in SupportedRules(rules) <==> r in rules && Supported(r)
  {
    RuleLessOrders(rules);
    SortSorts(RuleLess, rules);
    SortKeepsMembers(RuleLess, rules);
    FilterKeepsOrder(Supported, Sort(RuleLess, rules));
    forall r
      ensures r in SupportedRules(rules) <==> r in rules && Supported(r)
    {
      assert r in Sort(RuleLess, rules) <==> r in multiset(Sort(RuleLess, rules));
      assert r in rules <==> r in multiset(rules);
    }
  }

  lemma {:induction false} FilterKeepsOrder(keep: SamplingRule -> bool, s: seq<SamplingRule>)
    requires IsSorted(RuleLess, s)
    ensures IsSorted(RuleLess, Filter(keep, s))
    ensures forall r :: r in Filter(keep, s) <==> r in s && keep(r)
  {
    if s != [] {
      var rest := Filter(keep, s[1..]);
      FilterKeepsOrder(keep, s[1..]);
      forall i, j | 0 <= i < j < |Filter(keep, s)|
        ensures !RuleLess(Filter(keep, s)[j], Filter(keep, s)[i])
      {
        if keep(s[0]) && i == 0 {
          var r := rest[j - 1];
          assert r in s[1..];
          var k :| 1 <= k < |s| && s[k] == r;
        }
      }
    }
  }

  predicate NamesDistinct(rules: seq<SamplingRule>) {
    forall i, j | 0 <= i < j < |rules| :: rules[i].ruleName != rules[j].ruleName
  }

  /**
    In every reachable state a matched request goes to the matching rule of the least priority, and of those to the one
    whose name comes first; with distinct names there is just one.
   */
  lemma RoutesToLeastMatch(start: real, ops: seq<Op>, f: Facts, j: nat)
    requires var rules := RulesOf(Run(CacheState([], start), ops).appliers);
             j < |rules| && RuleMatches(rules[j], f)
    ensures var rules := RulesOf(Run(CacheState([], start), ops).appliers);
            var i := FirstMatch(rules, f);
            && i < |rules| && rules[i].priority <= rules[j].priority
            && (rules[i].priority == rules[j].priority ==> !StringLess(rules[j].ruleName, rules[i].ruleName))
            && (rules[i].priority == rules[j].priority && NamesDistinct(rules) && j != i ==>
                  StringLess(rules[i].ruleName, rules[j].ruleName))
  {
    CacheHoldsLastUpdate(start, ops);
    var rules := RulesOf(Run(CacheState([], start), ops).appliers);
    var i := FirstMatch(rules, f);
    StringLessOrders(rules[i].ruleName, rules[j].ruleName, "");
    if i == j {
    } else {
      assert i < j;
    }
  }

  /** Targets, reports and routing never change which rule a request goes to. */
  lemma OnlyRuleUpdatesReroute(c: CacheState, op: Op, f: Facts)
    requires !op.UpdateRules?
    ensures FirstMatch(RulesOf(Do(c, op).appliers), f) == FirstMatch(RulesOf(c.appliers), f)
  {
    assert RulesOf(Do(c, op).appliers) == RulesOf(c.appliers);
  }

  // ---------- Conservation of counts ----------

  /** Requests counted for a name and not yet reported. */
  function Pending(appliers: seq<ApplierState>, name: string): nat {
    if appliers == [] then 0
    else (if appliers[0].rule.ruleName == name then appliers[0].counts.request else 0) + Pending(appliers[1..], name)
  }

  function SumReports(reports: seq<Report>, name: string): nat {
    if reports == [] then 0
    else (if reports[0].ruleName == name then reports[0].counts.request else 0) + SumReports(reports[1..], name)
  }

  /** Requests counted for a name by appliers whose rule is not among `kept`. */
  function Dropped(appliers: seq<ApplierState>, kept: seq<SamplingRule>, name: string): nat {
    if appliers == [] then 0
    else (if appliers[0].rule.ruleName == name && appliers[0].rule !in kept then appliers[0].counts.request else 0)
         + Dropped(appliers[1..], kept, name)
  }

  /** What happened to requests of one rule name: routed to it, reported for it, discarded with it. */
  datatype Ledger = Ledger(routed: nat, reported: nat, discarded: nat)

  function Entry(c: CacheState, op: Op, name: string): Ledger {
    match op
    case Route(facts, _, _) =>
      var i := FirstMatch(RulesOf(c.appliers), facts);
      Ledger(if i < |c.appliers| && c.appliers[i].rule.ruleName == name then 1 else 0, 0, 0)
    case ReportAll(now) => Ledger(0, SumReports(Reports(c, now), name), 0)
    case UpdateTargets(_, _) => Ledger(0, 0, 0)
    case UpdateRules(rules, _) => Ledger(0, 0, Dropped(c.appliers, SupportedRules(rules), name))
  }

  function Total(c: CacheState, ops: seq<Op>, name: string): Ledger {
    if ops == [] then Ledger(0, 0, 0)
    else
      var before, entry := Total(c, ops[..|ops| - 1], name),
                           Entry(Run(c, ops[..|ops| - 1]), ops[|ops| - 1], name);
      Ledger(before.routed + entry.routed, before.reported + entry.reported, before.discarded + entry.discarded)
  }

  lemma LastNamedOfTail(rules: seq<SamplingRule>, name: string)
    requires rules != []
    ensures var i, k := LastNamed(rules, name), LastNamed(rules[1..], name);
            i == if k < |rules| - 1 then k + 1 else if rules[0].ruleName == name then 0 else |rules|
  {
    var i, k, rest := LastNamed(rules, name), LastNamed(rules[1..], name), rules[1..];
    assert forall j | 1 <= j < |rules| :: rules[j] == rest[j - 1];
    if k < |rest| {
      assert rules[k + 1].ruleName == name;
    }
  }

  /** Requests of a name counted for the last applier of that name, if its rule is kept. */
  function Carried(appliers: seq<ApplierState>, kept: seq<SamplingRule>, name: string): nat {
    var i := LastNamed(RulesOf(appliers), name);
    if i < |appliers| && appliers[i].rule in kept then appliers[i].counts.request else 0
  }

  /** Requests of a name counted for earlier appliers of that name whose rules are kept all the same. */
  function Lost(appliers: seq<ApplierState>, kept: seq<SamplingRule>, name: string): nat {
    if appliers == [] then 0
    else
      var rest := appliers[1..];
      (if appliers[0].rule.ruleName == name && appliers[0].rule in kept && LastNamed(RulesOf(rest), name) < |rest|
       then appliers[0].counts.request else 0)
      + Lost(rest, kept, name)
  }

  lemma TailRules(appliers: seq<ApplierState>)
    requires appliers != []
    ensures RulesOf(appliers[1..]) == RulesOf(appliers)[1..]
  {
  }

  lemma {:induction false} PendingSplits(appliers: seq<ApplierState>, kept: seq<SamplingRule>, name: string)
    ensures Pending(appliers, name)
         == Dropped(appliers, kept, name) + Carried(appliers, kept, name) + Lost(appliers, kept, name)
  {
    if appliers != [] {
      PendingSplits(appliers[1..], kept, name);
      TailRules(appliers);
      LastNamedOfTail(RulesOf(appliers), name);
    }
  }

  predicate RulesDistinct(rules: seq<SamplingRule>) { forall i, j | 0 <= i < j < |rules| :: rules[i] != rules[j] }

  function InstalledAll(held: seq<ApplierState>, rules: seq<SamplingRule>, now: real): seq<ApplierState> {
    seq(|rules|, i requires 0 <= i < |rules| => Installed(held, rules[i], now))
  }

  /** Of all appliers of a name an update starts from, only the last one's count is carried over. */
  lemma {:induction false} PendingAfterUpdate(
      held: seq<ApplierState>, rules: seq<SamplingRule>, now: real, name: string)
    requires RulesDistinct(rules)
    ensures Pending(InstalledAll(held, rules, now), name) == Carried(held, rules, name)
    decreases |rules|
  {
    if rules != [] {
      var rest, i := rules[1..], LastNamed(RulesOf(held), name);
      PendingAfterUpdate(held, rest, now, name);
      assert InstalledAll(held, rules, now)[1..] == InstalledAll(held, rest, now);
      assert forall rule :: rule in rules <==> rule == rules[0] || rule in rest;
      assert rules[0] !in rest;
      if rules[0].ruleName == name {
        assert Installed(held, rules[0], now).rule == rules[0];
      } else if i < |held| {
        assert RulesOf(held)[i].ruleName == name;
      }
    }
  }

  /** No held rule of the name is kept but the last one. */
  predicate OnlyLastIsKept(rules: seq<SamplingRule>, kept: seq<SamplingRule>, name: string) {
    forall i | 0 <= i < |rules| && rules[i].ruleName == name && i != LastNamed(rules, name) :: rules[i] !in kept
  }

  lemma OnlyLastOfTail(rules: seq<SamplingRule>, kept: seq<SamplingRule>, name: string)
    requires rules != []
    ensures OnlyLastIsKept(rules, kept, name) <==>
              && OnlyLastIsKept(rules[1..], kept, name)
              && (rules[0].ruleName == name && LastNamed(rules[1..], name) < |rules| - 1 ==> rules[0] !in kept)
  {
    var rest := rules[1..];
    LastNamedOfTail(rules, name);
    if OnlyLastIsKept(rules, kept, name) {
      forall i | 0 <= i < |rest| && rest[i].ruleName == name && i != LastNamed(rest, name)
        ensures rest[i] !in kept
      {
        assert rules[i + 1] == rest[i];
      }
    } else {
      var i :| 0 <= i < |rules| && rules[i].ruleName == name && i != LastNamed(rules, name) && rules[i] in kept;
      assert i > 0 ==> rest[i - 1] == rules[i];
    }
  }

  lemma {:induction false} NothingLost(appliers: seq<ApplierState>, kept: seq<SamplingRule>, name: string)
    requires OnlyLastIsKept(RulesOf(appliers), kept, name)
    ensures Lost(appliers, kept, name) == 0
  {
    if appliers != [] {
      TailRules(appliers);
      OnlyLastOfTail(RulesOf(appliers), kept, name);
      NothingLost(appliers[1..], kept, name);
    }
  }

  /** Appliers that have each counted one request. */
  function OneRequestEach(rules: seq<SamplingRule>, now: real): seq<ApplierState> {
    seq(|rules|, i requires 0 <= i < |rules| => Untargeted(rules[i], now).(counts := Counts(1, 0, 0)))
  }

  lemma {:induction false} SomethingLost(rules: seq<SamplingRule>, kept: seq<SamplingRule>, now: real, name: string)
    requires !OnlyLastIsKept(rules, kept, name)
    ensures Lost(OneRequestEach(rules, now), kept, name) > 0
    decreases |rules|
  {
    if rules != [] {
      var all, rest := OneRequestEach(rules, now), OneRequestEach(rules[1..], now);
      assert all[1..] == rest && RulesOf(rest) == rules[1..];
      OnlyLastOfTail(rules, kept, name);
      if !OnlyLastIsKept(rules[1..], kept, name) {
        SomethingLost(rules[1..], kept, now, name);
      }
    }
  }

  ghost predicate UpdateConserves(c: CacheState, op: Op, name: string) {
    Pending(c.appliers, name) == Entry(c, op, name).discarded + Pending(Do(c, op).appliers, name)
  }

  lemma UpdateLosesWhatItDoesNotCarry(c: CacheState, op: Op, name: string)
    requires op.UpdateRules? && RulesDistinct(SupportedRules(op.rules))
    ensures UpdateConserves(c, op, name) <==> Lost(c.appliers, SupportedRules(op.rules), name) == 0
  {
    var kept := SupportedRules(op.rules);
    PendingSplits(c.appliers, kept, name);
    PendingAfterUpdate(c.appliers, kept, op.now, name);
    assert Do(c, op).appliers == InstalledAll(c.appliers, kept, op.now);
  }

  /**
    An update to different rules conserves the counts of a name, whatever has been counted, if and only if of the held
    rules of that name it keeps none but the last.
   */
  lemma UpdateConservesExactly(rules: seq<SamplingRule>, op: Op, name: string)
    requires op.UpdateRules? && RulesDistinct(SupportedRules(op.rules))
    ensures (forall c: CacheState | RulesOf(c.appliers) == rules :: UpdateConserves(c, op, name)) <==>
              OnlyLastIsKept(rules, SupportedRules(op.rules), name)
  {
    var kept := SupportedRules(op.rules);
    if OnlyLastIsKept(rules, kept, name) {
      forall c: CacheState | RulesOf(c.appliers) == rules
        ensures UpdateConserves(c, op, name)
      {
        NothingLost(c.appliers, kept, name);
        UpdateLosesWhatItDoesNotCarry(c, op, name);
      }
    } else {
      var c := CacheState(OneRequestEach(rules, op.now), op.now);
      assert RulesOf(c.appliers) == rules;
      SomethingLost(rules, kept, op.now, name);
      UpdateLosesWhatItDoesNotCarry(c, op, name);
    }
  }

  lemma {:induction false} ReportsAreWhatWasPending(c: CacheState, now: real, name: string)
    ensures SumReports(Reports(c, now), name) == Pending(c.appliers, name)
    decreases |c.appliers|
  {
    if c.appliers != [] {
      var tail := c.(appliers := c.appliers[1..]);
      ReportsAreWhatWasPending(tail, now, name);
      assert Reports(c, now)[1..] == Reports(tail, now);
    }
  }

  lemma {:induction false} PendingWithOneChanged(appliers: seq<ApplierState>, i: nat, a: ApplierState, name: string)
    requires i < |appliers| && a.rule == appliers[i].rule
    ensures Pending(appliers[i := a], name) + (if a.rule.ruleName == name then appliers[i].counts.request else 0)
         == Pending(appliers, name) + if a.rule.ruleName == name then a.counts.request else 0
  {
    var changed := appliers[i := a];
    if i > 0 {
      PendingWithOneChanged(appliers[1..], i - 1, a, name);
      assert changed[1..] == appliers[1..][i - 1 := a];
    } else {
      assert changed[1..] == appliers[1..];
    }
  }

  lemma {:induction false} PendingOfSameCounts(before: seq<ApplierState>, after: seq<ApplierState>, name: string)
    requires |before| == |after|
    requires forall i | 0 <= i < |before| :: after[i].rule == before[i].rule && after[i].counts == before[i].counts
    ensures Pending(after, name) == Pending(before, name)
  {
    if before != [] {
      PendingOfSameCounts(before[1..], after[1..], name);
    }
  }

  lemma {:induction false} NothingPending(appliers: seq<ApplierState>, name: string)
    requires forall i | 0 <= i < |appliers| :: appliers[i].counts == NO_COUNTS
    ensures Pending(appliers, name) == 0
  {
    if appliers != [] {
      NothingPending(appliers[1..], name);
    }
  }

  /** Whether an operation conserves the counts of a name: only an update may not. */
  predicate Conserving(c: CacheState, op: Op, name: string) {
    op.UpdateRules? ==>
      var kept := SupportedRules(op.rules);
      RulesDistinct(kept) && OnlyLastIsKept(RulesOf(c.appliers), kept, name)
  }

  /** One operation: what it routes to a name plus what was pending is what it reports, discards or leaves pending. */
  lemma OperationConserves(c: CacheState, op: Op, name: string)
    requires Conserving(c, op, name)
    ensures var e := Entry(c, op, name);
            e.routed + Pending(c.appliers, name) == e.reported + e.discarded + Pending(Do(c, op).appliers, name)
  {
    match op
    case Route(facts, now, verdict) =>
      var i := FirstMatch(RulesOf(c.appliers), facts);
      if i < |c.appliers| {
        PendingWithOneChanged(c.appliers, i, Sampled(c.appliers[i], now, verdict), name);
      }
    case ReportAll(now) =>
      ReportsAreWhatWasPending(c, now, name);
      NothingPending(Do(c, op).appliers, name);
    case UpdateTargets(_, _) => PendingOfSameCounts(c.appliers, Do(c, op).appliers, name);
    case UpdateRules(_, _) => UpdateConservesExactly(RulesOf(c.appliers), op, name);
  }

  /**
    Over every run whose updates keep of each name's held rules none but the last, the requests routed to a name are
    exactly those reported for it, those discarded when its rule was changed or removed, and those still pending.
   */
  lemma {:induction false} CountsConserved(start: real, ops: seq<Op>, name: string)
    requires forall i | 0 <= i < |ops| :: Conserving(Run(CacheState([], start), ops[..i]), ops[i], name)
    ensures var c := CacheState([], start);
            var t := Total(c, ops, name);
            t.routed == t.reported + t.discarded + Pending(Run(c, ops).appliers, name)
  {
    if ops != [] {
      var c, before := CacheState([], start), ops[..|ops| - 1];
      forall i | 0 <= i < |before|
        ensures Conserving(Run(c, before[..i]), before[i], name)
      {
        assert before[..i] == ops[..i];
      }
      CountsConserved(start, before, name);
      OperationConserves(Run(c, before), ops[|ops| - 1], name);
    }
  }

  /** Every rule update of a run names each supported rule once. */
  predicate UpdatesNameRulesOnce(ops: seq<Op>) {
    forall i | 0 <= i < |ops| && ops[i].UpdateRules? :: NamesDistinct(SupportedRules(ops[i].rules))
  }

  lemma {:induction false} LastUpdateIsAnUpdate(ops: seq<Op>)
    requires UpdatesNameRulesOnce(ops)
    ensures NamesDistinct(SupportedRules(LastUpdate(ops)))
  {
    if ops != [] && !ops[|ops| - 1].UpdateRules? {
      LastUpdateIsAnUpdate(ops[..|ops| - 1]);
    }
  }

  /** In particular counts are conserved over every run whose updates name rules once. */
  lemma CountsConservedWithDistinctNames(start: real, ops: seq<Op>, name: string)
    requires UpdatesNameRulesOnce(ops)
    ensures var c := CacheState([], start);
            var t := Total(c, ops, name);
            && NamesDistinct(RulesOf(Run(c, ops).appliers))
            && t.routed == t.reported + t.discarded + Pending(Run(c, ops).appliers, name)
  {
    var c := CacheState([], start);
    forall i | 0 <= i < |ops|
      ensures Conserving(Run(c, ops[..i]), ops[i], name)
    {
      HeldNamesAreDistinct(start, ops[..i]);
    }
    HeldNamesAreDistinct(start, ops);
    CountsConserved(start, ops, name);
  }

  lemma HeldNamesAreDistinct(start: real, ops: seq<Op>)
    requires UpdatesNameRulesOnce(ops)
    ensures NamesDistinct(RulesOf(Run(CacheState([], start), ops).appliers))
  {
    CacheHoldsLastUpdate(start, ops);
    LastUpdateIsAnUpdate(ops);
  }

  lemma {:induction false} NothingDropped(appliers: seq<ApplierState>, kept: seq<SamplingRule>, name: string)
    requires forall i | 0 <= i < |appliers| && appliers[i].rule.ruleName == name :: appliers[i].rule in kept
    ensures Dropped(appliers, kept, name) == 0
  {
    if appliers != [] {
      NothingDropped(appliers[1..], kept, name);
    }
  }

  /** An update discards nothing of a rule it repeats unchanged, and leaves that rule's applier as it was. */
  lemma UnchangedRulesKeepEverything(c: CacheState, rules: seq<SamplingRule>, now: real, i: nat)
    requires i < |c.appliers| && NamesDistinct(RulesOf(c.appliers))
    requires c.appliers[i].rule in SupportedRules(rules)
    ensures c.appliers[i] in WithRules(c, rules, now).appliers
    ensures Entry(c, UpdateRules(rules, now), c.appliers[i].rule.ruleName).discarded == 0
  {
    var rule, kept, held := c.appliers[i].rule, SupportedRules(rules), RulesOf(c.appliers);
    var m :| 0 <= m < |kept| && kept[m] == rule;
    assert held[i] == rule;
    assert LastNamed(held, rule.ruleName) == i;
    assert WithRules(c, rules, now).appliers[m] == c.appliers[i];
    assert forall j | 0 <= j < |c.appliers| :: held[j] == c.appliers[j].rule;
    NothingDropped(c.appliers, kept, rule.ruleName);
  }

  /** Names must be distinct: of two rules sharing one, the first loses its count in an update that changes nothing. */
  lemma SharedNamesLoseCounts(a: SamplingRule, b: SamplingRule, f: Facts, start: real)
    requires Supported(a) && Supported(b) && a.ruleName == b.ruleName && RuleLess(a, b) && RuleMatches(a, f)
    ensures var ops := [UpdateRules([a, b], start), Route(f, start, NEVER)];
            && Pending(Run(CacheState([], start), ops).appliers, a.ruleName) == 1
            && Pending(Run(CacheState([], start), ops + [UpdateRules([a, b], start)]).appliers, a.ruleName) == 0
  {
    var empty, update, route := CacheState([], start), UpdateRules([a, b], start), Route(f, start, NEVER);
    SortOfTwo(a, b);
    var c1 := Do(empty, update);
    assert c1.appliers == [Untargeted(a, start), Untargeted(b, start)];
    assert RulesOf(c1.appliers) == [a, b];
    var c2 := Do(c1, route);
    assert c2.appliers == [Sampled(Untargeted(a, start), start, NEVER), Untargeted(b, start)];
    var c3 := Do(c2, update);
    assert RulesOf(c2.appliers) == [a, b];
    assert c3.appliers == [Untargeted(a, start), Untargeted(b, start)];
    assert [update][..0] == [] && [update, route][..1] == [update];
    assert [update, route, update][..2] == [update, route] && [update, route] + [update] == [update, route, update];
    assert Run(empty, [update]) == c1;
    assert Run(empty, [update, route]) == Do(Run(empty, [update, route][..1]), route) == c2;
    assert Run(empty, [update, route, update]) == c3;
    var rest := [Untargeted(b, start)];
    assert c2.appliers[1..] == rest == c3.appliers[1..];
    assert Pending(rest, a.ruleName) == 0 + Pending(rest[1..], a.ruleName);
    assert Pending(c2.appliers, a.ruleName) == 1;
  }

  lemma SortOfTwo(a: SamplingRule, b: SamplingRule)
    requires Supported(a) && Supported(b) && RuleLess(a, b)
    ensures SupportedRules([a, b]) == [a, b]
  {
    StringLessOrders(a.ruleName, b.ruleName, "");
    assert [a, b][1..] == [b] && [b][1..] == [];
    assert Sort(RuleLess, [b]) == [b];
    assert Sort(RuleLess, [a, b]) == [a, b];
    assert Filter(Supported, [b]) == [b] + Filter(Supported, []);
  }

  predicate CountsOrdered(c: Counts) { c.borrow <= c.sample <= c.request }

  predicate AllOrdered(appliers: seq<ApplierState>) {
    forall i | 0 <= i < |appliers| :: CountsOrdered(appliers[i].counts)
  }

  lemma StepKeepsOrder(c: CacheState, op: Op)
    requires AllOrdered(c.appliers)
    ensures AllOrdered(Do(c, op).appliers)
  {
    if op.UpdateRules? {
      var kept := SupportedRules(op.rules);
      assert Do(c, op).appliers == InstalledAll(c.appliers, kept, op.now);
    }
  }

  /** In every reachable state every report has BorrowCount <= SampleCount <= RequestCount. */
  lemma {:induction false} ReportsAreOrdered(start: real, ops: seq<Op>, now: real)
    ensures var c := Run(CacheState([], start), ops);
            AllOrdered(c.appliers) && forall i | 0 <= i < |c.appliers| :: CountsOrdered(Reports(c, now)[i].counts)
  {
    if ops != [] {
      ReportsAreOrdered(start, ops[..|ops| - 1], now);
      StepKeepsOrder(Run(CacheState([], start), ops[..|ops| - 1]), ops[|ops| - 1]);
    }
  }

  // ---------- The cache object ----------

  method MatchRule(rule: SamplingRule, f: Facts) returns (matched: bool)
    ensures matched == RuleMatches(rule, f)
  {
    matched := Matcher.AttributeMatch(f.attributes, Some(rule.attributes));
    if matched {
      matched := Matcher.WildCardMatch(f.urlPath, Some(rule.urlPath));
    }
    if matched {
      matched := Matcher.WildCardMatch(f.httpMethod, Some(rule.httpMethod));
    }
    if matched {
      matched := Matcher.WildCardMatch(f.serverAddress, Some(rule.host));
    }
    if matched {
      matched := Matcher.WildCardMatch(f.serviceName, Some(rule.serviceName));
    }
    if matched {
      matched := Matcher.WildCardMatch(Some(f.serviceType), Some(rule.serviceType));
    }
    if matched {
      matched := Matcher.WildCardMatch(Some(f.arn), Some(rule.resourceARN));
    }
  }

  /** The limiters and documents of a list of appliers. */
  ghost function Owned(appliers: seq<Applier>): set<object>
    reads appliers
  {
    (set a | a in appliers :: a.reservoir as object) + (set a | a in appliers :: a.statistics as object)
  }

  /** An applier's rule never changes, so which rules are held does not depend on the heap. */
  ghost function HeldRules(appliers: seq<Applier>): seq<SamplingRule> {
    seq(|appliers|, i requires 0 <= i < |appliers| => appliers[i].rule)
  }

  ghost function Views(appliers: seq<Applier>): (views: seq<ApplierState>)
    reads appliers, Owned(appliers)
    ensures |views| == |appliers| && RulesOf(views) == HeldRules(appliers)
  {
    seq(|appliers|, i requires 0 <= i < |appliers| reads appliers, Owned(appliers) => appliers[i].View())
  }

  ghost predicate AllValid(appliers: seq<Applier>)
    reads appliers
  {
    forall i | 0 <= i < |appliers| :: appliers[i].Valid()
  }

  /** No two positions share a limiter or a document, nor therefore an applier. */
  ghost predicate Apart(appliers: seq<Applier>)
    reads appliers
  {
    forall i, j | 0 <= i < j < |appliers| ::
      && appliers[i].reservoir != appliers[j].reservoir
      && appliers[i].statistics != appliers[j].statistics
  }

  /** The last of the first appliers, whose rules are given, under each name. */
  ghost predicate IndexesFirst(byName: map<string, Applier>, appliers: seq<Applier>, rules: seq<SamplingRule>)
    requires |rules| <= |appliers|
  {
    && (forall name :: name in byName <==> LastNamed(rules, name) < |rules|)
    && (forall name | name in byName :: byName[name] == appliers[LastNamed(rules, name)])
  }

  lemma LastNamedOneMore(rules: seq<SamplingRule>, n: nat, name: string)
    requires n < |rules|
    ensures var i := LastNamed(rules[..n], name);
            LastNamed(rules[..n + 1], name) == if rules[n].ruleName == name then n else if i < n then i else n + 1
  {
    assert rules[..n + 1][..n] == rules[..n];
  }

  lemma OneMoreIndexed(byName: map<string, Applier>, appliers: seq<Applier>, rules: seq<SamplingRule>, n: nat)
    requires n < |rules| == |appliers| && IndexesFirst(byName, appliers, rules[..n])
    ensures IndexesFirst(byName[rules[n].ruleName := appliers[n]], appliers, rules[..n + 1])
  {
    forall name
      ensures LastNamed(rules[..n + 1], name) ==
              var i := LastNamed(rules[..n], name);
              if rules[n].ruleName == name then n else if i < n then i else n + 1
    {
      LastNamedOneMore(rules, n, name);
    }
  }

  /** Each applier has its predecessor's document, and shares a limiter only where predecessors do. */
  ghost predicate Successors(appliers: seq<Applier>, next: seq<Applier>)
    requires |next| <= |appliers|
    reads appliers, next
  {
    && (forall i | 0 <= i < |next| :: next[i].statistics == appliers[i].statistics)
    && forall i, j | 0 <= i < j < |next| ::
         next[i].reservoir != next[j].reservoir || appliers[i].reservoir == appliers[j].reservoir
  }

  lemma OneMoreSuccessor(appliers: seq<Applier>, next: seq<Applier>, a: Applier)
    requires |next| < |appliers| && Successors(appliers, next) && a.statistics == appliers[|next|].statistics
    requires forall i | 0 <= i < |next| ::
               next[i].reservoir != a.reservoir || appliers[i].reservoir == appliers[|next|].reservoir
    ensures Successors(appliers, next + [a])
  {
  }

  lemma AllTargeted(appliers: seq<Applier>, next: seq<Applier>, c: CacheState, targets: seq<SamplingTarget>, now: real)
    requires |next| == |appliers| && Successors(appliers, next) && c.appliers == Views(appliers)
    requires forall k | 0 <= k < |next| :: next[k].View() == Targeted(appliers[k].View(), targets, now)
    ensures Views(next) == Do(c, UpdateTargets(targets, now)).appliers
    ensures Apart(appliers) ==> Apart(next)
  {
  }

  ghost predicate Shares(a: Applier, b: Applier)
    reads a, b
  {
    a.reservoir == b.reservoir || a.statistics == b.statistics
  }

  /** The chosen applier, if any, has sampled a request, and those that share nothing with it are as they were. */
  ghost predicate ChangedAlong(appliers: seq<Applier>, i: nat, before: seq<ApplierState>, after: seq<ApplierState>,
                               now: real, verdict: Verdict)
    requires |before| == |after| == |appliers|
    reads appliers
  {
    && (i < |appliers| ==> after[i] == Sampled(before[i], now, verdict))
    && forall k | 0 <= k < |appliers| && (i < |appliers| ==> !Shares(appliers[k], appliers[i])) :: after[k] == before[k]
  }

  lemma ApartChange(appliers: seq<Applier>, i: nat, before: seq<ApplierState>, after: seq<ApplierState>,
                    now: real, verdict: Verdict)
    requires |before| == |after| == |appliers| && Apart(appliers)
    requires ChangedAlong(appliers, i, before, after, now, verdict)
    ensures after == if i < |before| then before[i := Sampled(before[i], now, verdict)] else before
  {
    assert i < |appliers| ==> forall k | 0 <= k < |appliers| && k != i :: !Shares(appliers[k], appliers[i]);
  }

  lemma RoutedIs(c: CacheState, held: seq<SamplingRule>, f: Facts, i: nat, after: seq<ApplierState>, now: real,
                 verdict: Verdict)
    requires held == RulesOf(c.appliers) && i == FirstMatch(held, f)
    requires after == if i < |c.appliers| then c.appliers[i := Sampled(c.appliers[i], now, verdict)]
                      else c.appliers
    ensures CacheState(after, c.lastModified) == Do(c, Route(f, now, verdict))
  {
  }

  /** The old applier if it holds the very same rule, else the new one. */
  ghost function Keep(held: seq<Applier>, created: Applier): Applier {
    var i := LastNamed(HeldRules(held), created.rule.ruleName);
    if i < |held| && held[i].rule == created.rule then held[i] else created
  }

  /** Keeping old appliers of different rules leaves all appliers apart, even of rules that share a name. */
  lemma KeptAppliersStayApart(held: seq<Applier>, created: seq<Applier>, result: seq<Applier>)
    requires Apart(held) && Apart(created) && |result| == |created|
    requires forall a, b | a in held && b in created ::
               a.reservoir != b.reservoir && a.statistics != b.statistics
    requires RulesDistinct(HeldRules(created))
    requires forall k | 0 <= k < |created| :: result[k] == Keep(held, created[k])
    ensures Apart(result)
  {
    var rules := HeldRules(held);
    forall i, j | 0 <= i < j < |result|
      ensures && result[i].reservoir != result[j].reservoir
              && result[i].statistics != result[j].statistics
    {
      assert HeldRules(created)[i] == created[i].rule && HeldRules(created)[j] == created[j].rule;
      assert created[i].rule != created[j].rule;
    }
  }

  /** Where a new rule repeats the last old rule of its name, the old applier itself is kept. */
  ghost predicate KeepsUnchanged(held: seq<Applier>, result: seq<Applier>) {
    forall k | 0 <= k < |result| :: Keep(held, result[k]) == result[k]
  }

  lemma KeptViews(c: CacheState, held: seq<Applier>, created: seq<Applier>, result: seq<Applier>,
                  newRules: seq<SamplingRule>, now: real)
    requires c.appliers == Views(held) && |result| == |created| == |SupportedRules(newRules)|
    requires forall k | 0 <= k < |created| :: created[k].View() == Untargeted(SupportedRules(newRules)[k], now)
    requires forall k | 0 <= k < |created| :: result[k] == Keep(held, created[k])
    ensures Views(result) == WithRules(c, newRules, now).appliers
    ensures HeldRules(created) == SupportedRules(newRules)
    ensures KeepsUnchanged(held, result)
    ensures AllValid(held) && AllValid(created) ==> AllValid(result)
  {
    var kept, rules := SupportedRules(newRules), HeldRules(held);
    forall k | 0 <= k < |created|
      ensures created[k].rule == kept[k] && Views(result)[k] == Installed(c.appliers, kept[k], now)
    {
      assert created[k].View().rule == kept[k];
      var i := LastNamed(rules, kept[k].ruleName);
      assert i < |rules| ==> rules[i] == held[i].rule && c.appliers[i] == held[i].View();
    }
  }

  class RuleCache {
    var ruleAppliers: seq<Applier>
    var lastModified: real

    ghost function View(): CacheState
      reads this, ruleAppliers, Owned(ruleAppliers)
    {
      CacheState(Views(ruleAppliers), lastModified)
    }

    ghost predicate Valid()
      reads this, ruleAppliers
    {
      AllValid(ruleAppliers)
    }

    constructor (now: real)
      ensures Valid() && Apart(ruleAppliers) && View() == CacheState([], now)
    {
      ruleAppliers, lastModified := [], now;
    }

    /**
      `fallbackSamples` is the fallback sampler's verdict, used only when no rule matches.  Only an applier that is, or
      shares with, the chosen one can change along with it.
     */
    method ShouldSample(f: Facts, now: real, verdict: Verdict, fallbackSamples: bool) returns (sampled: bool)
      requires Valid()
      modifies Owned(ruleAppliers)
      ensures Valid() && ruleAppliers == old(ruleAppliers) && (old(Apart(ruleAppliers)) ==> Apart(ruleAppliers))
      ensures var c, i := old(View()), FirstMatch(HeldRules(ruleAppliers), f);
              && (OneLine(f) ==> IsFirstMet(HeldRules(ruleAppliers), f, i))
              && (sampled <==> if i == |c.appliers| then fallbackSamples
                               else ReservoirAdmits(c.appliers[i], now) || verdict(c.appliers[i].fixedRate))
              && ChangedAlong(ruleAppliers, i, c.appliers, Views(ruleAppliers), now, verdict)
      ensures old(Apart(ruleAppliers)) ==> View() == Do(old(View()), Route(f, now, verdict))
    {
      ghost var before := View();
      ghost var i;
      sampled, i := SampleFirstMatch(f, now, verdict, fallbackSamples);
      FirstMatchIsFirstMet(HeldRules(ruleAppliers), f);
      if Apart(ruleAppliers) {
        ApartIsRouted(before, f, i, now, verdict);
      }
    }

    method SampleFirstMatch(f: Facts, now: real, verdict: Verdict, fallbackSamples: bool)
      returns (sampled: bool, ghost i: nat)
      requires Valid()
      modifies Owned(ruleAppliers)
      ensures Valid() && (old(Apart(ruleAppliers)) ==> Apart(ruleAppliers))
      ensures i == FirstMatch(HeldRules(ruleAppliers), f)
      ensures ChangedAlong(ruleAppliers, i, old(Views(ruleAppliers)), Views(ruleAppliers), now, verdict)
      ensures sampled <==> if i == |ruleAppliers| then fallbackSamples
                           else ReservoirAdmits(old(Views(ruleAppliers))[i], now) || verdict(ruleAppliers[i].fixedRate)
    {
      var found := FindApplier(f);
      i := found;
      if found == |ruleAppliers| {
        return fallbackSamples, i;
      }
      sampled := ruleAppliers[found].ShouldSample(now, verdict);
    }

    lemma ApartIsRouted(before: CacheState, f: Facts, i: nat, now: real, verdict: Verdict)
      requires Apart(ruleAppliers) && |before.appliers| == |ruleAppliers| && before.lastModified == lastModified
      requires RulesOf(before.appliers) == HeldRules(ruleAppliers) && i == FirstMatch(HeldRules(ruleAppliers), f)
      requires ChangedAlong(ruleAppliers, i, before.appliers, Views(ruleAppliers), now, verdict)
      ensures View() == Do(before, Route(f, now, verdict))
    {
      ApartChange(ruleAppliers, i, before.appliers, Views(ruleAppliers), now, verdict);
      RoutedIs(before, HeldRules(ruleAppliers), f, i, Views(ruleAppliers), now, verdict);
    }

    method AppliersByName() returns (byName: map<string, Applier>)
      ensures IndexesFirst(byName, ruleAppliers, HeldRules(ruleAppliers))
    {
      byName := map[];
      for i := 0 to |ruleAppliers|
        invariant IndexesFirst(byName, ruleAppliers, HeldRules(ruleAppliers)[..i])
      {
        OneMoreIndexed(byName, ruleAppliers, HeldRules(ruleAppliers), i);
        byName := byName[ruleAppliers[i].rule.ruleName := ruleAppliers[i]];
      }
      TakeAll(HeldRules(ruleAppliers));
    }

    method FindApplier(f: Facts) returns (i: nat)
      ensures i == FirstMatch(HeldRules(ruleAppliers), f)
    {
      ghost var rules := HeldRules(ruleAppliers);
      i := 0;
      while i < |ruleAppliers|
        invariant i <= |ruleAppliers| && forall j | 0 <= j < i :: !RuleMatches(rules[j], f)
      {
        var matched := MatchRule(ruleAppliers[i].rule, f);
        if matched {
          assert rules[i] == ruleAppliers[i].rule;
          return;
        }
        i := i + 1;
      }
    }

    method UpdateSamplingRules(newSamplingRules: seq<SamplingRule>, now: real)
      requires Valid()
      modifies this
      ensures Valid() && View() == Do(old(View()), UpdateRules(newSamplingRules, now))
      ensures old(Apart(ruleAppliers)) && RulesDistinct(SupportedRules(newSamplingRules)) ==> Apart(ruleAppliers)
      ensures KeepsUnchanged(old(ruleAppliers), ruleAppliers)
    {
      ghost var next := WithRules(View(), newSamplingRules, now);
      var kept := UpdatedAppliers(newSamplingRules, now);
      assert next == CacheState(Views(kept), now);
      Install(kept, now);
      assert View() == next;
    }

    method UpdatedAppliers(newSamplingRules: seq<SamplingRule>, now: real) returns (kept: seq<Applier>)
      requires Valid()
      ensures AllValid(kept) && Views(kept) == WithRules(View(), newSamplingRules, now).appliers
      ensures Apart(ruleAppliers) && RulesDistinct(SupportedRules(newSamplingRules)) ==> Apart(kept)
      ensures KeepsUnchanged(ruleAppliers, kept)
    {
      var created := NewAppliers(Sort(RuleLess, newSamplingRules), now);
      var byName := AppliersByName();
      kept := KeepUnchanged(created, byName);
      KeptViews(View(), ruleAppliers, created, kept, newSamplingRules, now);
      if Apart(ruleAppliers) && RulesDistinct(SupportedRules(newSamplingRules)) {
        KeptAppliersStayApart(ruleAppliers, created, kept);
      }
    }

    method Install(appliers: seq<Applier>, now: real)
      requires AllValid(appliers)
      modifies this
      ensures ruleAppliers == appliers && Valid() && View() == CacheState(old(Views(appliers)), now)
      ensures old(Apart(appliers)) ==> Apart(appliers)
    {
      ruleAppliers := appliers;
      lastModified := now;
    }

    /** If a sampling rule has not changed, its old applier takes the new one's place. */
    method KeepUnchanged(created: seq<Applier>, byName: map<string, Applier>) returns (kept: seq<Applier>)
      requires IndexesFirst(byName, ruleAppliers, HeldRules(ruleAppliers))
      ensures |kept| == |created|
      ensures forall k | 0 <= k < |kept| :: kept[k] == Keep(ruleAppliers, created[k])
    {
      kept := created;
      for index := 0 to |kept|
        invariant |kept| == |created|
        invariant forall k | index <= k < |kept| :: kept[k] == created[k]
        invariant forall k | 0 <= k < index :: kept[k] == Keep(ruleAppliers, created[k])
      {
        var name := kept[index].rule.ruleName;
        if name in byName {
          var oldApplier := byName[name];
          if kept[index].rule == oldApplier.rule {
            kept := kept[index := oldApplier];
          }
        }
      }
    }

    method UpdateSamplingTargets(targets: seq<SamplingTarget>, lastRuleModification: real, now: real)
      returns (refreshRules: bool, nextPollingInterval: int)
      requires Valid()
      modifies this
      ensures Valid() && (old(Apart(ruleAppliers)) ==> Apart(ruleAppliers))
      ensures View() == Do(old(View()), UpdateTargets(targets, now))
      ensures refreshRules <==> lastRuleModification * SECOND > lastModified
      ensures nextPollingInterval == LeastInterval(HeldRules(old(ruleAppliers)), targets).GetOr(10)
    {
      var targetMap: map<string, SamplingTarget> := map[];
      for i := 0 to |targets|
        invariant ruleAppliers == old(ruleAppliers) && lastModified == old(lastModified)
        invariant forall name :: name in targetMap <==> TargetFor(targets[..i], name).Some?
        invariant forall name | name in targetMap :: TargetFor(targets[..i], name) == Some(targetMap[name])
      {
        assert targets[..i + 1][..i] == targets[..i];
        targetMap := targetMap[targets[i].ruleName := targets[i]];
      }
      assert targets[..|targets|] == targets;
      var minPollingInterval := MinPollingInterval(targetMap, targets);
      var newAppliers := RetargetAll(targetMap, targets, now);
      assert Views(newAppliers) == Do(old(View()), UpdateTargets(targets, now)).appliers;
      Install(newAppliers, lastModified);
      nextPollingInterval := minPollingInterval.GetOr(10);
      refreshRules := lastRuleModification * SECOND > lastModified;
    }

    /** A new applier for each one that has a target. */
    method RetargetAll(targetMap: map<string, SamplingTarget>, ghost targets: seq<SamplingTarget>, now: real)
      returns (newAppliers: seq<Applier>)
      requires Valid()
      requires forall name :: name in targetMap <==> TargetFor(targets, name).Some?
      requires forall name | name in targetMap :: TargetFor(targets, name) == Some(targetMap[name])
      ensures |newAppliers| == |ruleAppliers| && AllValid(newAppliers)
      ensures Apart(ruleAppliers) ==> Apart(newAppliers)
      ensures Views(newAppliers) == Do(View(), UpdateTargets(targets, now)).appliers
    {
      newAppliers := [];
      for i := 0 to |ruleAppliers|
        invariant |newAppliers| == i && AllValid(newAppliers) && Successors(ruleAppliers, newAppliers)
        invariant forall k | 0 <= k < i ::
                    newAppliers[k].reservoir == ruleAppliers[k].reservoir || fresh(newAppliers[k].reservoir)
        invariant forall k | 0 <= k < i :: newAppliers[k].View() == Targeted(ruleAppliers[k].View(), targets, now)
      {
        var applier := RetargetOne(ruleAppliers[i], targetMap, targets, now);
        OneMoreSuccessor(ruleAppliers, newAppliers, applier);
        newAppliers := newAppliers + [applier];
      }
      AllTargeted(ruleAppliers, newAppliers, View(), targets, now);
    }

    method RetargetOne(applier: Applier, targetMap: map<string, SamplingTarget>, ghost targets: seq<SamplingTarget>,
                       now: real)
      returns (applier': Applier)
      requires applier.Valid()
      requires forall name :: name in targetMap <==> TargetFor(targets, name).Some?
      requires forall name | name in targetMap :: TargetFor(targets, name) == Some(targetMap[name])
      ensures applier'.Valid() && applier'.View() == Targeted(applier.View(), targets, now)
      ensures applier'.statistics == applier.statistics
      ensures applier'.reservoir == applier.reservoir || fresh(applier'.reservoir)
    {
      assert applier.View().rule == applier.rule;
      applier' := applier;
      if applier.rule.ruleName in targetMap {
        applier' := applier.WithTarget(targetMap[applier.rule.ruleName], now);
      }
    }

    /** The least of the intervals of the targets of held rules. */
    method MinPollingInterval(targetMap: map<string, SamplingTarget>, ghost targets: seq<SamplingTarget>)
      returns (interval: Option<int>)
      requires forall name :: name in targetMap <==> TargetFor(targets, name).Some?
      requires forall name | name in targetMap :: TargetFor(targets, name) == Some(targetMap[name])
      ensures interval == LeastInterval(HeldRules(ruleAppliers), targets)
    {
      ghost var held := HeldRules(ruleAppliers);
      interval := None;
      for i := 0 to |ruleAppliers|
        invariant interval == LeastInterval(held[..i], targets)
      {
        assert held[..i + 1][..i] == held[..i];
        var name := ruleAppliers[i].rule.ruleName;
        if name in targetMap {
          var target := targetMap[name];
          if target.interval.Some? && (interval.None? || interval.value > target.interval.value) {
            interval := target.interval;
          }
        }
      }
      assert held[..|ruleAppliers|] == held;
    }

    /** An applier that comes again has nothing left to report. */
    method GetAllStatistics(now: real) returns (allStatistics: seq<Report>)
      requires Valid()
      modifies ruleAppliers
      ensures Valid() && ruleAppliers == old(ruleAppliers) && View() == Do(old(View()), ReportAll(now))
      ensures allStatistics == ReportsOf(ruleAppliers, old(Views(ruleAppliers)), now)
      ensures old(Apart(ruleAppliers)) ==> Apart(ruleAppliers) && allStatistics == Reports(old(View()), now)
    {
      ghost var before := View();
      allStatistics := CollectStatistics(now);
      AllReset(ruleAppliers, before, now);
    }

    method CollectStatistics(now: real) returns (allStatistics: seq<Report>)
      requires Valid()
      modifies ruleAppliers
      ensures Valid() && ruleAppliers == old(ruleAppliers) && (old(Apart(ruleAppliers)) ==> Apart(ruleAppliers))
      ensures Views(ruleAppliers) == After(Reset, ruleAppliers, old(Views(ruleAppliers)), |ruleAppliers|)
      ensures allStatistics == ReportsOf(ruleAppliers, old(Views(ruleAppliers)), now)
    {
      allStatistics := [];
      ghost var before := Views(ruleAppliers);
      for i := 0 to |ruleAppliers|
        invariant ruleAppliers == old(ruleAppliers) && Valid() && (old(Apart(ruleAppliers)) ==> Apart(ruleAppliers))
        invariant allStatistics == ReportsOf(ruleAppliers, before, now)[..i]
        invariant Views(ruleAppliers) == After(Reset, ruleAppliers, before, i)
      {
        var report := ReportAt(i, now, before);
        TakeOneMore(ReportsOf(ruleAppliers, before, now), i);
        allStatistics := allStatistics + [report];
      }
      TakeAll(ReportsOf(ruleAppliers, before, now));
    }

    method ReportAt(i: nat, now: real, ghost before: seq<ApplierState>) returns (report: Report)
      requires Valid() && i < |ruleAppliers| == |before| && SameItemSameView(ruleAppliers, before)
      requires Views(ruleAppliers) == After(Reset, ruleAppliers, before, i)
      modifies ruleAppliers
      ensures Valid() && ruleAppliers == old(ruleAppliers)
      ensures old(Apart(ruleAppliers)) ==> Apart(ruleAppliers)
      ensures Views(ruleAppliers) == After(Reset, ruleAppliers, before, i + 1)
      ensures report == ReportsOf(ruleAppliers, before, now)[i]
    {
      ghost var earlier := Views(ruleAppliers);
      report := ruleAppliers[i].GetThenResetStatistics(now);
      OneMore(Reset, ruleAppliers, before, earlier, Views(ruleAppliers), i);
    }
  }

  lemma AllReset(appliers: seq<Applier>, before: CacheState, now: real)
    requires |appliers| == |before.appliers| && RulesOf(before.appliers) == HeldRules(appliers)
    ensures After(Reset, appliers, before.appliers, |appliers|) == Do(before, ReportAll(now)).appliers
    ensures Apart(appliers) ==> ReportsOf(appliers, before.appliers, now) == Reports(before, now)
  {
    var reset := After(Reset, appliers, before.appliers, |appliers|);
    TakeAll(appliers);
    forall i | 0 <= i < |appliers|
      ensures reset[i] == Reset(before.appliers[i])
      ensures Apart(appliers) ==> ReportsOf(appliers, before.appliers, now)[i] == Reports(before, now)[i]
    {
      assert HeldRules(appliers)[i] == appliers[i].rule;
    }
  }

  /** What is reported for appliers, of which some may be one object. */
  ghost function ReportsOf(appliers: seq<Applier>, views: seq<ApplierState>, now: real): seq<Report>
    requires |views| == |appliers|
  {
    seq(|appliers|, i requires 0 <= i < |appliers| =>
      Report(appliers[i].rule.ruleName, now, if appliers[i] in appliers[..i] then NO_COUNTS else views[i].counts))
  }

  /** New appliers for the supported ones of a sorted list of rules. */
  method NewAppliers(sorted: seq<SamplingRule>, now: real) returns (appliers: seq<Applier>)
    ensures |appliers| == |Filter(Supported, sorted)|
    ensures forall k | 0 <= k < |appliers| ::
              && fresh(appliers[k]) && fresh(appliers[k].reservoir) && fresh(appliers[k].statistics)
              && appliers[k].View() == Untargeted(Filter(Supported, sorted)[k], now)
    ensures Apart(appliers) && AllValid(appliers)
  {
    appliers := [];
    for i := 0 to |sorted|
      invariant |appliers| == |Filter(Supported, sorted[..i])|
      invariant forall k | 0 <= k < |appliers| ::
                  && fresh(appliers[k]) && fresh(appliers[k].reservoir) && fresh(appliers[k].statistics)
                  && appliers[k].Valid() && appliers[k].View() == Untargeted(Filter(Supported, sorted[..i])[k], now)
      invariant Apart(appliers)
    {
      assert sorted[..i + 1] == sorted[..i] + [sorted[i]];
      FilterSplits(Supported, sorted[..i], [sorted[i]]);
      assert [sorted[i]][1..] == [];
      if sorted[i].ruleName == "" {
        continue;
      }
      if sorted[i].version != 1 {
        continue;
      }
      var applier := new Applier(sorted[i], now);
      appliers := appliers + [applier];
    }
    assert sorted[..|sorted|] == sorted;
  }

  /** The least polling interval among the targets of held rules. */
  function LeastInterval(rules: seq<SamplingRule>, targets: seq<SamplingTarget>): Option<int> {
    if rules == [] then None
    else
      var least := LeastInterval(rules[..|rules| - 1], targets);
      var t := TargetFor(targets, rules[|rules| - 1].ruleName);
      if t.Some? && t.value.interval.Some? && (least.None? || least.value > t.value.interval.value)
      then t.value.interval else least
  }

  /** A polling interval that the targets give for one of the rules. */
  predicate IsInterval(rules: seq<SamplingRule>, targets: seq<SamplingTarget>, k: nat, interval: int)
    requires k < |rules|
  {
    var t := TargetFor(targets, rules[k].ruleName);
    t.Some? && t.value.interval == Some(interval)
  }

  /** The least interval is given for some held rule, and none given for another is less. */
  lemma {:induction false} LeastIntervalIsLeast(rules: seq<SamplingRule>, targets: seq<SamplingTarget>)
    ensures var least := LeastInterval(rules, targets);
            && (least.Some? ==> exists k: nat :: k < |rules| && IsInterval(rules, targets, k, least.value))
            && forall k: nat, interval | k < |rules| && IsInterval(rules, targets, k, interval) ::
                 least.Some? && least.value <= interval
  {
    if rules != [] {
      var init, n := rules[..|rules| - 1], |rules| - 1;
      LeastIntervalIsLeast(init, targets);
      var least, before := LeastInterval(rules, targets), LeastInterval(init, targets);
      forall k: nat, interval | k < |rules| && IsInterval(rules, targets, k, interval)
        ensures least.Some? && least.value <= interval
      {
        if k < n {
          assert IsInterval(init, targets, k, interval);
        }
      }
      if least.Some? {
        if least == before {
          var k: nat :| k < |init| && IsInterval(init, targets, k, least.value);
          assert IsInterval(rules, targets, k, least.value);
        } else {
          assert IsInterval(rules, targets, n, least.value);
        }
      }
    }
  }
}
