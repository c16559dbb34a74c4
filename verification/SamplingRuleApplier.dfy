/** Sampling rules, targets, statistics documents, and the applier that samples one rule's requests. */
module SamplingRuleApplier {
  import opened Wrappers
  import opened RateLimiter

  /** A rule after the constructor has replaced missing fields by their defaults. */
  datatype SamplingRule = SamplingRule(
    attributes: map<string, string>, fixedRate: real, httpMethod: string, host: string, priority: int,
    reservoirSize: int, resourceARN: string, ruleARN: string, ruleName: string, serviceName: string,
    serviceType: string, urlPath: string, version: int)

  datatype SamplingTarget = SamplingTarget(
    ruleName: string, fixedRate: real, interval: Option<int>, reservoirQuota: Option<int>,
    reservoirQuotaTTL: Option<real>)

  datatype Counts = Counts(request: nat, borrow: nat, sample: nat)

  const NO_COUNTS := Counts(0, 0, 0)

  /** What a statistics document looks like on the wire. */
  datatype Report = Report(ruleName: string, timestamp: real, counts: Counts)

  /** The latest representable time, or a reading in milliseconds. */
  datatype Expiry = EndOfTime | At(millis: real)

  predicate Expired(e: Expiry, now: real) { e.At? && now >= e.millis }

  /** The value of an applier object together with the objects it owns. */
  datatype ApplierState = ApplierState(
    rule: SamplingRule, wallet: Wallet, fixedRate: real, borrowing: bool, expiry: Expiry, counts: Counts)

  const SECOND := 1000.0

  /** What the fixed-rate sampler says of a request, at each rate. */
  type Verdict = real -> bool

  function NewWallet(quota: int, now: real): Wallet { Wallet(1000.0, quota, now) }

  /** An applier without a target borrows one request a second, if the rule has a reservoir at all. */
  function Untargeted(rule: SamplingRule, now: real): ApplierState {
    var borrows := rule.reservoirSize > 0;
    ApplierState(rule, NewWallet(if borrows then 1 else 0, now), rule.fixedRate, borrows, EndOfTime, NO_COUNTS)
  }

  /** A target brings a new limiter, rate and expiry; rule and counts are handed on. */
  function Retargeted(a: ApplierState, target: SamplingTarget, now: real): ApplierState {
    ApplierState(a.rule,
                 NewWallet(if target.reservoirQuota.Some? then target.reservoirQuota.value else 0, now),
                 target.fixedRate, false,
                 At(if target.reservoirQuotaTTL.Some? then target.reservoirQuotaTTL.value * SECOND else now),
                 a.counts)
  }

  /** Whether the reservoir itself lets a request at `now` through. */
  predicate ReservoirAdmits(a: ApplierState, now: real) {
    !Expired(a.expiry, now) && Spend(a.wallet, Call(1.0, now)).granted
  }

  /** One request; the fixed-rate sampler is asked what it says at the applier's rate. */
  function Sampled(a: ApplierState, now: real, verdict: Verdict): ApplierState {
    var admitted := ReservoirAdmits(a, now);
    a.(wallet := if Expired(a.expiry, now) then a.wallet else Spend(a.wallet, Call(1.0, now)).wallet,
       counts := Counts(a.counts.request + 1,
                        a.counts.borrow + (if admitted && a.borrowing then 1 else 0),
                        a.counts.sample + (if admitted || verdict(a.fixedRate) then 1 else 0)))
  }

  class StatisticsDocument {
    const ruleName: string
    var requestCount: nat
    var borrowCount: nat
    var sampleCount: nat

    function View(): Counts
      reads this
    {
      Counts(requestCount, borrowCount, sampleCount)
    }

    constructor (ruleName: string)
      ensures this.ruleName == ruleName && View() == NO_COUNTS
    {
      this.ruleName := ruleName;
      requestCount, borrowCount, sampleCount := 0, 0, 0;
    }

    method Snapshot(now: real) returns (report: Report)
      ensures report == Report(ruleName, now, View())
    {
      report := Report(ruleName, now, Counts(requestCount, borrowCount, sampleCount));
    }
  }

  class Applier {
    const rule: SamplingRule
    const reservoir: RateLimiter
    const fixedRate: real
    const borrowing: bool
    const reservoirExpiry: Expiry
    var statistics: StatisticsDocument

    /** The documents an applier reports always carry its own rule's name. */
    ghost predicate Valid()
      reads this
    {
      statistics.ruleName == rule.ruleName
    }

    function View(): ApplierState
      reads this, reservoir, statistics
    {
      ApplierState(rule, reservoir.View(), fixedRate, borrowing, reservoirExpiry, statistics.View())
    }

    constructor (rule: SamplingRule, now: real)
      ensures Valid() && fresh(reservoir) && fresh(statistics)
      ensures View() == Untargeted(rule, now)
    {
      this.rule := rule;
      fixedRate := rule.fixedRate;
      borrowing := rule.reservoirSize > 0;
      reservoir := new RateLimiter(1, if rule.reservoirSize > 0 then 1 else 0, now);
      reservoirExpiry := EndOfTime;
      statistics := new StatisticsDocument(rule.ruleName);
    }

    constructor ForTarget(rule: SamplingRule, statistics: StatisticsDocument, target: SamplingTarget, now: real)
      requires statistics.ruleName == rule.ruleName
      ensures Valid() && fresh(reservoir) && this.statistics == statistics
      ensures forall a: ApplierState | a.rule == rule && a.counts == statistics.View() ::
                View() == Retargeted(a, target, now)
    {
      this.rule := rule;
      this.statistics := statistics;
      fixedRate := target.fixedRate;
      borrowing := false;
      reservoir := new RateLimiter(
        1, if target.reservoirQuota.Some? then target.reservoirQuota.value else 0, now);
      reservoirExpiry :=
        At(if target.reservoirQuotaTTL.Some? then target.reservoirQuotaTTL.value * SECOND else now);
    }

    method ShouldSample(now: real, verdict: Verdict) returns (sampled: bool)
      requires Valid()
      modifies reservoir, statistics
      ensures Valid() && View() == Sampled(old(View()), now, verdict)
      ensures sampled <==> ReservoirAdmits(old(View()), now) || verdict(fixedRate)
    {
      var hasBorrowed, hasSampled := false, false;
      var expired := match reservoirExpiry case EndOfTime => false case At(millis) => now >= millis;
      sampled := false;
      if !expired {
        sampled := reservoir.TrySpend(1.0, now);
      }
      if sampled {
        hasBorrowed, hasSampled := borrowing, true;
      } else {
        sampled := verdict(fixedRate);
        if sampled {
          hasSampled := true;
        }
      }
      statistics.requestCount := statistics.requestCount + 1;
      statistics.borrowCount := statistics.borrowCount + if hasBorrowed then 1 else 0;
      statistics.sampleCount := statistics.sampleCount + if hasSampled then 1 else 0;
    }

    /** Swaps in a fresh document; the old one is reported and left as it was. */
    method GetThenResetStatistics(now: real) returns (report: Report)
      requires Valid()
      modifies this`statistics
      ensures Valid() && fresh(statistics) && old(statistics).View() == old(statistics.View())
      ensures View() == old(View()).(counts := NO_COUNTS)
      ensures report == Report(rule.ruleName, now, old(View()).counts)
    {
      var oldStatistics := statistics;
      statistics := new StatisticsDocument(rule.ruleName);
      report := oldStatistics.Snapshot(now);
    }

    /** The new applier shares this one's document, and nothing else. */
    method WithTarget(target: SamplingTarget, now: real) returns (applier: Applier)
      requires Valid()
      ensures fresh(applier) && fresh(applier.reservoir) && applier.statistics == statistics
      ensures applier.Valid() && applier.View() == Retargeted(View(), target, now)
    {
      applier := new Applier.ForTarget(rule, statistics, target, now);
    }
  }

  // ---------- The reservoir over whole runs ----------

  datatype Event = Request(now: real, verdict: Verdict) | NewTarget(target: SamplingTarget, now: real)

  predicate InOrder(from: real, events: seq<Event>)
    decreases |events|
  {
    events == [] || (from <= events[0].now && InOrder(events[0].now, events[1..]))
  }

  function Step(a: ApplierState, e: Event): ApplierState {
    match e
    case Request(now, verdict) => Sampled(a, now, verdict)
    case NewTarget(target, now) => Retargeted(a, target, now)
  }

  /** How many requests of a run the reservoir admitted. */
  function Admitted(a: ApplierState, events: seq<Event>): nat
    decreases |events|
  {
    if events == [] then 0
    else (if events[0].Request? && ReservoirAdmits(a, events[0].now) then 1 else 0)
         + Admitted(Step(a, events[0]), events[1..])
  }

  /** What a quota per second comes to over a number of milliseconds. */
  function Yield(quota: int, millis: real): real { quota as real * millis / SECOND }

  /** The length of a period in milliseconds, cut off where the applier's reservoir expires. */
  function Length(a: ApplierState, from: real, to: real): real {
    Max(0.0, (if a.expiry.At? then Min(to, a.expiry.millis) else to) - from)
  }

  function Earned(a: ApplierState, from: real, to: real): real { Yield(a.wallet.quota, Length(a, from, to)) }

  /**
    The sum, over the target periods of a run, of quota times period length.  `start` is where the current period began
    and `last` the latest reading.
   */
  function Budget(a: ApplierState, start: real, last: real, events: seq<Event>): real
    decreases |events|
  {
    if events == [] then Earned(a, start, last)
    else if events[0].Request? then Budget(Step(a, events[0]), start, events[0].now, events[1..])
    else Earned(a, start, events[0].now) + Budget(Step(a, events[0]), events[0].now, events[0].now, events[1..])
  }

  ghost predicate NonNegativeQuotas(events: seq<Event>) {
    forall e | e in events && e.NewTarget? && e.target.reservoirQuota.Some? :: e.target.reservoirQuota.value >= 0
  }

  /** Whole requests the wallet could pay for at a reading; none once the reservoir has expired. */
  function Tokens(a: ApplierState, now: real): real {
    if Expired(a.expiry, now) then 0.0 else Yield(a.wallet.quota, Balance(a.wallet, now))
  }

  /** What holds of an applier between events of a run in order. */
  predicate Sound(a: ApplierState, now: real) {
    a.wallet.quota >= 0 && a.wallet.maxBalance == 1000.0 && a.wallet.floor <= now
  }

  /** Quota times milliseconds is additive and monotone in the milliseconds. */
  lemma YieldLaws(q: int, x: real, y: real)
    ensures Yield(q, x) + Yield(q, y) == Yield(q, x + y)
    ensures q >= 0 && x <= y ==> Yield(q, x) <= Yield(q, y)
  {
    var r := q as real;
    assert r * x + r * y == r * (x + y);
    if q >= 0 && x <= y {
      assert r * (y - x) >= 0.0;
    }
  }

  /** One admitted request costs exactly one token. */
  lemma YieldOfOneRequest(q: int, balance: real)
    requires q != 0
    ensures Yield(q, balance - CostInMillis(q, 1.0)) == Yield(q, balance) - 1.0
  {
    var r, cost := q as real, CostInMillis(q, 1.0);
    assert r * cost == 1000.0;
    assert r * (balance - cost) == r * balance - r * cost;
  }

  /** A request takes one token when admitted, and time between readings adds no more than was earned. */
  lemma RequestUsesTokens(a: ApplierState, start: real, last: real, e: Event)
    requires e.Request? && Sound(a, last) && start <= last <= e.now
    ensures Sound(Step(a, e), e.now)
    ensures (if ReservoirAdmits(a, e.now) then 1.0 else 0.0) + Tokens(Step(a, e), e.now)
         <= Tokens(a, last) + Earned(a, start, e.now) - Earned(a, start, last)
  {
    var q, now := a.wallet.quota, e.now;
    var live, live' := Length(a, start, last), Length(a, start, now);
    assert live <= live';
    YieldLaws(q, live, live');
    YieldLaws(q, 0.0, Balance(a.wallet, last));
    if !Expired(a.expiry, now) {
      var earlier, later := Balance(a.wallet, last), Balance(a.wallet, now);
      assert live' - live == now - last && later <= earlier + (live' - live);
      YieldLaws(q, live, live' - live);
      YieldLaws(q, earlier, live' - live);
      YieldLaws(q, later, earlier + (live' - live));
      assert Yield(q, later) <= Yield(q, earlier) + Yield(q, live') - Yield(q, live);
      if ReservoirAdmits(a, now) {
        YieldOfOneRequest(q, later);
        assert Balance(Step(a, e).wallet, now) == later - CostInMillis(q, 1.0);
      }
    }
  }

  /** From any sound state, a run admits at most the tokens in hand plus what its periods still earn. */
  lemma {:induction false} AdmissionsWithinTokensAndBudget(a: ApplierState, start: real, last: real, events: seq<Event>)
    requires Sound(a, last) && start <= last && InOrder(last, events) && NonNegativeQuotas(events)
    ensures Admitted(a, events) as real <= Tokens(a, last) + Budget(a, start, last, events) - Earned(a, start, last)
    decreases |events|
  {
    YieldLaws(a.wallet.quota, 0.0, Balance(a.wallet, last));
    if events != [] {
      var e, rest := events[0], events[1..];
      var a' := Step(a, e);
      assert e in events && NonNegativeQuotas(rest);
      if e.Request? {
        RequestUsesTokens(a, start, last, e);
        AdmissionsWithinTokensAndBudget(a', start, e.now, rest);
      } else {
        AdmissionsWithinTokensAndBudget(a', e.now, e.now, rest);
        YieldLaws(a.wallet.quota, Length(a, start, last), Length(a, start, e.now));
        assert Balance(a'.wallet, e.now) == 0.0 && Length(a', e.now, e.now) == 0.0;
        YieldLaws(a'.wallet.quota, 0.0, 0.0);
      }
    }
  }

  /**
    Over every run of one rule, from the creation of its applier, the reservoir admits at most the sum over target
    periods of quota times length: a new limiter starts empty, so no replacement creates a burst.
   */
  lemma ReservoirBound(rule: SamplingRule, created: real, events: seq<Event>)
    requires InOrder(created, events) && NonNegativeQuotas(events)
    ensures Admitted(Untargeted(rule, created), events) as real
         <= Budget(Untargeted(rule, created), created, created, events)
  {
    var a := Untargeted(rule, created);
    assert Balance(a.wallet, created) == 0.0 && Length(a, created, created) == 0.0;
    YieldLaws(a.wallet.quota, 0.0, 0.0);
    AdmissionsWithinTokensAndBudget(a, created, created, events);
  }

  /** In any stretch of a run the admissions exceed the stretch's budget by at most one second of the current quota. */
  lemma ReservoirBurstBound(a: ApplierState, now: real, events: seq<Event>)
    requires Sound(a, now) && InOrder(now, events) && NonNegativeQuotas(events)
    ensures Admitted(a, events) as real <= a.wallet.quota as real + Budget(a, now, now, events)
  {
    AdmissionsWithinTokensAndBudget(a, now, now, events);
    YieldLaws(a.wallet.quota, Balance(a.wallet, now), SECOND);
    YieldLaws(a.wallet.quota, 0.0, SECOND);
    assert Length(a, now, now) == 0.0;
    assert Yield(a.wallet.quota, SECOND) == a.wallet.quota as real;
  }

  /** The applier and the latest reading after a run. */
  function StateAfter(a: ApplierState, events: seq<Event>): ApplierState
    decreases |events|
  {
    if events == [] then a else StateAfter(Step(a, events[0]), events[1..])
  }

  function ReadingAfter(from: real, events: seq<Event>): real {
    if events == [] then from else events[|events| - 1].now
  }

  /** Every state a run reaches is sound at the latest reading, and the rest of the run is in order from there. */
  lemma {:induction false} ReachableStatesAreSound(a: ApplierState, from: real, before: seq<Event>, after: seq<Event>)
    requires Sound(a, from) && InOrder(from, before + after) && NonNegativeQuotas(before + after)
    ensures var now := ReadingAfter(from, before);
            Sound(StateAfter(a, before), now) && InOrder(now, after) && NonNegativeQuotas(after)
    decreases |before|
  {
    if before == [] {
      assert before + after == after;
    } else {
      var e, rest := before[0], before[1..];
      assert (before + after)[0] == e && (before + after)[1..] == rest + after;
      assert e in before + after && forall x | x in rest + after :: x in before + after;
      ReachableStatesAreSound(Step(a, e), e.now, rest, after);
    }
  }

  /**
    From any point of a run of one rule, whatever came before, the reservoir admits at most one second of the quota then
    current beyond what the target periods from there on earn.
   */
  lemma ReachableBurstBound(rule: SamplingRule, created: real, before: seq<Event>, after: seq<Event>)
    requires InOrder(created, before + after) && NonNegativeQuotas(before + after)
    ensures var a, now := StateAfter(Untargeted(rule, created), before), ReadingAfter(created, before);
            Admitted(a, after) as real <= a.wallet.quota as real + Budget(a, now, now, after)
  {
    ReachableStatesAreSound(Untargeted(rule, created), created, before, after);
    ReservoirBurstBound(StateAfter(Untargeted(rule, created), before), ReadingAfter(created, before), after);
  }

  /** A negative quota admits every request made while the target is live, so the bound needs quotas of at least 0. */
  lemma NegativeQuotaAdmitsAll(a: ApplierState, now: real)
    requires a.wallet.quota < 0 && a.wallet.maxBalance == 1000.0 && a.wallet.floor <= now && !Expired(a.expiry, now)
    ensures ReservoirAdmits(a, now)
  {
    var q := a.wallet.quota as real / 1000.0;
    assert CostInMillis(a.wallet.quota, 1.0) == 1.0 / q < 0.0;
  }

  /**
    For an applier whose reservoir is new and live, the bound holds of every run if and only if its quota is not
    negative.
   */
  lemma BoundHoldsExactlyForNonNegativeQuota(a: ApplierState, now: real)
    requires a.wallet == NewWallet(a.wallet.quota, now) && !Expired(a.expiry, now)
    ensures (forall events | InOrder(now, events) && NonNegativeQuotas(events) ::
               Admitted(a, events) as real <= Budget(a, now, now, events)) <==> a.wallet.quota >= 0
  {
    assert Balance(a.wallet, now) == 0.0 && Length(a, now, now) == 0.0;
    YieldLaws(a.wallet.quota, 0.0, 0.0);
    if a.wallet.quota >= 0 {
      forall events | InOrder(now, events) && NonNegativeQuotas(events)
        ensures Admitted(a, events) as real <= Budget(a, now, now, events)
      {
        AdmissionsWithinTokensAndBudget(a, now, now, events);
      }
    } else {
      NegativeQuotaAdmitsAll(a, now);
      OneAdmission(a, now);
    }
  }

  const NEVER: Verdict := rate => false

  lemma OneAdmission(a: ApplierState, now: real)
    requires ReservoirAdmits(a, now) && Length(a, now, now) == 0.0
    ensures var events := [Request(now, NEVER)];
            && InOrder(now, events) && NonNegativeQuotas(events)
            && Admitted(a, events) as real > Budget(a, now, now, events)
  {
    var events := [Request(now, NEVER)];
    var a' := Step(a, events[0]);
    assert events[1..] == [];
    assert Admitted(a', []) == 0 && Admitted(a, events) == 1;
    assert Length(a', now, now) == 0.0 && Budget(a', now, now, []) == Yield(a'.wallet.quota, 0.0) == 0.0;
    assert Budget(a, now, now, events) == Budget(a', now, now, []);
  }
}
