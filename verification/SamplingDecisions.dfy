/** What the requests of one rule get: a token bucket while it lives, and the fixed-rate sampler besides. */
module SamplingDecisions {
  import opened Wrappers
  import opened RateLimiter
  import opened SamplingRuleApplier

  predicate AllRequests(events: seq<Event>) { forall i | 0 <= i < |events| :: events[i].Request? }

  function CallsOf(events: seq<Event>): seq<Call> {
    seq(|events|, i requires 0 <= i < |events| => Call(1.0, events[i].now))
  }

  /** Which requests the reservoir admits, one after another. */
  function Admissions(a: ApplierState, events: seq<Event>): seq<bool>
    decreases |events|
  {
    if events == [] then [] else [ReservoirAdmits(a, events[0].now)] + Admissions(Step(a, events[0]), events[1..])
  }

  /** Which requests are sampled, one after another. */
  function Decisions(a: ApplierState, events: seq<Event>): seq<bool>
    requires AllRequests(events)
    decreases |events|
  {
    if events == [] then []
    else
      [ReservoirAdmits(a, events[0].now) || events[0].verdict(a.fixedRate)]
      + Decisions(Step(a, events[0]), events[1..])
  }

  function Trues(answers: seq<bool>): nat {
    if answers == [] then 0 else (if answers[0] then 1 else 0) + Trues(answers[1..])
  }

  lemma {:induction false} OrderedAfter(from: real, events: seq<Event>, i: nat)
    requires InOrder(from, events) && i < |events|
    ensures from <= events[i].now
    decreases |events|
  {
    if i > 0 {
      OrderedAfter(events[0].now, events[1..], i - 1);
    }
  }

  lemma {:induction false} AdmissionsAreAnswers(a: ApplierState, from: real, events: seq<Event>)
    requires AllRequests(events) && InOrder(from, events)
    ensures |Admissions(a, events)| == |events| == |Answers(a.wallet, CallsOf(events))|
    ensures forall i | 0 <= i < |events| ::
              Admissions(a, events)[i] <==>
                !Expired(a.expiry, events[i].now) && Answers(a.wallet, CallsOf(events))[i]
    decreases |events|
  {
    if events != [] {
      var e, rest := events[0], events[1..];
      var a', w' := Step(a, e), Spend(a.wallet, Call(1.0, e.now)).wallet;
      assert CallsOf(events)[1..] == CallsOf(rest);
      AdmissionsAreAnswers(a', e.now, rest);
      if Expired(a.expiry, e.now) {
        AdmissionsAreAnswers(a.(wallet := w'), e.now, rest);
        forall i | 0 <= i < |events|
          ensures Expired(a.expiry, events[i].now)
        {
          if i > 0 {
            OrderedAfter(e.now, rest, i - 1);
          }
        }
      }
    }
  }

  lemma {:induction false} DecisionsAt(a: ApplierState, events: seq<Event>, i: nat)
    requires AllRequests(events) && i < |events|
    ensures |Decisions(a, events)| == |events| == |Admissions(a, events)|
    ensures Decisions(a, events)[i] <==> Admissions(a, events)[i] || events[i].verdict(a.fixedRate)
    decreases |events|
  {
    if |events| > 1 {
      DecisionsAt(Step(a, events[0]), events[1..], if i == 0 then 0 else i - 1);
    }
  }

  /** What is counted of a run of requests: all of them, those admitted while borrowing, and those sampled. */
  lemma {:induction false} CountsAreOfDecisions(a: ApplierState, events: seq<Event>)
    requires AllRequests(events)
    ensures var after := StateAfter(a, events);
            && after.rule == a.rule
            && after.counts.request == a.counts.request + |events|
            && after.counts.borrow == a.counts.borrow + (if a.borrowing then Trues(Admissions(a, events)) else 0)
            && after.counts.sample == a.counts.sample + Trues(Decisions(a, events))
    decreases |events|
  {
    if events != [] {
      CountsAreOfDecisions(Step(a, events[0]), events[1..]);
      assert Admissions(a, events)[1..] == Admissions(Step(a, events[0]), events[1..]);
      assert Decisions(a, events)[1..] == Decisions(Step(a, events[0]), events[1..]);
    }
  }

  /** The answers of a token bucket of one second that starts empty and fills at the quota. */
  function BucketAnswers(quota: int, start: real, events: seq<Event>): seq<bool> {
    EagerAnswers(EagerBucket(1000.0, quota, 0.0, start), CallsOf(events))
  }

  lemma {:induction false} CallsNeverGoBack(from: real, events: seq<Event>)
    requires InOrder(from, events)
    ensures NeverGoesBack(from, CallsOf(events))
    decreases |events|
  {
    if events != [] {
      CallsNeverGoBack(events[0].now, events[1..]);
      assert CallsOf(events)[1..] == CallsOf(events[1..]);
    }
  }

  lemma AdmissionsAreBucketAnswers(a: ApplierState, start: real, events: seq<Event>)
    requires AllRequests(events) && InOrder(start, events) && a.wallet == Wallet(1000.0, a.wallet.quota, start)
    ensures |BucketAnswers(a.wallet.quota, start, events)| == |events| == |Admissions(a, events)|
    ensures forall i | 0 <= i < |events| ::
              Admissions(a, events)[i] <==>
                !Expired(a.expiry, events[i].now) && BucketAnswers(a.wallet.quota, start, events)[i]
  {
    AdmissionsAreAnswers(a, start, events);
    CallsNeverGoBack(start, events);
    LazyRefinesEager(1000.0, a.wallet.quota, start, CallsOf(events));
  }

  /**
    Without a target a rule samples what a bucket of one request a second lets through, if it has a reservoir, and what
    the sampler lets through at the rule's rate; it counts the former as borrowed.
   */
  lemma UntargetedDecides(rule: SamplingRule, created: real, events: seq<Event>)
    requires AllRequests(events) && InOrder(created, events)
    ensures var bucket := BucketAnswers(if rule.reservoirSize > 0 then 1 else 0, created, events);
            var a := Untargeted(rule, created);
            var decisions, after := Decisions(a, events), StateAfter(a, events);
            && |bucket| == |decisions| == |events|
            && (forall i | 0 <= i < |events| :: decisions[i] <==> bucket[i] || events[i].verdict(rule.fixedRate))
            && after.counts == Counts(|events|, Trues(bucket), Trues(decisions))
  {
    var a := Untargeted(rule, created);
    AdmissionsAreBucketAnswers(a, created, events);
    CountsAreOfDecisions(a, events);
    var bucket := BucketAnswers(a.wallet.quota, created, events);
    assert Admissions(a, events) == bucket;
    forall i | 0 <= i < |events|
      ensures |Decisions(a, events)| == |events|
      ensures Decisions(a, events)[i] <==> bucket[i] || events[i].verdict(rule.fixedRate)
    {
      DecisionsAt(a, events, i);
    }
    if rule.reservoirSize <= 0 {
      EmptyBucketRefuses(EagerBucket(1000.0, 0, 0.0, created), CallsOf(events));
    }
  }

  lemma {:induction false} EmptyBucketRefuses(b: EagerBucket, calls: seq<Call>)
    requires b.quota == 0
    ensures Trues(EagerAnswers(b, calls)) == 0
    decreases |calls|
  {
    if calls != [] {
      EmptyBucketRefuses(b, calls[1..]);
      assert EagerAnswers(b, calls)[1..] == EagerAnswers(b, calls[1..]);
    }
  }

  function QuotaOf(target: SamplingTarget): int { target.reservoirQuota.GetOr(0) }

  /** Times to live are given in seconds; without one a target's reservoir is never live. */
  predicate Live(target: SamplingTarget, now: real) {
    target.reservoirQuotaTTL.Some? && now < target.reservoirQuotaTTL.value * 1000.0
  }

  /**
    Under a target a rule samples what a bucket of its quota lets through while the target is live, and what the sampler
    lets through at the target's rate; nothing is borrowed, and the counts go on from where they were.
   */
  lemma TargetDecides(a: ApplierState, target: SamplingTarget, since: real, events: seq<Event>)
    requires AllRequests(events) && InOrder(since, events)
    ensures var bucket, t := BucketAnswers(QuotaOf(target), since, events), Retargeted(a, target, since);
            var decisions, after := Decisions(t, events), StateAfter(t, events);
            && |bucket| == |decisions| == |events|
            && (forall i | 0 <= i < |events| ::
                  decisions[i] <==>
                    (Live(target, events[i].now) && bucket[i]) || events[i].verdict(target.fixedRate))
            && after.rule == a.rule
            && after.counts == Counts(a.counts.request + |events|, a.counts.borrow, a.counts.sample + Trues(decisions))
  {
    var t := Retargeted(a, target, since);
    AdmissionsAreBucketAnswers(t, since, events);
    CountsAreOfDecisions(t, events);
    forall i | 0 <= i < |events|
      ensures |Decisions(t, events)| == |events|
      ensures Expired(t.expiry, events[i].now) <==> !Live(target, events[i].now)
      ensures Decisions(t, events)[i] <==> Admissions(t, events)[i] || events[i].verdict(target.fixedRate)
    {
      DecisionsAt(t, events, i);
      OrderedAfter(since, events, i);
    }
  }

  /** The reservoir of a new target lets a first request through exactly if that comes late enough and not too late. */
  lemma WaitingAdmitsExactly(a: ApplierState, target: SamplingTarget, since: real, now: real)
    requires since <= now
    ensures ReservoirAdmits(Retargeted(a, target, since), now) <==>
              Live(target, now) && QuotaOf(target) != 0 && now - since >= 1000.0 / QuotaOf(target) as real
  {
    var q := QuotaOf(target);
    if q != 0 {
      assert CostInMillis(q, 1.0) == 1000.0 / q as real;
      if q > 0 {
        assert 1000.0 / q as real <= 1000.0;
      }
    }
  }
}
