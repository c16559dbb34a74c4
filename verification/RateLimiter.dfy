/**
  The reservoir's lazy token bucket.  A limiter stores only a floor: the reading at which its wallet would have been
  empty.  The balance, in milliseconds of accrual, is the clock reading minus the floor, capped.
 */
module RateLimiter {
  import opened Sequences
  import opened Wrappers

  /** The value of a limiter object. */
  datatype Wallet = Wallet(maxBalance: real, quota: int, floor: real)

  /** One call of try_spend: what it costs and the clock reading taken inside it. */
  datatype Call = Call(cost: real, now: real)

  datatype Attempt = Attempt(wallet: Wallet, granted: bool)

  function CostInMillis(quota: int, cost: real): real
    requires quota != 0
  {
    cost / (quota as real / 1000.0)
  }

  /** The accrued balance at a reading. */
  function Balance(w: Wallet, now: real): real {
    Min(now - w.floor, w.maxBalance)
  }

  /** A spend moves the floor up by its cost, from where the cap lets the floor be, and is refused past the present. */
  function Spend(w: Wallet, call: Call): Attempt {
    if w.quota == 0 then Attempt(w, false)
    else
      var floor := Max(w.floor, call.now - w.maxBalance) + CostInMillis(w.quota, call.cost);
      if floor <= call.now then Attempt(w.(floor := floor), true) else Attempt(w, false)
  }

  class RateLimiter {
    const MAX_BALANCE_MILLIS: real
    const quota: int
    var walletFloorMillis: real

    function View(): Wallet
      reads this
    {
      Wallet(MAX_BALANCE_MILLIS, quota, walletFloorMillis)
    }

    /** A new limiter starts with an empty wallet. */
    constructor (maxBalanceInSeconds: int, quota: int, now: real)
      ensures View() == Wallet(maxBalanceInSeconds as real * 1000.0, quota, now)
    {
      MAX_BALANCE_MILLIS := maxBalanceInSeconds as real * 1000.0;
      this.quota := quota;
      walletFloorMillis := now;
    }

    method TrySpend(cost: real, now: real) returns (granted: bool)
      modifies this
      ensures Attempt(View(), granted) == Spend(old(View()), Call(cost, now))
    {
      if quota == 0 {
        return false;
      }
      var quotaPerMillis := quota as real / 1000.0;
      var costInMillis := cost / quotaPerMillis;
      var walletCeilingMillis := now;
      var currentBalanceMillis := walletCeilingMillis - walletFloorMillis;
      currentBalanceMillis := Min(currentBalanceMillis, MAX_BALANCE_MILLIS);
      var pendingRemainingBalanceMillis := currentBalanceMillis - costInMillis;
      if pendingRemainingBalanceMillis >= 0.0 {
        walletFloorMillis := walletCeilingMillis - pendingRemainingBalanceMillis;
        return true;
      }
      return false;
    }
  }

  // ---------- Runs of one limiter ----------

  function Answers(w: Wallet, calls: seq<Call>): seq<bool>
    decreases |calls|
  {
    if calls == [] then []
    else
      var a := Spend(w, calls[0]);
      [a.granted] + Answers(a.wallet, calls[1..])
  }

  /** The granted calls of a run, in order. */
  function Grants(w: Wallet, calls: seq<Call>): seq<Call>
    decreases |calls|
  {
    if calls == [] then []
    else
      var a := Spend(w, calls[0]);
      (if a.granted then [calls[0]] else []) + Grants(a.wallet, calls[1..])
  }

  function TotalCost(quota: int, calls: seq<Call>): real
    requires quota != 0
  {
    if calls == [] then 0.0 else CostInMillis(quota, calls[0].cost) + TotalCost(quota, calls[1..])
  }

  /** The readings of a run never go below the previous one, starting from `from`. */
  predicate NeverGoesBack(from: real, calls: seq<Call>)
    decreases |calls|
  {
    calls == [] || (from <= calls[0].now && NeverGoesBack(calls[0].now, calls[1..]))
  }

  // ---------- The eager bucket it stands for ----------

  /** A plain token bucket: on every call it refills for the time gone by, caps, then spends if it can. */
  datatype EagerBucket = EagerBucket(maxBalance: real, quota: int, balance: real, last: real)

  function Refill(b: EagerBucket, now: real): EagerBucket {
    b.(balance := Min(b.balance + (now - b.last), b.maxBalance), last := now)
  }

  datatype EagerAttempt = EagerAttempt(bucket: EagerBucket, granted: bool)

  function EagerSpend(b: EagerBucket, call: Call): EagerAttempt {
    if b.quota == 0 then EagerAttempt(b, false)
    else
      var full := Refill(b, call.now);
      var cost := CostInMillis(b.quota, call.cost);
      if full.balance >= cost then EagerAttempt(full.(balance := full.balance - cost), true)
      else EagerAttempt(full, false)
  }

  function EagerAnswers(b: EagerBucket, calls: seq<Call>): seq<bool>
    decreases |calls|
  {
    if calls == [] then []
    else
      var a := EagerSpend(b, calls[0]);
      [a.granted] + EagerAnswers(a.bucket, calls[1..])
  }

  /** The reading at which the eager bucket would have been empty. */
  function EagerFloor(b: EagerBucket): real { b.last - b.balance }

  predicate SameKind(w: Wallet, b: EagerBucket) { b.maxBalance == w.maxBalance && b.quota == w.quota }

  /** At a reading both buckets hold the same. */
  predicate SameAt(w: Wallet, b: EagerBucket, now: real) {
    Max(EagerFloor(b), now - w.maxBalance) == Max(w.floor, now - w.maxBalance)
  }

  /** In terms of floors the buckets differ in one thing: a refusal caps the eager one. */
  lemma OneCall(w: Wallet, b: EagerBucket, call: Call)
    requires SameKind(w, b) && w.quota != 0
    ensures var cost, a, e := CostInMillis(w.quota, call.cost), Spend(w, call), EagerSpend(b, call);
            var low, eager := Max(w.floor, call.now - w.maxBalance), Max(EagerFloor(b), call.now - w.maxBalance);
            && (a.granted <==> low + cost <= call.now) && (e.granted <==> eager + cost <= call.now)
            && a.wallet.floor == (if a.granted then low + cost else w.floor)
            && EagerFloor(e.bucket) == (if e.granted then eager + cost else eager)
            && SameKind(a.wallet, e.bucket)
  {
  }

  predicate Alike(w: Wallet, b: EagerBucket, calls: seq<Call>) {
    SameKind(w, b) && forall i | 0 <= i < |calls| :: SameAt(w, b, calls[i].now)
  }

  /** A call keeps the buckets alike if no later reading is before it, or the cap did not reach up to its floor. */
  lemma CallKeepsAlike(w: Wallet, b: EagerBucket, calls: seq<Call>)
    requires Alike(w, b, calls) && calls != [] && w.quota != 0
    requires forall k | 0 < k < |calls| :: calls[0].now <= calls[k].now || calls[0].now - w.maxBalance <= w.floor
    ensures Spend(w, calls[0]).granted == EagerSpend(b, calls[0]).granted
    ensures Alike(Spend(w, calls[0]).wallet, EagerSpend(b, calls[0]).bucket, calls[1..])
  {
    OneCall(w, b, calls[0]);
    assert SameAt(w, b, calls[0].now);
    var w', b' := Spend(w, calls[0]).wallet, EagerSpend(b, calls[0]).bucket;
    forall i | 0 <= i < |calls[1..]|
      ensures SameAt(w', b', calls[1..][i].now)
    {
      assert calls[1..][i] == calls[i + 1] && SameAt(w, b, calls[i + 1].now);
    }
  }

  predicate Steady(calls: seq<Call>) { forall i, k | 0 <= i < k < |calls| :: calls[i].now <= calls[k].now }

  lemma {:induction false} SteadyAnswersAlike(w: Wallet, b: EagerBucket, calls: seq<Call>)
    requires Alike(w, b, calls) && Steady(calls)
    ensures Answers(w, calls) == EagerAnswers(b, calls)
    decreases |calls|
  {
    if w.quota == 0 {
      QuotaZeroAnswersAlike(w, b, calls);
    } else if calls != [] {
      CallKeepsAlike(w, b, calls);
      SteadyAnswersAlike(Spend(w, calls[0]).wallet, EagerSpend(b, calls[0]).bucket, calls[1..]);
    }
  }

  lemma {:induction false} QuotaZeroAnswersAlike(w: Wallet, b: EagerBucket, calls: seq<Call>)
    requires w.quota == 0 == b.quota
    ensures Answers(w, calls) == EagerAnswers(b, calls)
    decreases |calls|
  {
    if calls != [] {
      QuotaZeroAnswersAlike(w, b, calls[1..]);
    }
  }

  lemma {:induction false} NeverGoingBackIsSteady(from: real, calls: seq<Call>)
    requires NeverGoesBack(from, calls)
    ensures Steady(calls) && forall i | 0 <= i < |calls| :: from <= calls[i].now
    decreases |calls|
  {
    if calls != [] {
      NeverGoingBackIsSteady(calls[0].now, calls[1..]);
      assert forall i | 0 < i < |calls| :: calls[i] == calls[1..][i - 1];
    }
  }

  /** On a clock that never goes back, a new limiter answers every call as the eager bucket, for any costs and quota. */
  lemma LazyRefinesEager(maxBalance: real, quota: int, start: real, calls: seq<Call>)
    requires NeverGoesBack(start, calls)
    ensures Answers(Wallet(maxBalance, quota, start), calls)
         == EagerAnswers(EagerBucket(maxBalance, quota, 0.0, start), calls)
  {
    NeverGoingBackIsSteady(start, calls);
    SteadyAnswersAlike(Wallet(maxBalance, quota, start), EagerBucket(maxBalance, quota, 0.0, start), calls);
  }

  /** The clock hypothesis is needed: after a step back the eager bucket refuses what the lazy one grants. */
  lemma ClockGoingBackSeparatesThem()
    ensures var calls := [Call(10.0, 2000.0), Call(0.4, 500.0)];
            && Answers(Wallet(1000.0, 1, 0.0), calls) == [false, true]
            && EagerAnswers(EagerBucket(1000.0, 1, 0.0, 0.0), calls) == [false, false]
  {
    var w, b, calls := Wallet(1000.0, 1, 0.0), EagerBucket(1000.0, 1, 0.0, 0.0), [Call(10.0, 2000.0), Call(0.4, 500.0)];
    assert calls[1..] == [Call(0.4, 500.0)];
    assert !Spend(w, calls[0]).granted && Spend(w, calls[1]).granted;
    assert Answers(w, calls[1..]) == [true] + Answers(Spend(w, calls[1]).wallet, []);
    var b' := EagerSpend(b, calls[0]).bucket;
    assert b' == Refill(b, 2000.0) && !EagerSpend(b', calls[1]).granted;
    assert EagerAnswers(b', calls[1..]) == [false] + EagerAnswers(EagerSpend(b', calls[1]).bucket, []);
  }

  // ---------- Exactly which clocks do not tell them apart ----------

  /** Calls with these costs at these readings. */
  function CallsAt(readings: seq<real>, costs: seq<real>): seq<Call>
    requires |costs| == |readings|
  {
    seq(|readings|, i requires 0 <= i < |readings| => Call(costs[i], readings[i]))
  }

  predicate SameAnswers(maxBalance: real, quota: int, start: real, readings: seq<real>, costs: seq<real>)
    requires |costs| == |readings|
  {
    Answers(Wallet(maxBalance, quota, start), CallsAt(readings, costs)) ==
    EagerAnswers(EagerBucket(maxBalance, quota, 0.0, start), CallsAt(readings, costs))
  }

  /**
    The readings step back at most below the first one, and that one has not filled the bucket: what a limiter of this
    capacity does not notice.
   */
  predicate StepsUnnoticed(maxBalance: real, start: real, readings: seq<real>) {
    forall i, k | 0 <= i < k < |readings| && readings[k] < readings[i] :: i == 0 && readings[0] <= start + maxBalance
  }

  lemma UnnoticedAnswersAlike(maxBalance: real, quota: int, start: real, readings: seq<real>, costs: seq<real>)
    requires |costs| == |readings| && StepsUnnoticed(maxBalance, start, readings)
    ensures SameAnswers(maxBalance, quota, start, readings, costs)
  {
    var w, b := Wallet(maxBalance, quota, start), EagerBucket(maxBalance, quota, 0.0, start);
    var calls := CallsAt(readings, costs);
    if quota == 0 {
      QuotaZeroAnswersAlike(w, b, calls);
    } else if calls != [] {
      forall k | 0 < k < |calls|
        ensures calls[0].now <= calls[k].now || calls[0].now - maxBalance <= start
      {
        assert readings[k] < readings[0] ==> readings[0] <= start + maxBalance;
      }
      CallKeepsAlike(w, b, calls);
      forall i, k | 0 <= i < k < |calls[1..]|
        ensures calls[1..][i].now <= calls[1..][k].now
      {
        assert readings[i + 1] <= readings[k + 1];
      }
      SteadyAnswersAlike(Spend(w, calls[0]).wallet, EagerSpend(b, calls[0]).bucket, calls[1..]);
    }
  }

  /** Costs above the capacity are refused by both; the lazy floor stays, and the eager one rises to every cap. */
  lemma {:induction false} Refusals(w: Wallet, b: EagerBucket, calls: seq<Call>, rest: seq<Call>)
    returns (b': EagerBucket)
    requires SameKind(w, b) && w.quota == 1000
    requires forall i | 0 <= i < |calls| :: calls[i].cost > w.maxBalance
    ensures SameKind(w, b')
    ensures forall i | 0 <= i < |calls| :: EagerFloor(b') >= calls[i].now - w.maxBalance
    ensures EagerFloor(b') >= EagerFloor(b)
    ensures |Answers(w, calls + rest)| == |calls| + |Answers(w, rest)|
    ensures Answers(w, calls + rest)[|calls|..] == Answers(w, rest)
    ensures |EagerAnswers(b, calls + rest)| == |calls| + |EagerAnswers(b', rest)|
    ensures EagerAnswers(b, calls + rest)[|calls|..] == EagerAnswers(b', rest)
    decreases |calls|
  {
    if calls == [] {
      assert calls + rest == rest;
      b' := b;
    } else {
      assert (calls + rest)[1..] == calls[1..] + rest;
      OneCall(w, b, calls[0]);
      assert CostInMillis(1000, calls[0].cost) == calls[0].cost;
      var next := EagerSpend(b, calls[0]).bucket;
      b' := Refusals(w, next, calls[1..], rest);
      assert forall i | 0 < i < |calls| :: calls[i] == calls[1..][i - 1];
      DropCons(false, Answers(w, calls[1..] + rest), |calls| - 1);
      DropCons(false, EagerAnswers(next, calls[1..] + rest), |calls| - 1);
    }
  }

  /** After refusals, a reading before one that was capped above the floor separates the buckets. */
  lemma SeparatedAfterRefusals(w: Wallet, b: EagerBucket, calls: seq<Call>, i: nat, k: nat)
    requires SameKind(w, b) && w.quota == 1000 && i < k < |calls|
    requires calls[k].now < calls[i].now && w.floor < calls[i].now - w.maxBalance
    requires forall j | 0 <= j < k :: calls[j].cost > w.maxBalance
    requires calls[k].cost == Balance(w, calls[k].now)
    ensures Answers(w, calls) != EagerAnswers(b, calls)
  {
    var before, rest := calls[..k], calls[k..];
    assert calls == before + rest && before[i] == calls[i];
    var b' := Refusals(w, b, before, rest);
    OneCall(w, b', rest[0]);
    assert CostInMillis(1000, rest[0].cost) == rest[0].cost;
    assert Answers(w, rest)[0] && !EagerAnswers(b', rest)[0];
  }

  /** A step back to a reading before one above start and capacity is noticed, by costs that are refused before it. */
  lemma CappedStepSeparates(maxBalance: real, start: real, readings: seq<real>, i: nat, k: nat)
    returns (costs: seq<real>)
    requires i < k < |readings| && readings[k] < readings[i] && readings[i] > start + maxBalance
    ensures |costs| == |readings| && !SameAnswers(maxBalance, 1000, start, readings, costs)
    ensures maxBalance >= 0.0 && readings[k] >= start ==> forall j | 0 <= j < |costs| :: costs[j] >= 0.0
  {
    var w, b := Wallet(maxBalance, 1000, start), EagerBucket(maxBalance, 1000, 0.0, start);
    costs := seq(|readings|, j requires 0 <= j < |readings| =>
                   if j == k then Balance(w, readings[k]) else maxBalance + 1.0);
    SeparatedAfterRefusals(w, b, CallsAt(readings, costs), i, k);
  }

  /** Any later step back is noticed: a first cost below zero puts both floors far enough down. */
  lemma LaterStepSeparates(maxBalance: real, start: real, readings: seq<real>, i: nat, k: nat)
    returns (costs: seq<real>)
    requires 0 < i < k < |readings| && readings[k] < readings[i]
    ensures |costs| == |readings| && !SameAnswers(maxBalance, 1000, start, readings, costs)
  {
    var w, b := Wallet(maxBalance, 1000, start), EagerBucket(maxBalance, 1000, 0.0, start);
    var floor := Min(readings[k] - maxBalance, readings[0]);
    var low := w.(floor := floor);
    costs := seq(|readings|, j requires 0 <= j < |readings| =>
                   if j == 0 then floor - Max(start, readings[0] - maxBalance)
                   else if j == k then Balance(low, readings[k])
                   else maxBalance + 1.0);
    var calls := CallsAt(readings, costs);
    OneCall(w, b, calls[0]);
    assert CostInMillis(1000, calls[0].cost) == calls[0].cost;
    assert Spend(w, calls[0]) == Attempt(low, true);
    var next := EagerSpend(b, calls[0]).bucket;
    assert forall j | 0 < j < |calls| :: calls[1..][j - 1] == calls[j];
    SeparatedAfterRefusals(low, next, calls[1..], i - 1, k - 1);
    assert Answers(w, calls)[1..] == Answers(low, calls[1..]);
    assert EagerAnswers(b, calls)[1..] == EagerAnswers(next, calls[1..]);
  }

  /** A lazy bucket of this capacity answers as the eager one, for all costs and quotas, exactly on these clocks. */
  lemma ClocksForCapacityExactly(maxBalance: real, start: real, readings: seq<real>)
    ensures (forall quota: int, costs: seq<real> | |costs| == |readings| ::
               SameAnswers(maxBalance, quota, start, readings, costs)) <==>
              StepsUnnoticed(maxBalance, start, readings)
  {
    if StepsUnnoticed(maxBalance, start, readings) {
      forall quota: int, costs: seq<real> | |costs| == |readings|
        ensures SameAnswers(maxBalance, quota, start, readings, costs)
      {
        UnnoticedAnswersAlike(maxBalance, quota, start, readings, costs);
      }
    } else {
      var i, k :| 0 <= i < k < |readings| && readings[k] < readings[i]
                  && !(i == 0 && readings[0] <= start + maxBalance);
      if i == 0 {
        var costs := CappedStepSeparates(maxBalance, start, readings, i, k);
      } else {
        var costs := LaterStepSeparates(maxBalance, start, readings, i, k);
      }
    }
  }

  predicate NeverDecreases(readings: seq<real>) { forall i, k | 0 <= i < k < |readings| :: readings[i] <= readings[k] }

  /**
    Over all capacities the buckets answer alike, for all costs and quotas, if and only if the readings never decrease
    among themselves, wherever the limiter's creation lies.
   */
  lemma ClocksThatRefineExactly(start: real, readings: seq<real>)
    ensures (forall maxBalance: real :: StepsUnnoticed(maxBalance, start, readings)) <==> NeverDecreases(readings)
    ensures (forall maxBalance: real, quota: int, costs: seq<real> | |costs| == |readings| ::
               SameAnswers(maxBalance, quota, start, readings, costs)) <==> NeverDecreases(readings)
  {
    if NeverDecreases(readings) {
      forall maxBalance: real
        ensures StepsUnnoticed(maxBalance, start, readings)
      {
      }
      forall maxBalance: real, quota: int, costs: seq<real> | |costs| == |readings|
        ensures SameAnswers(maxBalance, quota, start, readings, costs)
      {
        UnnoticedAnswersAlike(maxBalance, quota, start, readings, costs);
      }
    } else {
      var i, k :| 0 <= i < k < |readings| && readings[k] < readings[i];
      var small := readings[i] - start - 1.0;
      assert !StepsUnnoticed(small, start, readings);
      var costs := CappedStepSeparates(small, start, readings, i, k);
    }
  }

  // ---------- The same for costs as they are ----------

  /** Where costs are not negative only a capped reading is noticed, and only from one where there is a balance. */
  predicate StepsHarmless(maxBalance: real, start: real, readings: seq<real>) {
    || maxBalance < 0.0
    || forall i, k | 0 <= i < k < |readings| && readings[k] < readings[i] && start <= readings[k] ::
         readings[i] <= start + maxBalance
  }

  /** Alike at every reading where either could grant a cost that is not negative. */
  predicate AlikeFrom(w: Wallet, b: EagerBucket, calls: seq<Call>, start: real) {
    && SameKind(w, b) && start <= w.floor <= EagerFloor(b)
    && forall i | 0 <= i < |calls| :: w.maxBalance < 0.0 || calls[i].now < start || SameAt(w, b, calls[i].now)
  }

  predicate HarmlessFrom(maxBalance: real, start: real, calls: seq<Call>) {
    || maxBalance < 0.0
    || forall i, k | 0 <= i < k < |calls| && calls[k].now < calls[i].now && start <= calls[k].now ::
         calls[i].now <= start + maxBalance
  }

  lemma CallKeepsAlikeFrom(w: Wallet, b: EagerBucket, calls: seq<Call>, start: real)
    requires AlikeFrom(w, b, calls, start) && HarmlessFrom(w.maxBalance, start, calls) && calls != []
    requires w.quota > 0 && calls[0].cost >= 0.0
    ensures Spend(w, calls[0]).granted == EagerSpend(b, calls[0]).granted
    ensures AlikeFrom(Spend(w, calls[0]).wallet, EagerSpend(b, calls[0]).bucket, calls[1..], start)
  {
    OneCall(w, b, calls[0]);
    assert CostInMillis(w.quota, calls[0].cost) >= 0.0;
    var w', b' := Spend(w, calls[0]).wallet, EagerSpend(b, calls[0]).bucket;
    forall i | 0 <= i < |calls[1..]|
      ensures w.maxBalance < 0.0 || calls[1..][i].now < start || SameAt(w', b', calls[1..][i].now)
    {
      assert calls[1..][i] == calls[i + 1];
    }
  }

  lemma {:induction false} HarmlessAnswersAlike(w: Wallet, b: EagerBucket, calls: seq<Call>, start: real)
    requires AlikeFrom(w, b, calls, start) && HarmlessFrom(w.maxBalance, start, calls) && w.quota > 0
    requires forall i | 0 <= i < |calls| :: calls[i].cost >= 0.0
    ensures Answers(w, calls) == EagerAnswers(b, calls)
    decreases |calls|
  {
    if calls != [] {
      CallKeepsAlikeFrom(w, b, calls, start);
      assert forall i | 0 < i < |calls| :: calls[1..][i - 1] == calls[i];
      assert HarmlessFrom(w.maxBalance, start, calls[1..]);
      HarmlessAnswersAlike(Spend(w, calls[0]).wallet, EagerSpend(b, calls[0]).bucket, calls[1..], start);
    }
  }

  ghost predicate SameForRealCosts(maxBalance: real, start: real, readings: seq<real>) {
    forall quota: int, costs: seq<real>
      | quota > 0 && |costs| == |readings| && forall j | 0 <= j < |costs| :: costs[j] >= 0.0 ::
      SameAnswers(maxBalance, quota, start, readings, costs)
  }

  /** For positive quotas and costs that are not negative, exactly these clocks do not tell the buckets apart. */
  lemma ClocksForRealCostsExactly(maxBalance: real, start: real, readings: seq<real>)
    ensures SameForRealCosts(maxBalance, start, readings) <==> StepsHarmless(maxBalance, start, readings)
  {
    if StepsHarmless(maxBalance, start, readings) {
      forall quota: int, costs: seq<real>
        | quota > 0 && |costs| == |readings| && forall j | 0 <= j < |costs| :: costs[j] >= 0.0
        ensures SameAnswers(maxBalance, quota, start, readings, costs)
      {
        HarmlessAnswersAlike(Wallet(maxBalance, quota, start), EagerBucket(maxBalance, quota, 0.0, start),
                             CallsAt(readings, costs), start);
      }
    } else {
      var i, k :| 0 <= i < k < |readings| && readings[k] < readings[i] && start <= readings[k]
                  && readings[i] > start + maxBalance;
      var costs := CappedStepSeparates(maxBalance, start, readings, i, k);
    }
  }

  // ---------- Spending bounds on any clock at all ----------

  /** Every grant pays for itself out of the floor, so grants cost at most the distance from it to the last one. */
  lemma {:induction false} GrantsFitAboveTheFloor(w: Wallet, calls: seq<Call>)
    ensures var g := Grants(w, calls);
            w.quota != 0 && g != [] ==> TotalCost(w.quota, g) <= g[|g| - 1].now - w.floor
    decreases |calls|
  {
    if calls != [] && w.quota != 0 {
      var a := Spend(w, calls[0]);
      var rest := Grants(a.wallet, calls[1..]);
      GrantsFitAboveTheFloor(a.wallet, calls[1..]);
      if a.granted {
        var g := Grants(w, calls);
        assert g == [calls[0]] + rest && g[1..] == rest;
        if rest == [] {
          assert TotalCost(w.quota, rest) == 0.0;
        } else {
          assert g[|g| - 1] == rest[|rest| - 1];
        }
      } else {
        assert Grants(w, calls) == rest;
      }
    }
  }

  /**
    Whatever the clock does, the successful spends of any run, from any state, cost at most the time between the first
    and the last of them plus one full balance.
   */
  lemma {:induction false} AnyClockSpendingBound(w: Wallet, calls: seq<Call>)
    ensures var g := Grants(w, calls);
            w.quota != 0 && g != [] ==> TotalCost(w.quota, g) <= g[|g| - 1].now - g[0].now + w.maxBalance
    decreases |calls|
  {
    if calls != [] && w.quota != 0 {
      var a := Spend(w, calls[0]);
      var rest := Grants(a.wallet, calls[1..]);
      if a.granted {
        var g := Grants(w, calls);
        assert g == [calls[0]] + rest && g[1..] == rest;
        GrantsFitAboveTheFloor(a.wallet, calls[1..]);
        assert a.wallet.floor >= calls[0].now - w.maxBalance + CostInMillis(w.quota, calls[0].cost);
        if rest == [] {
          assert TotalCost(w.quota, rest) == 0.0;
        } else {
          assert g[|g| - 1] == rest[|rest| - 1];
        }
      } else {
        assert Grants(w, calls) == rest;
        AnyClockSpendingBound(a.wallet, calls[1..]);
      }
    }
  }
}
