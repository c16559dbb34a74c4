/** When the log client puts the pending batch before it takes an event: exactly which events a batch may still take. */
module LogBatchTimes {
  import opened Wrappers
  import opened Sorting
  import opened CloudWatchLogClient

  // ---------- The tracked times are times of events ----------

  predicate HasTime(events: seq<LogEvent>, time: int) { exists i :: 0 <= i < |events| && Time(events[i]) == time }

  predicate BoundsAreMet(b: Batch) { b.events != [] ==> HasTime(b.events, b.minTime) && HasTime(b.events, b.maxTime) }

  ghost predicate BatchIsMet(c: State) { c.batch.Some? ==> BoundsAreMet(c.batch.value) }

  lemma OneMoreTime(events: seq<LogEvent>, e: LogEvent, time: int)
    ensures HasTime(events + [e], Time(e))
    ensures HasTime(events, time) ==> HasTime(events + [e], time)
  {
    assert (events + [e])[|events|] == e;
    if HasTime(events, time) {
      var i :| 0 <= i < |events| && Time(events[i]) == time;
      assert (events + [e])[i] == events[i];
    }
  }

  lemma WithEventIsMet(b: Batch, e: LogEvent)
    requires BatchOk(b) && BoundsAreMet(b) && Time(e) > 0
    ensures BoundsAreMet(WithEvent(b, e))
  {
    OneMoreTime(b.events, e, b.minTime);
    OneMoreTime(b.events, e, b.maxTime);
  }

  lemma SortedIsMet(b: Batch)
    requires BoundsAreMet(b)
    ensures BoundsAreMet(b.(events := Sort(Earlier, b.events)))
  {
    var sorted := Sort(Earlier, b.events);
    SortKeepsMembers(Earlier, b.events);
    forall time | HasTime(b.events, time)
      ensures HasTime(sorted, time)
    {
      var i :| 0 <= i < |b.events| && Time(b.events[i]) == time;
      assert b.events[i] in multiset(sorted);
    }
  }

  lemma SentIsMet(b: Batch, service: Service)
    requires BoundsAreMet(b)
    ensures BoundsAreMet(Sent(b, service).batch)
  {
    SortedIsMet(b);
  }

  lemma StepIsMet(c: State, op: Op)
    requires StateOk(c) && BatchIsMet(c) && op.now > TIMESTAMP_LIMIT_PAST
    ensures BatchIsMet(Do(c, op).state)
  {
    var b := c.batch.GetOr(NewBatch(op.now));
    SentIsMet(b, op.service);
    if op.Send? && Timely(op.event, op.now) {
      var e := Truncated(op.event);
      WithEventIsMet(NewBatch(op.now), e);
      WithEventIsMet(b, e);
    }
  }

  lemma {:induction false} ReachableBoundsAreMet(ops: seq<Op>)
    requires ReadingsFrom(ops, TIMESTAMP_LIMIT_PAST + 1)
    ensures StateOk(Run(ops)) && BatchIsMet(Run(ops))
  {
    RequestsWithinLimits(ops);
    if ops != [] {
      var init := ops[..|ops| - 1];
      ReachableBoundsAreMet(init);
      StepIsMet(Run(init), ops[|ops| - 1]);
    }
  }

  // ---------- Which events a batch takes ----------

  /**
    An event goes to the next request if the pending one is full, would grow too large, has an event more than a day
    from it, or is of a batch begun a minute ago or more.
   */
  predicate MustWait(b: Batch, e: LogEvent, now: int) {
    || |b.events| == 10000
    || TotalSize(b.events) + Size(e) > 1048576
    || (exists i :: 0 <= i < |b.events|
                    && (Time(b.events[i]) - Time(e) > 86400000 || Time(e) - Time(b.events[i]) > 86400000))
    || now - b.created >= 60000
  }

  lemma FarFromSomeEvent(b: Batch, time: int)
    requires BatchOk(b) && BoundsAreMet(b) && b.events != []
    ensures (exists i :: 0 <= i < |b.events|
                         && (Time(b.events[i]) - time > DAY || time - Time(b.events[i]) > DAY))
       <==> time - b.minTime > DAY || b.maxTime - time > DAY
  {
    var first :| 0 <= first < |b.events| && Time(b.events[first]) == b.minTime;
    var last :| 0 <= last < |b.events| && Time(b.events[last]) == b.maxTime;
  }

  lemma MustWaitExactly(b: Batch, e: LogEvent, now: int)
    requires BatchOk(b) && BoundsAreMet(b) && b.events != []
    ensures MustWait(b, e, now) <==> ExceedsLimit(b, Size(e)) || !Active(b, Time(e), now)
  {
    FarFromSomeEvent(b, Time(e));
    assert b.minTime > 0 && b.maxTime > 0 by {
      assert 0 < b.minTime <= Time(b.events[0]) <= b.maxTime;
    }
  }

  /**
    In every reachable state, with the clock beyond 14 days after the epoch, an event in time is put on the pending
    events unless it must wait.  If it must, these are sent first, and if that does not raise the event begins a batch
    of its own; nothing else is ever sent.
   */
  lemma SendsFirstExactly(ops: seq<Op>, event: LogEvent, now: int, service: Service)
    requires ReadingsFrom(ops, TIMESTAMP_LIMIT_PAST + 1) && now > TIMESTAMP_LIMIT_PAST
    requires !Blank(event.message) && Timely(event, now)
    requires Run(ops).batch.Some? && Run(ops).batch.value.events != []
    ensures var c, e := Run(ops), Truncated(event);
            var b, step := c.batch.value, SendStep(c, event, now, service);
            && (|step.state.requests| > |c.requests| <==> MustWait(b, e, now))
            && (!MustWait(b, e, now) ==>
                  && step.outcome == Accepted && step.state.requests == c.requests
                  && step.state.batch.value.events == b.events + [e] && step.state.batch.value.created == b.created)
            && (MustWait(b, e, now) ==>
                  && step.outcome == (if Sent(b, service).raised then Raised else Accepted)
                  && step.state.requests == c.requests + Sent(b, service).requests
                  && (step.outcome == Accepted ==>
                        step.state.batch.value.events == [e] && step.state.batch.value.created == now))
  {
    ReachableBoundsAreMet(ops);
    MustWaitExactly(Run(ops).batch.value, Truncated(event), now);
    assert NewBatch(now).events + [Truncated(event)] == [Truncated(event)];
  }

  /** With nothing pending an event in time is accepted at once and nothing is sent. */
  lemma FirstEventIsTaken(ops: seq<Op>, event: LogEvent, now: int, service: Service)
    requires ReadingsFrom(ops, TIMESTAMP_LIMIT_PAST + 1) && now > TIMESTAMP_LIMIT_PAST
    requires !Blank(event.message) && Timely(event, now)
    requires Run(ops).batch.Some? ==> Run(ops).batch.value.events == []
    ensures var c, step := Run(ops), SendStep(Run(ops), event, now, service);
            && step.outcome == Accepted && step.state.requests == c.requests
            && step.state.batch.Some? && step.state.batch.value.events == [Truncated(event)]
  {
    RequestsWithinLimits(ops);
    var b := Run(ops).batch.GetOr(NewBatch(now));
    assert b.events + [Truncated(event)] == [Truncated(event)];
  }

  /** So an accepted event never joins events of a batch begun a minute or more before. */
  lemma StaleBatchIsNeverJoined(ops: seq<Op>, event: LogEvent, now: int, service: Service)
    requires ReadingsFrom(ops, TIMESTAMP_LIMIT_PAST + 1) && now > TIMESTAMP_LIMIT_PAST
    requires Run(ops).batch.Some? && Run(ops).batch.value.events != [] && now - Run(ops).batch.value.created >= 60000
    requires SendStep(Run(ops), event, now, service).outcome == Accepted
    ensures var step := SendStep(Run(ops), event, now, service);
            && step.state.batch.value.events == [Truncated(event)] && step.state.batch.value.created == now
            && Events(step.state.requests) == Events(Run(ops).requests) + multiset(Run(ops).batch.value.events)
  {
    SendsFirstExactly(ops, event, now, service);
    var b := Run(ops).batch.value;
    SentDeliversAllOrNothing(b, service);
    EventsSplit(Run(ops).requests, Sent(b, service).requests);
  }

  // ---------- When a batch was begun ----------

  /** The call after which a batch is pending that was not before: the first one, or one begun after a sending. */
  predicate BeginsBatch(c: State, op: Op) {
    var step := Do(c, op);
    || (c.batch.None? && step.state.batch.Some?)
    || (|step.state.requests| > |c.requests| && step.outcome != Raised)
  }

  ghost predicate BegunAt(ops: seq<Op>, k: nat) {
    && k < |ops| && BeginsBatch(Run(ops[..k]), ops[k])
    && forall j | k < j < |ops| :: !BeginsBatch(Run(ops[..j]), ops[j])
  }

  lemma BegunStays(ops: seq<Op>, op: Op, k: nat)
    requires BegunAt(ops, k) && !BeginsBatch(Run(ops), op)
    ensures BegunAt(ops + [op], k)
  {
    var all := ops + [op];
    forall j | 0 <= j < |ops|
      ensures all[..j] == ops[..j] && all[j] == ops[j]
    {
    }
    assert all[..|ops|] == ops;
  }

  lemma BatchKeepsAge(c: State, op: Op)
    requires !BeginsBatch(c, op) && StateOk(c)
    ensures Do(c, op).state.batch.Some? ==> c.batch.Some?
    ensures Do(c, op).state.batch.Some? ==> Do(c, op).state.batch.value.created == c.batch.value.created
  {
  }

  lemma BatchBegins(c: State, op: Op)
    requires BeginsBatch(c, op)
    ensures Do(c, op).state.batch.Some? && Do(c, op).state.batch.value.created == op.now
  {
  }

  /** The age of the pending batch counts from the reading of the call that began it. */
  lemma {:induction false} BatchWasBegun(ops: seq<Op>) returns (k: nat)
    requires ReadingsFrom(ops, TIMESTAMP_LIMIT_PAST + 1) && Run(ops).batch.Some?
    ensures BegunAt(ops, k) && Run(ops).batch.value.created == ops[k].now
  {
    var init, op := ops[..|ops| - 1], ops[|ops| - 1];
    assert ops == init + [op];
    if BeginsBatch(Run(init), op) {
      k := |ops| - 1;
      BatchBegins(Run(init), op);
    } else {
      RequestsWithinLimits(init);
      BatchKeepsAge(Run(init), op);
      k := BatchWasBegun(init);
      BegunStays(init, op, k);
    }
  }

  // ---------- What is accepted ----------

  /** In time is from 14 days before to two hours after the reading, both included. */
  lemma TimelyExactly(e: LogEvent, now: int)
    ensures Timely(e, now) <==> now - 14 * 24 * 3600 * 1000 <= e.timestamp.GetOr(0) <= now + 2 * 3600 * 1000
  {
  }

  /** An event that fits stays as it is; of another the start is kept and marked, filling the limit exactly. */
  lemma TruncatedExactly(e: LogEvent)
    ensures var t := Truncated(e);
            && t.timestamp == e.timestamp
            && (Size(e) <= 262144 ==> t == e)
            && (Size(e) > 262144 ==>
                  && Size(t) == 262144
                  && t.message[|t.message| - 14..] == "[Truncated...]"
                  && t.message[..|t.message| - 14] == e.message[..|t.message| - 14])
  {
  }
}
