/** Batching log events for PutLogEvents within the service's limits, with sends that may fail. */
module CloudWatchLogClient {
  import opened Wrappers
  import opened Sorting

  const MAX_EVENT_PAYLOAD_BYTES := 262144
  const MAX_REQUEST_EVENT_COUNT := 10000
  const PER_EVENT_HEADER_BYTES := 26
  const BATCH_FLUSH_INTERVAL := 60000
  const MAX_REQUEST_PAYLOAD_BYTES := 1048576
  const TRUNCATED_SUFFIX := "[Truncated...]"
  const DAY := 86400000
  const TIMESTAMP_LIMIT_PAST := 14 * DAY
  const TIMESTAMP_LIMIT_FUTURE := 7200000

  /** An event dictionary; a missing message and an empty one are treated alike. */
  datatype LogEvent = LogEvent(message: string, timestamp: Option<int>)

  function Size(e: LogEvent): nat { |e.message| + PER_EVENT_HEADER_BYTES }

  function Time(e: LogEvent): int { e.timestamp.GetOr(0) }

  function TotalSize(events: seq<LogEvent>): nat {
    if events == [] then 0 else TotalSize(events[..|events| - 1]) + Size(events[|events| - 1])
  }

  predicate Earlier(a: LogEvent, b: LogEvent) { Time(a) < Time(b) }

  /** The characters `str.strip` removes. */
  predicate IsSpace(c: char) {
    var code := c as int;
    || 0x09 <= code <= 0x0d || 0x1c <= code <= 0x20 || code == 0x85 || code == 0xa0 || code == 0x1680
    || 0x2000 <= code <= 0x200a || code == 0x2028 || code == 0x2029 || code == 0x202f || code == 0x205f
    || code == 0x3000
  }

  predicate Blank(message: string) { forall i | 0 <= i < |message| :: IsSpace(message[i]) }

  /** What validation leaves of an event: an oversized message is cut and marked. */
  function Truncated(e: LogEvent): LogEvent {
    if Size(e) > MAX_EVENT_PAYLOAD_BYTES then
      e.(message := e.message[..MAX_EVENT_PAYLOAD_BYTES - PER_EVENT_HEADER_BYTES - |TRUNCATED_SUFFIX|]
                    + TRUNCATED_SUFFIX)
    else e
  }

  predicate Timely(e: LogEvent, now: int) {
    -TIMESTAMP_LIMIT_FUTURE <= now - Time(e) <= TIMESTAMP_LIMIT_PAST
  }

  // ---------- Values of the client's state ----------

  datatype Batch = Batch(events: seq<LogEvent>, byteTotal: nat, minTime: int, maxTime: int, created: int)

  /** A PutLogEvents call and whether it returned normally. */
  datatype Request = Request(events: seq<LogEvent>, byteTotal: nat, delivered: bool)

  datatype State = State(batch: Option<Batch>, requests: seq<Request>)

  /** How the service answers: a first put, creating the group and stream if they are missing, and a second put. */
  datatype PutResult = Stored | NotFound | Refused

  datatype Service = Service(first: PutResult, resourcesCreated: bool, second: PutResult)

  datatype Outcome = Accepted | Rejected | Raised

  function NewBatch(now: int): Batch { Batch([], 0, 0, 0, now) }

  function WithEvent(b: Batch, e: LogEvent): Batch {
    var t := Time(e);
    Batch(b.events + [e], b.byteTotal + Size(e),
          if b.minTime == 0 || t < b.minTime then t else b.minTime,
          if t > b.maxTime then t else b.maxTime, b.created)
  }

  predicate ExceedsLimit(b: Batch, size: nat) {
    |b.events| >= MAX_REQUEST_EVENT_COUNT || b.byteTotal + size > MAX_REQUEST_PAYLOAD_BYTES
  }

  /** Whether a batch may still take an event of this time; a bound of 0 passes for no bound. */
  predicate Active(b: Batch, time: int, now: int) {
    || b.minTime == 0 || b.maxTime == 0
    || (time - b.minTime <= DAY && b.maxTime - time <= DAY && now - b.created < BATCH_FLUSH_INTERVAL)
  }

  predicate AllTimed(events: seq<LogEvent>) { forall i | 0 <= i < |events| :: events[i].timestamp.Some? }

  datatype Sending = Sending(batch: Batch, requests: seq<Request>, raised: bool)

  /** A batch is sorted, then put once, or twice when the group or stream had to be created. */
  function Sent(b: Batch, s: Service): Sending {
    if b.events == [] then Sending(b, [], false)
    else if !AllTimed(b.events) then Sending(b, [], true)
    else
      var sorted := b.(events := Sort(Earlier, b.events));
      var attempt := (delivered: bool) => Request(sorted.events, sorted.byteTotal, delivered);
      match s.first
      case Stored => Sending(sorted, [attempt(true)], false)
      case Refused => Sending(sorted, [attempt(false)], true)
      case NotFound =>
        if !s.resourcesCreated then Sending(sorted, [attempt(false)], true)
        else if s.second.Stored? then Sending(sorted, [attempt(false), attempt(true)], false)
        else Sending(sorted, [attempt(false), attempt(false)], true)
  }

  datatype Op = Send(event: LogEvent, now: int, service: Service) | Flush(now: int, service: Service)

  datatype Step = Step(state: State, outcome: Outcome)

  function SendStep(c: State, event: LogEvent, now: int, service: Service): Step {
    var e := Truncated(event);
    if Blank(event.message) || !Timely(event, now) then Step(c, Rejected)
    else
      var b := c.batch.GetOr(NewBatch(now));
      if !ExceedsLimit(b, Size(e)) && e.timestamp.None? then Step(c.(batch := Some(b)), Raised)
      else if ExceedsLimit(b, Size(e)) || !Active(b, Time(e), now) then
        var s := Sent(b, service);
        if s.raised then Step(State(Some(s.batch), c.requests + s.requests), Raised)
        else Step(State(Some(WithEvent(NewBatch(now), e)), c.requests + s.requests), Accepted)
      else Step(c.(batch := Some(WithEvent(b, e))), Accepted)
  }

  function FlushStep(c: State, now: int, service: Service): Step {
    if c.batch.None? || c.batch.value.events == [] then Step(c, Accepted)
    else
      var s := Sent(c.batch.value, service);
      Step(State(Some(if s.raised then s.batch else NewBatch(now)), c.requests + s.requests),
           if s.raised then Raised else Accepted)
  }

  function Do(c: State, op: Op): Step {
    match op
    case Send(event, now, service) => SendStep(c, event, now, service)
    case Flush(now, service) => FlushStep(c, now, service)
  }

  const INITIAL := State(None, [])

  function Run(ops: seq<Op>): State {
    if ops == [] then INITIAL else Do(Run(ops[..|ops| - 1]), ops[|ops| - 1]).state
  }

  // ---------- Every request is within the limits ----------

  predicate WithinLimits(events: seq<LogEvent>, byteTotal: nat) {
    && |events| <= MAX_REQUEST_EVENT_COUNT
    && TotalSize(events) == byteTotal <= MAX_REQUEST_PAYLOAD_BYTES
    && forall i | 0 <= i < |events| :: Size(events[i]) <= MAX_EVENT_PAYLOAD_BYTES
  }

  predicate Spans24Hours(events: seq<LogEvent>) {
    forall i, j | 0 <= i < |events| && 0 <= j < |events| :: Time(events[j]) - Time(events[i]) <= DAY
  }

  /** What the service asks of a request. */
  ghost predicate RequestOk(r: Request) {
    && r.events != [] && WithinLimits(r.events, r.byteTotal)
    && IsSorted(Earlier, r.events) && Spans24Hours(r.events)
  }

  /** The pending batch: within the limits, and its tracked times bound its events within a day. */
  predicate BatchOk(b: Batch) {
    && WithinLimits(b.events, b.byteTotal)
    && AllTimed(b.events)
    && (forall i | 0 <= i < |b.events| :: 0 < b.minTime <= Time(b.events[i]) <= b.maxTime)
    && if b.events == [] then b.minTime == 0 == b.maxTime else b.maxTime - b.minTime <= DAY
  }

  ghost predicate StateOk(c: State) {
    && (c.batch.Some? ==> BatchOk(c.batch.value))
    && forall i | 0 <= i < |c.requests| :: RequestOk(c.requests[i])
  }

  lemma {:induction false} TotalSizeSplits(a: seq<LogEvent>, b: seq<LogEvent>)
    ensures TotalSize(a + b) == TotalSize(a) + TotalSize(b)
  {
    if b == [] {
      assert a + b == a;
    } else {
      assert (a + b)[..|a + b| - 1] == a + b[..|b| - 1];
      TotalSizeSplits(a, b[..|b| - 1]);
    }
  }

  lemma TotalSizeOfOne(e: LogEvent)
    ensures TotalSize([e]) == Size(e)
  {
    assert [e][..0] == [];
  }

  lemma {:induction false} InsertKeepsTotal(e: LogEvent, s: seq<LogEvent>)
    ensures TotalSize(Insert(Earlier, e, s)) == Size(e) + TotalSize(s)
  {
    TotalSizeOfOne(e);
    TotalSizeSplits([e], s);
    if s != [] && Earlier(s[0], e) {
      InsertKeepsTotal(e, s[1..]);
      TotalSizeOfOne(s[0]);
      TotalSizeSplits([s[0]], s[1..]);
      TotalSizeSplits([s[0]], Insert(Earlier, e, s[1..]));
      assert s == [s[0]] + s[1..];
    }
  }

  lemma {:induction false} SortKeepsTotal(s: seq<LogEvent>)
    ensures TotalSize(Sort(Earlier, s)) == TotalSize(s)
  {
    if s != [] {
      SortKeepsTotal(s[1..]);
      InsertKeepsTotal(s[0], Sort(Earlier, s[1..]));
      TotalSizeOfOne(s[0]);
      TotalSizeSplits([s[0]], s[1..]);
      assert s == [s[0]] + s[1..];
    }
  }

  lemma SortedMember(s: seq<LogEvent>, i: nat)
    requires i < |Sort(Earlier, s)|
    ensures exists j :: 0 <= j < |s| && s[j] == Sort(Earlier, s)[i]
  {
    SortKeepsMembers(Earlier, s);
    assert Sort(Earlier, s)[i] in multiset(s);
  }

  /** Events with the same timestamp stay in the order they were added. */
  lemma EqualTimesKeepOrder(b: Batch, time: int)
    ensures Filter((e: LogEvent) => Time(e) == time, Sort(Earlier, b.events))
         == Filter((e: LogEvent) => Time(e) == time, b.events)
  {
    SortIsStable(Earlier, (e: LogEvent) => Time(e) == time, b.events);
  }

  /** Sorting a batch keeps it within the limits and makes a proper request of it. */
  lemma SortedBatchOk(b: Batch, delivered: bool)
    requires BatchOk(b) && b.events != []
    ensures var sorted := Sort(Earlier, b.events);
            BatchOk(b.(events := sorted)) && RequestOk(Request(sorted, b.byteTotal, delivered))
  {
    var sorted := Sort(Earlier, b.events);
    SortKeepsTotal(b.events);
    SortKeepsMembers(Earlier, b.events);
    SortSorts(Earlier, b.events);
    forall i | 0 <= i < |sorted|
      ensures sorted[i].timestamp.Some? && Size(sorted[i]) <= MAX_EVENT_PAYLOAD_BYTES
      ensures 0 < b.minTime <= Time(sorted[i]) <= b.maxTime
    {
      SortedMember(b.events, i);
    }
  }

  lemma SentOk(b: Batch, service: Service)
    requires BatchOk(b)
    ensures var s := Sent(b, service);
            && BatchOk(s.batch) && forall i | 0 <= i < |s.requests| :: RequestOk(s.requests[i])
  {
    if b.events != [] {
      SortedBatchOk(b, true);
      SortedBatchOk(b, false);
    }
  }

  lemma WithEventOk(b: Batch, e: LogEvent, now: int)
    requires BatchOk(b) && !ExceedsLimit(b, Size(e)) && Active(b, Time(e), now)
    requires e.timestamp.Some? && Time(e) > 0 && Size(e) <= MAX_EVENT_PAYLOAD_BYTES
    ensures BatchOk(WithEvent(b, e))
  {
    assert (b.events + [e])[..|b.events|] == b.events;
  }

  lemma JoinedOk(a: seq<Request>, b: seq<Request>)
    requires forall i | 0 <= i < |a| :: RequestOk(a[i])
    requires forall i | 0 <= i < |b| :: RequestOk(b[i])
    ensures forall i | 0 <= i < |a + b| :: RequestOk((a + b)[i])
  {
  }

  lemma FlushOk(c: State, now: int, service: Service)
    requires StateOk(c)
    ensures StateOk(FlushStep(c, now, service).state)
  {
    if c.batch.Some? {
      SentOk(c.batch.value, service);
      JoinedOk(c.requests, Sent(c.batch.value, service).requests);
    }
  }

  lemma SendOk(c: State, event: LogEvent, now: int, service: Service)
    requires StateOk(c) && now > TIMESTAMP_LIMIT_PAST
    ensures StateOk(SendStep(c, event, now, service).state)
  {
    var e, b := Truncated(event), c.batch.GetOr(NewBatch(now));
    if !Blank(event.message) && Timely(event, now) {
      assert e.timestamp.Some? && Time(e) > 0 && Size(e) <= MAX_EVENT_PAYLOAD_BYTES;
      if !ExceedsLimit(b, Size(e)) && Active(b, Time(e), now) {
        WithEventOk(b, e, now);
      } else {
        WithEventOk(NewBatch(now), e, now);
        SentOk(b, service);
        JoinedOk(c.requests, Sent(b, service).requests);
      }
    }
  }

  predicate ReadingsFrom(ops: seq<Op>, from: int) { forall i | 0 <= i < |ops| :: ops[i].now >= from }

  /** In every reachable state, with the clock beyond 14 days after the epoch, every request is within the limits. */
  lemma {:induction false} RequestsWithinLimits(ops: seq<Op>)
    requires ReadingsFrom(ops, TIMESTAMP_LIMIT_PAST + 1)
    ensures StateOk(Run(ops))
  {
    if ops != [] {
      var c, op := Run(ops[..|ops| - 1]), ops[|ops| - 1];
      RequestsWithinLimits(ops[..|ops| - 1]);
      match op
      case Send(event, now, service) => SendOk(c, event, now, service);
      case Flush(now, service) => FlushOk(c, now, service);
    }
  }

  ghost predicate SpansNeverExceedADay(ops: seq<Op>) {
    forall i | 0 <= i < |Run(ops).requests| :: Spans24Hours(Run(ops).requests[i].events)
  }

  const WORKING := Service(Stored, true, Stored)

  function Aged(now: int, age: int): LogEvent { LogEvent("-", Some(now - age)) }

  /** Two events 14 days apart and a flush, all at one reading. */
  function TwoEvents(now: int): seq<Op> {
    [Send(Aged(now, TIMESTAMP_LIMIT_PAST), now, WORKING), Send(Aged(now, 0), now, WORKING), Flush(now, WORKING)]
  }

  lemma {:induction false} RunOfThree(x: Op, y: Op, z: Op)
    ensures Run([x, y, z]) == Do(Do(Do(INITIAL, x).state, y).state, z).state
  {
    assert [x, y, z][..2] == [x, y] && [x, y][..1] == [x] && [x][..0] == [];
    assert Run([x]) == Do(INITIAL, x).state;
    assert Run([x, y]) == Do(Run([x]), y).state;
  }

  /** Both events are accepted into one batch: a bound of 0 lets the second one pass. */
  lemma EarlyClockAcceptsBoth(now: int)
    requires now <= TIMESTAMP_LIMIT_PAST
    ensures var a, b := Aged(now, TIMESTAMP_LIMIT_PAST), Aged(now, 0);
            var c1 := SendStep(INITIAL, a, now, WORKING).state;
            var c2 := SendStep(c1, b, now, WORKING).state;
            c2.requests == [] && c2.batch.Some? && c2.batch.value.events == [a, b]
  {
    var a, b := Aged(now, TIMESTAMP_LIMIT_PAST), Aged(now, 0);
    assert !IsSpace(a.message[0]) && !IsSpace(b.message[0]);
    var b1 := WithEvent(NewBatch(now), a);
    assert SendStep(INITIAL, a, now, WORKING) == Step(State(Some(b1), []), Accepted);
    assert b1.events == [a] && b1.maxTime == 0;
    assert WithEvent(b1, b).events == [a, b];
  }

  lemma FlushSendsSorted(c: State, now: int)
    requires c.requests == [] && c.batch.Some? && c.batch.value.events != [] && AllTimed(c.batch.value.events)
    ensures var requests := FlushStep(c, now, WORKING).state.requests;
            |requests| == 1 && requests[0].events == Sort(Earlier, c.batch.value.events)
  {
  }

  lemma FarApart(events: seq<LogEvent>, a: LogEvent, b: LogEvent)
    requires a in multiset(events) && b in multiset(events) && Time(b) - Time(a) > DAY
    ensures !Spans24Hours(events)
  {
    var i :| 0 <= i < |events| && events[i] == a;
    var j :| 0 <= j < |events| && events[j] == b;
  }

  /** Up to 14 days after the epoch a timestamp can be 0 or less, which the batch takes for no bound at all. */
  lemma EarlyClockSpansTwoWeeks(now: int)
    requires now <= TIMESTAMP_LIMIT_PAST
    ensures !SpansNeverExceedADay(TwoEvents(now))
  {
    var a, b, ops := Aged(now, TIMESTAMP_LIMIT_PAST), Aged(now, 0), TwoEvents(now);
    var c := SendStep(SendStep(INITIAL, a, now, WORKING).state, b, now, WORKING).state;
    assert c.requests == [] && c.batch.Some? && c.batch.value.events == [a, b] by {
      EarlyClockAcceptsBoth(now);
    }
    assert Run(ops) == FlushStep(c, now, WORKING).state by {
      RunOfThree(ops[0], ops[1], ops[2]);
    }
    FlushSendsSorted(c, now);
    assert !Spans24Hours(Run(ops).requests[0].events) by {
      SortKeepsMembers(Earlier, [a, b]);
      FarApart(Sort(Earlier, [a, b]), a, b);
    }
  }

  /** The clock condition is exact: all runs from a reading on keep the day limit if and only if it is past 14 days. */
  lemma ClockConditionIsExact(from: int)
    ensures (forall ops | ReadingsFrom(ops, from) :: SpansNeverExceedADay(ops)) <==> from > TIMESTAMP_LIMIT_PAST
  {
    if from > TIMESTAMP_LIMIT_PAST {
      forall ops | ReadingsFrom(ops, from)
        ensures SpansNeverExceedADay(ops)
      {
        RequestsWithinLimits(ops);
      }
    } else {
      EarlyClockSpansTwoWeeks(from);
      assert ReadingsFrom(TwoEvents(from), from);
    }
  }

  // ---------- Nothing is lost and nothing is delivered twice ----------

  function Events(requests: seq<Request>): multiset<LogEvent> {
    if requests == [] then multiset{}
    else Events(requests[..|requests| - 1])
         + if requests[|requests| - 1].delivered then multiset(requests[|requests| - 1].events) else multiset{}
  }

  function Pending(c: State): multiset<LogEvent> {
    if c.batch.Some? then multiset(c.batch.value.events) else multiset{}
  }

  /** The events taken by calls that returned normally, as validation left them. */
  function AcceptedEvents(ops: seq<Op>): multiset<LogEvent> {
    if ops == [] then multiset{}
    else
      var last := ops[|ops| - 1];
      AcceptedEvents(ops[..|ops| - 1])
      + if last.Send? && Do(Run(ops[..|ops| - 1]), last).outcome.Accepted? then multiset{Truncated(last.event)}
        else multiset{}
  }

  lemma {:induction false} EventsSplit(a: seq<Request>, b: seq<Request>)
    ensures Events(a + b) == Events(a) + Events(b)
  {
    if b == [] {
      assert a + b == a;
    } else {
      assert (a + b)[..|a + b| - 1] == a + b[..|b| - 1];
      EventsSplit(a, b[..|b| - 1]);
    }
  }

  lemma {:induction false} OnlyLastDelivers(rs: seq<Request>, events: seq<LogEvent>, delivered: bool)
    requires forall i | 0 <= i < |rs| ::
               rs[i].events == events && (rs[i].delivered <==> delivered && i == |rs| - 1)
    ensures Events(rs) == if delivered && rs != [] then multiset(events) else multiset{}
  {
    if rs != [] {
      OnlyLastDelivers(rs[..|rs| - 1], events, false);
    }
  }

  lemma SentRequests(b: Batch, service: Service)
    ensures var s := Sent(b, service);
            && (!s.raised && s.requests == [] ==> s.batch.events == [])
            && forall i | 0 <= i < |s.requests| ::
                 && s.requests[i].events == s.batch.events
                 && (s.requests[i].delivered <==> !s.raised && i == |s.requests| - 1)
  {
  }

  lemma SentKeepsEvents(b: Batch, service: Service)
    ensures multiset(Sent(b, service).batch.events) == multiset(b.events)
  {
    SortKeepsMembers(Earlier, b.events);
  }

  /** A sending delivers the whole batch once, or none of it and keeps it all. */
  lemma SentDeliversAllOrNothing(b: Batch, service: Service)
    ensures var s := Sent(b, service);
            && multiset(s.batch.events) == multiset(b.events)
            && Events(s.requests) == if s.raised then multiset{} else multiset(b.events)
  {
    SentKeepsEvents(b, service);
    SentRequests(b, service);
    var s := Sent(b, service);
    OnlyLastDelivers(s.requests, s.batch.events, !s.raised);
  }

  function Held(c: State): multiset<LogEvent> { Events(c.requests) + Pending(c) }

  /** Whether a call has to send the pending batch first. */
  predicate MustSend(c: State, event: LogEvent, now: int) {
    var b, e := c.batch.GetOr(NewBatch(now)), Truncated(event);
    && !Blank(event.message) && Timely(event, now)
    && (ExceedsLimit(b, Size(e)) || (e.timestamp.Some? && !Active(b, Time(e), now)))
  }

  lemma SendingConserves(c: State, event: LogEvent, now: int, service: Service)
    requires MustSend(c, event, now)
    ensures var step := SendStep(c, event, now, service);
            Held(step.state) == Held(c) + if step.outcome.Accepted? then multiset{Truncated(event)} else multiset{}
  {
    var b := c.batch.GetOr(NewBatch(now));
    var s := Sent(b, service);
    SentDeliversAllOrNothing(b, service);
    EventsSplit(c.requests, s.requests);
    assert SendStep(c, event, now, service).state.requests == c.requests + s.requests;
    assert NewBatch(now).events + [Truncated(event)] == [Truncated(event)];
  }

  lemma SendConserves(c: State, event: LogEvent, now: int, service: Service)
    ensures var step := SendStep(c, event, now, service);
            Held(step.state) == Held(c) + if step.outcome.Accepted? then multiset{Truncated(event)} else multiset{}
  {
    if MustSend(c, event, now) {
      SendingConserves(c, event, now, service);
    } else {
      var b, e := c.batch.GetOr(NewBatch(now)), Truncated(event);
      assert SendStep(c, event, now, service).state.requests == c.requests;
      assert multiset(b.events + [e]) == multiset(b.events) + multiset{e};
    }
  }

  lemma FlushConserves(c: State, now: int, service: Service)
    ensures Held(FlushStep(c, now, service).state) == Held(c)
  {
    if c.batch.Some? {
      SentDeliversAllOrNothing(c.batch.value, service);
      EventsSplit(c.requests, Sent(c.batch.value, service).requests);
    }
  }

  /** Under any pattern of answers, accepted events are exactly those delivered and those pending, each once. */
  lemma {:induction false} EventsConserved(ops: seq<Op>)
    ensures AcceptedEvents(ops) == Events(Run(ops).requests) + Pending(Run(ops))
  {
    if ops != [] {
      EventsConserved(ops[..|ops| - 1]);
      match ops[|ops| - 1]
      case Send(event, now, service) => SendConserves(Run(ops[..|ops| - 1]), event, now, service);
      case Flush(now, service) => FlushConserves(Run(ops[..|ops| - 1]), now, service);
    }
  }

  // ---------- The client object ----------

  class LogEventBatch {
    var logEvents: seq<LogEvent>
    var byteTotal: nat
    var minTimestampMs: int
    var maxTimestampMs: int
    var createdTimestampMs: int

    function View(): Batch
      reads this
    {
      Batch(logEvents, byteTotal, minTimestampMs, maxTimestampMs, createdTimestampMs)
    }

    constructor (now: int)
      ensures View() == NewBatch(now)
    {
      logEvents, byteTotal, minTimestampMs, maxTimestampMs, createdTimestampMs := [], 0, 0, 0, now;
    }

    method AddEvent(logEvent: LogEvent, eventSize: nat)
      requires eventSize == Size(logEvent)
      modifies this
      ensures View() == WithEvent(old(View()), logEvent)
    {
      logEvents := logEvents + [logEvent];
      byteTotal := byteTotal + eventSize;
      var timestamp := logEvent.timestamp.GetOr(0);
      if minTimestampMs == 0 || timestamp < minTimestampMs {
        minTimestampMs := timestamp;
      }
      if timestamp > maxTimestampMs {
        maxTimestampMs := timestamp;
      }
    }
  }

  class Client {
    var eventBatch: LogEventBatch?
    var requests: seq<Request>

    function View(): State
      reads this, eventBatch
    {
      State(if eventBatch == null then None else Some(eventBatch.View()), requests)
    }

    constructor ()
      ensures View() == INITIAL && eventBatch == null
    {
      eventBatch, requests := null, [];
    }

    /** `event'` is the event dictionary as validation leaves it: cut even when it is then rejected for its time. */
    method ValidateLogEvent(logEvent: LogEvent, now: int) returns (valid: bool, event': LogEvent)
      ensures valid <==> !Blank(logEvent.message) && Timely(logEvent, now)
      ensures event' == if Blank(logEvent.message) then logEvent else Truncated(logEvent)
    {
      event' := logEvent;
      var blank := true;
      for i := 0 to |logEvent.message|
        invariant blank <==> Blank(logEvent.message[..i])
      {
        assert logEvent.message[..i + 1][..i] == logEvent.message[..i];
        blank := blank && IsSpace(logEvent.message[i]);
        assert Blank(logEvent.message[..i + 1]) ==> IsSpace(logEvent.message[..i + 1][i]);
        assert Blank(logEvent.message[..i + 1]) ==> Blank(logEvent.message[..i + 1][..i]);
      }
      assert logEvent.message[..|logEvent.message|] == logEvent.message;
      if blank {
        return false, event';
      }
      var messageSize := |logEvent.message| + PER_EVENT_HEADER_BYTES;
      if messageSize > MAX_EVENT_PAYLOAD_BYTES {
        var maxMessageSize := MAX_EVENT_PAYLOAD_BYTES - PER_EVENT_HEADER_BYTES - |TRUNCATED_SUFFIX|;
        event' := logEvent.(message := logEvent.message[..maxMessageSize] + TRUNCATED_SUFFIX);
      }
      var timeDiff := now - logEvent.timestamp.GetOr(0);
      valid := !(timeDiff > TIMESTAMP_LIMIT_PAST || timeDiff < -TIMESTAMP_LIMIT_FUTURE);
    }

    method Put(batch: LogEventBatch, result: PutResult)
      modifies this`requests
      ensures requests == old(requests) + [Request(batch.logEvents, batch.byteTotal, result.Stored?)]
    {
      requests := requests + [Request(batch.logEvents, batch.byteTotal, result.Stored?)];
    }

    method SendLogBatch(batch: LogEventBatch, service: Service) returns (raised: bool)
      modifies this`requests, batch
      ensures var s := Sent(old(batch.View()), service);
              batch.View() == s.batch && requests == old(requests) + s.requests && raised == s.raised
    {
      if batch.logEvents == [] {
        return false;
      }
      if !AllTimed(batch.logEvents) {
        return true;
      }
      batch.logEvents := Sort(Earlier, batch.logEvents);
      SortKeepsMembers(Earlier, old(batch.logEvents));
      Put(batch, service.first);
      match service.first {
        case Stored => return false;
        case Refused => return true;
        case NotFound =>
          if !service.resourcesCreated {
            return true;
          }
          Put(batch, service.second);
          return !service.second.Stored?;
      }
    }

    method SendLogEvent(logEvent: LogEvent, now: int, service: Service) returns (outcome: Outcome)
      modifies this, eventBatch
      ensures Step(View(), outcome) == SendStep(old(View()), logEvent, now, service)
      ensures eventBatch == old(eventBatch) || fresh(eventBatch)
    {
      var valid, event := ValidateLogEvent(logEvent, now);
      if !valid {
        return Rejected;
      }
      var eventSize := |event.message| + PER_EVENT_HEADER_BYTES;
      if eventBatch == null {
        eventBatch := new LogEventBatch(now);
      }
      var currentBatch := eventBatch;
      var full := |currentBatch.logEvents| >= MAX_REQUEST_EVENT_COUNT
                  || currentBatch.byteTotal + eventSize > MAX_REQUEST_PAYLOAD_BYTES;
      if !full && event.timestamp.None? {
        return Raised;
      }
      if full || !Active(currentBatch.View(), event.timestamp.value, now) {
        var raised := SendLogBatch(currentBatch, service);
        if raised {
          return Raised;
        }
        eventBatch := new LogEventBatch(now);
        currentBatch := eventBatch;
      }
      currentBatch.AddEvent(event, eventSize);
      return Accepted;
    }

    method FlushPendingEvents(now: int, service: Service) returns (outcome: Outcome)
      modifies this, eventBatch
      ensures Step(View(), outcome) == FlushStep(old(View()), now, service)
      ensures eventBatch == old(eventBatch) || fresh(eventBatch)
    {
      if eventBatch != null && eventBatch.logEvents != [] {
        var raised := SendLogBatch(eventBatch, service);
        if raised {
          return Raised;
        }
        eventBatch := new LogEventBatch(now);
      }
      return Accepted;
    }
  }
}
