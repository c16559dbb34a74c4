/** Splitting popped logs into exports that respect the request size limit. */
module BatchLogProcessor {
  import opened Sequences
  import opened LogSizeEstimator

  datatype Log = Log(body: Value, attributes: Value)

  // ---------- Splits of a list of logs ----------

  function Total(size: Log -> nat, logs: seq<Log>): nat {
    if logs == [] then 0 else Total(size, logs[..|logs| - 1]) + size(logs[|logs| - 1])
  }

  function Flatten(groups: seq<seq<Log>>): seq<Log> {
    if groups == [] then [] else groups[0] + Flatten(groups[1..])
  }

  /** A request may exceed the size limit only by holding a single log. */
  predicate Fits(size: Log -> nat, group: seq<Log>) {
    Total(size, group) <= MAX_LOG_REQUEST_BYTE_SIZE || |group| == 1
  }

  /** A way of cutting logs into consecutive requests. */
  ghost predicate IsSplit(size: Log -> nat, groups: seq<seq<Log>>, logs: seq<Log>) {
    Flatten(groups) == logs && forall i | 0 <= i < |groups| :: Fits(size, groups[i])
  }

  /** The requests still to come, given those logs already gathered for the current one. */
  function Split(size: Log -> nat, batch: seq<Log>, logs: seq<Log>): seq<seq<Log>>
    decreases |logs|
  {
    if logs == [] then if batch == [] then [] else [batch]
    else if batch != [] && Total(size, batch) + size(logs[0]) > MAX_LOG_REQUEST_BYTE_SIZE
    then [batch] + Split(size, [logs[0]], logs[1..])
    else Split(size, batch + [logs[0]], logs[1..])
  }

  /** Whether a log would overfill the current request. */
  predicate Cuts(size: Log -> nat, batch: seq<Log>, log: Log) {
    batch != [] && Total(size, batch) + size(log) > MAX_LOG_REQUEST_BYTE_SIZE
  }

  lemma SplitStep(size: Log -> nat, batch: seq<Log>, log: Log, rest: seq<Log>)
    ensures Split(size, batch, [log] + rest) ==
              if Cuts(size, batch, log) then [batch] + Split(size, [log], rest) else Split(size, batch + [log], rest)
  {
    assert ([log] + rest)[1..] == rest;
  }

  lemma TotalOfOneMore(size: Log -> nat, logs: seq<Log>, log: Log)
    ensures Total(size, logs + [log]) == Total(size, logs) + size(log)
  {
    assert (logs + [log])[..|logs|] == logs;
  }

  lemma {:induction false} TotalSplits(size: Log -> nat, a: seq<Log>, b: seq<Log>)
    ensures Total(size, a + b) == Total(size, a) + Total(size, b)
  {
    if b == [] {
      assert a + b == a;
    } else {
      assert (a + b)[..|a + b| - 1] == a + b[..|b| - 1];
      TotalSplits(size, a, b[..|b| - 1]);
    }
  }

  /** The requests made are a split of the logs: nothing lost, reordered or over the limit, and none is empty. */
  lemma {:induction false} SplitIsSplit(size: Log -> nat, batch: seq<Log>, logs: seq<Log>)
    requires Fits(size, batch)
    ensures IsSplit(size, Split(size, batch, logs), batch + logs)
    ensures forall i | 0 <= i < |Split(size, batch, logs)| :: Split(size, batch, logs)[i] != []
    decreases |logs|
  {
    if logs == [] {
      assert batch + logs == batch;
      assert batch != [] ==> [batch][1..] == [] && Flatten([batch]) == batch + Flatten([]);
    } else {
      var x, rest := logs[0], logs[1..];
      assert batch + logs == batch + [x] + rest;
      if batch != [] && Total(size, batch) + size(x) > MAX_LOG_REQUEST_BYTE_SIZE {
        SplitIsSplit(size, [x], rest);
        var groups := Split(size, [x], rest);
        assert ([batch] + groups)[1..] == groups;
        assert batch + ([x] + rest) == batch + logs;
      } else {
        TotalOfOneMore(size, batch, x);
        SplitIsSplit(size, batch + [x], rest);
      }
    }
  }

  lemma {:induction false} FlattenOneMore(groups: seq<seq<Log>>, group: seq<Log>)
    ensures Flatten(groups + [group]) == Flatten(groups) + group
  {
    if groups == [] {
      assert [group][1..] == [] && groups + [group] == [group];
    } else {
      FlattenOneMore(groups[1..], group);
      assert (groups + [group])[1..] == groups[1..] + [group];
    }
  }

  /** What is left of a split once its first k logs are gone. */
  function Trim(groups: seq<seq<Log>>, k: nat): seq<seq<Log>> {
    if groups == [] || k == 0 then groups
    else if |groups[0]| <= k then Trim(groups[1..], k - |groups[0]|)
    else [groups[0][k..]] + groups[1..]
  }

  lemma {:induction false} TrimIsSplit(size: Log -> nat, groups: seq<seq<Log>>, logs: seq<Log>, k: nat)
    requires IsSplit(size, groups, logs) && k <= |logs|
    ensures IsSplit(size, Trim(groups, k), logs[k..]) && |Trim(groups, k)| <= |groups|
  {
    if groups != [] && k > 0 {
      var first, rest := groups[0], groups[1..];
      if |first| <= k {
        TrimIsSplit(size, rest, Flatten(rest), k - |first|);
        assert Flatten(rest)[k - |first|..] == logs[k..];
      } else {
        assert first == first[..k] + first[k..];
        TotalSplits(size, first[..k], first[k..]);
        var trimmed := [first[k..]] + rest;
        assert trimmed[1..] == rest;
        assert first[k..] + Flatten(rest) == logs[k..];
      }
    }
  }

  /** The first group of a split ends within a request that is cut off, or is as long. */
  lemma FirstGroupIsNoLonger(size: Log -> nat, batch: seq<Log>, x: Log, rest: seq<Log>, groups: seq<seq<Log>>)
    requires IsSplit(size, groups, batch + ([x] + rest)) && Cuts(size, batch, x)
    ensures groups != [] && |groups[0]| <= |batch|
    ensures Flatten(groups[1..]) == (batch + ([x] + rest))[|groups[0]|..]
  {
    var logs, first := batch + ([x] + rest), groups[0];
    assert first + Flatten(groups[1..]) == logs && Fits(size, first);
    assert first == logs[..|first|];
    if |first| > |batch| {
      assert first == (batch + [x]) + first[|batch| + 1..];
      TotalOfOneMore(size, batch, x);
      TotalSplits(size, batch + [x], first[|batch| + 1..]);
      assert false;
    }
  }

  /** What is left of a split once a request cut off before x is gone. */
  lemma RestOfSplit(size: Log -> nat, batch: seq<Log>, x: Log, rest: seq<Log>, groups: seq<seq<Log>>)
    returns (left: seq<seq<Log>>)
    requires IsSplit(size, groups, batch + ([x] + rest)) && Cuts(size, batch, x)
    ensures IsSplit(size, left, [x] + rest) && |left| < |groups|
  {
    FirstGroupIsNoLonger(size, batch, x, rest, groups);
    var logs, k := batch + ([x] + rest), |batch| - |groups[0]|;
    var tail := logs[|groups[0]|..];
    assert forall i | 0 <= i < |groups[1..]| :: groups[1..][i] == groups[i + 1];
    TrimIsSplit(size, groups[1..], tail, k);
    assert tail[k..] == [x] + rest;
    left := Trim(groups[1..], k);
  }

  /** No split of the logs has fewer requests. */
  lemma {:induction false} SplitIsShortest(
      size: Log -> nat, batch: seq<Log>, logs: seq<Log>, groups: seq<seq<Log>>)
    requires IsSplit(size, groups, batch + logs)
    ensures |Split(size, batch, logs)| <= |groups|
    decreases |logs|
  {
    if logs != [] {
      var x, rest := logs[0], logs[1..];
      assert logs == [x] + rest;
      SplitStep(size, batch, x, rest);
      if Cuts(size, batch, x) {
        var left := RestOfSplit(size, batch, x, rest, groups);
        SplitIsShortest(size, [x], rest, left);
      } else {
        ConcatIsAssociative(batch, [x], rest);
        SplitIsShortest(size, batch + [x], rest, groups);
      }
    } else {
      assert batch + logs == batch;
    }
  }

  // ---------- The early exit is invisible ----------

  /** Two running totals that lead to the same decisions on sizes of at least 1. */
  predicate SameForBatching(a: int, b: int) {
    a == b || (a >= MAX_LOG_REQUEST_BYTE_SIZE && b >= MAX_LOG_REQUEST_BYTE_SIZE)
  }

  /** Estimates of at least 1 that differ only from the limit on. */
  ghost predicate Alike(early: Log -> nat, full: Log -> nat) {
    forall log {:trigger early(log)} ::
      early(log) >= 1 && full(log) >= 1 && AgreeUpToLimit(early(log), full(log))
  }

  /** They decide alike whether a log overfills a request, and go on being alike. */
  lemma DecideAlike(early: Log -> nat, full: Log -> nat, batch: seq<Log>, x: Log)
    requires Alike(early, full) && SameForBatching(Total(early, batch), Total(full, batch))
    ensures Cuts(early, batch, x) <==> Cuts(full, batch, x)
    ensures !Cuts(early, batch, x) ==> SameForBatching(Total(early, batch + [x]), Total(full, batch + [x]))
    ensures SameForBatching(Total(early, [x]), Total(full, [x]))
  {
    assert early(x) >= 1 && full(x) >= 1;
    TotalOfOneMore(early, batch, x);
    TotalOfOneMore(full, batch, x);
    TotalOfOneMore(early, [], x);
    TotalOfOneMore(full, [], x);
    assert [] + [x] == [x];
  }

  /**
    Estimates that agree up to the limit split every sequence of logs alike.  That no size is 0 matters: an oversized
    estimate then always closes its request.
   */
  lemma {:induction false} EarlyExitInvisible(
      early: Log -> nat, full: Log -> nat, batch: seq<Log>, logs: seq<Log>)
    requires forall log :: early(log) >= 1 && full(log) >= 1 && AgreeUpToLimit(early(log), full(log))
    requires SameForBatching(Total(early, batch), Total(full, batch))
    ensures Split(early, batch, logs) == Split(full, batch, logs)
    decreases |logs|
  {
    if logs != [] {
      var x, rest := logs[0], logs[1..];
      assert logs == [x] + rest && Alike(early, full);
      DecideAlike(early, full, batch, x);
      SplitStep(early, batch, x, rest);
      SplitStep(full, batch, x, rest);
      EarlyExitInvisible(early, full, if Cuts(early, batch, x) then [x] else batch + [x], rest);
    }
  }

  // ---------- The processor ----------

  /** A call of the exporter and whether it raised. */
  datatype Call = Call(batch: seq<Log>, raised: bool)

  /** The exporter as the processor sees it: `raises(n)` says whether its n-th call raises. */
  class Exporter {
    const raises: nat -> bool
    var calls: seq<Call>

    constructor (raises: nat -> bool)
      ensures calls == [] && this.raises == raises
    {
      this.raises := raises;
      calls := [];
    }

    method Export(batch: seq<Log>) returns (raised: bool)
      modifies this
      ensures raised == raises(|old(calls)|) && calls == old(calls) + [Call(batch, raised)]
    {
      raised := raises(|calls|);
      calls := calls + [Call(batch, raised)];
    }
  }

  /** Calls with these batches, of which only the last may have raised. */
  function CallsFor(batches: seq<seq<Log>>, raised: bool): seq<Call> {
    seq(|batches|, i requires 0 <= i < |batches| => Call(batches[i], raised && i == |batches| - 1))
  }

  /** How many of `n` requests are exported, counting calls on from `from`: all, or up to the first that raises. */
  function Made(raises: nat -> bool, from: nat, n: nat): (made: nat)
    ensures made <= n && (n > 0 ==> made > 0)
    decreases n
  {
    if n == 0 then 0 else if raises(from) then 1 else 1 + Made(raises, from + 1, n - 1)
  }

  predicate AnyRaises(raises: nat -> bool, from: nat, n: int) { exists k :: from <= k < from + n && raises(k) }

  /** The calls from `from` on were answered by the exporter, and only the last of them may have raised. */
  predicate Answered(raises: nat -> bool, from: nat, made: nat, raised: bool) {
    forall k | from <= k < from + made :: raises(k) <==> raised && k == from + made - 1
  }

  lemma AnsweredOneMore(raises: nat -> bool, from: nat, made: nat, raised: bool)
    requires Answered(raises, from, made, false) && (raises(from + made) <==> raised)
    ensures Answered(raises, from, made + 1, raised)
  {
  }

  lemma {:induction false} AnsweredIsMade(raises: nat -> bool, from: nat, made: nat, raised: bool, n: nat)
    requires Answered(raises, from, made, raised) && made <= n && (raised ==> made > 0) && (!raised ==> made == n)
    ensures Made(raises, from, n) == made && (raised <==> AnyRaises(raises, from, n))
    decreases n
  {
    if made > 1 {
      assert !raises(from);
      AnsweredIsMade(raises, from + 1, made - 1, raised, n - 1);
    } else if made == 1 {
      assert raises(from) <==> raised;
      if !raised {
        assert Made(raises, from + 1, 0) == 0;
      }
    }
  }

  /** Not all requests are exported if and only if a call before the last one raises. */
  lemma {:induction false} NotAllMadeExactly(raises: nat -> bool, from: nat, n: nat)
    requires n > 0
    ensures Made(raises, from, n) < n <==> AnyRaises(raises, from, n - 1)
    decreases n
  {
    if n > 1 && !raises(from) {
      NotAllMadeExactly(raises, from + 1, n - 1);
      if k :| from <= k < from + (n - 1) && raises(k) {
        assert from + 1 <= k < from + 1 + (n - 2);
      }
    }
  }

  /** The queue is popped from its end, where the oldest log is. */
  function OldestFirst(queue: seq<Log>): seq<Log> {
    seq(|queue|, i requires 0 <= i < |queue| => queue[|queue| - 1 - i])
  }

  function SizeOf(h: Heap, log: Log): nat { FullScan(h, log.body, log.attributes, 3).size }

  /** `size` is the estimate without early exit. */
  ghost predicate IsFullSize(h: Heap, size: Log -> nat) {
    forall log {:trigger SizeOf(h, log)} :: size(log) == SizeOf(h, log)
  }

  method EstimateSize(h: Heap, log: Log, ghost size: Log -> nat) returns (estimate: nat)
    requires IsFullSize(h, size)
    ensures estimate >= 1 && AgreeUpToLimit(estimate, size(log))
  {
    estimate := EstimateLogSize(h, log.body, log.attributes);
    assert size(log) == SizeOf(h, log);
  }

  class Processor {
    const exporter: Exporter
    const maxExportBatchSize: nat
    var queue: seq<Log>

    constructor (exporter: Exporter, maxExportBatchSize: nat, queue: seq<Log>)
      ensures this.exporter == exporter && this.maxExportBatchSize == maxExportBatchSize && this.queue == queue
    {
      this.exporter := exporter;
      this.maxExportBatchSize := maxExportBatchSize;
      this.queue := queue;
    }

    /** Adds one popped log to the current request, exporting that request first if the log would overfill it. */
    method Gather(h: Heap, logData: Log, batch: seq<Log>, batchDataSize: int, ghost size: Log -> nat)
      returns (raised: bool, batch': seq<Log>, batchDataSize': int)
      requires IsFullSize(h, size) && FairTotal(size, batch, batchDataSize)
      modifies exporter
      ensures Cuts(size, batch, logData) ==>
                && exporter.calls == old(exporter.calls) + [Call(batch, raised)] && batch' == [logData]
                && raised == exporter.raises(|old(exporter.calls)|)
      ensures !Cuts(size, batch, logData) ==>
                !raised && exporter.calls == old(exporter.calls) && batch' == batch + [logData]
      ensures FairTotal(size, batch', batchDataSize')
    {
      var logSize := EstimateSize(h, logData, size);
      SameDecision(size, batchDataSize, batch, logSize, logData);
      if batch != [] && batchDataSize + logSize > MAX_LOG_REQUEST_BYTE_SIZE {
        raised := exporter.Export(batch);
        batchDataSize', batch' := logSize, [logData];
      } else {
        raised := false;
        batchDataSize', batch' := batchDataSize + logSize, batch + [logData];
      }
    }

    /**
      One pop run.  The calls it makes are the requests of the split of the popped logs, up to the first that raises; a
      run cut short also gives up the one log it had popped beyond that request.
     */
    method PopRun(h: Heap, ghost size: Log -> nat) returns (raised: bool, ghost made: nat)
      requires IsFullSize(h, size)
      modifies this, exporter
      ensures
        var length := if maxExportBatchSize < |old(queue)| then maxExportBatchSize else |old(queue)|;
        var groups := Split(size, [], OldestFirst(old(queue))[..length]);
        var from := |old(exporter.calls)|;
        && made == Made(exporter.raises, from, |groups|) && (raised <==> AnyRaises(exporter.raises, from, |groups|))
        && exporter.calls == old(exporter.calls) + CallsFor(groups[..made], raised)
        && queue == LeftBy(size, old(queue), length, exporter.raises, from)
        && RunResult(size, old(queue), length, made, queue, raised)
    {
      var batchLength := if maxExportBatchSize < |queue| then maxExportBatchSize else |queue|;
      ghost var popped := OldestFirst(queue)[..batchLength];
      var batch;
      ghost var done;
      raised, batch, done := GatherAll(h, size, batchLength);
      if !raised {
        AllGathered(size, popped, done, batch);
        if batch != [] {
          raised := exporter.Export(batch);
          CallRecorded(old(exporter.calls), done, batch, raised);
          done := done + [batch];
        }
      }
      made := |done|;
      AnsweredIsMade(exporter.raises, |old(exporter.calls)|, made, raised, |Split(size, [], popped)|);
      RunLeaves(size, old(queue), batchLength, made, queue, raised, exporter.raises, |old(exporter.calls)|);
    }

    /**
      The export loop.  `shouldExport` decides, from the queue length and the number of runs so far, whether to go on;
      all that is assumed of it is that it stops at an empty queue.  Every call made holds at least one log and respects
      the limit; no log is exported twice; the logs lost are one for each run cut short; and when no call raises, the
      batches in order followed by what is left of the queue are the old queue (see Accounted).
     */
    method Export(h: Heap, ghost size: Log -> nat, shouldExport: (nat, nat) -> bool) returns (ghost runs: seq<Run>)
      requires IsFullSize(h, size) && maxExportBatchSize > 0
      requires forall iteration: nat :: !shouldExport(0, iteration)
      modifies this, exporter
      ensures exporter.calls == old(exporter.calls) + CallsOf(runs)
      ensures AreRuns(size, maxExportBatchSize, exporter.raises, |old(exporter.calls)|, runs)
      ensures Accounted(size, old(queue), CallsOf(runs), queue)
      ensures |old(queue)| == |Flatten(Batches(CallsOf(runs)))| + |queue| + CutShorts(runs)
    {
      var iteration := 0;
      runs := [];
      NothingAccounted(size, queue);
      while shouldExport(|queue|, iteration)
        invariant exporter.calls == old(exporter.calls) + CallsOf(runs)
        invariant AreRuns(size, maxExportBatchSize, exporter.raises, |old(exporter.calls)|, runs)
        invariant OnTheBooks(size, old(queue), runs, queue)
        decreases |queue|
      {
        assert !shouldExport(0, iteration);
        iteration := iteration + 1;
        ghost var run := RunOnce(h, size);
        ConcatIsAssociative(old(exporter.calls), CallsOf(runs), CallsFor(run.exported, run.raised));
        OneMoreOnTheBooks(size, old(queue), runs, run, queue);
        OneMoreRun(runs, run);
        RunsFollow(size, maxExportBatchSize, exporter.raises, |old(exporter.calls)|, runs, run);
        runs := runs + [run];
      }
    }

    method RunOnce(h: Heap, ghost size: Log -> nat) returns (ghost run: Run)
      requires IsFullSize(h, size) && maxExportBatchSize > 0 && queue != []
      modifies this, exporter
      ensures IsRun(size, maxExportBatchSize, exporter.raises, run)
      ensures run.before == old(queue) && run.from == |old(exporter.calls)|
      ensures exporter.calls == old(exporter.calls) + CallsFor(run.exported, run.raised)
      ensures RunConserves(size, run.before, run.exported, queue, run.raised)
      ensures |run.before| == |Flatten(run.exported)| + |queue| + if IsCutShort(run) then 1 else 0
    {
      ghost var before, from, made := queue, |exporter.calls|, 0;
      ghost var length := if maxExportBatchSize < |queue| then maxExportBatchSize else |queue|;
      var raised;
      raised, made := PopRun(h, size);
      ghost var groups := Split(size, [], OldestFirst(before)[..length]);
      run := Run(before, groups, from, groups[..made], raised);
      PopRunConserves(size, before, length, made, queue, raised);
      GivenUpAtMostOne(size, before, length, made);
    }

    /** Pops one log and gathers it; `done` are the requests exported before, `made` also the one exported by this. */
    method GatherNext(h: Heap, batch: seq<Log>, batchDataSize: int, ghost size: Log -> nat, ghost popped: seq<Log>,
                      ghost i: nat, ghost done: seq<seq<Log>>, ghost earlier: seq<Call>)
      returns (raised: bool, batch': seq<Log>, batchDataSize': int, ghost made: seq<seq<Log>>)
      requires IsFullSize(h, size) && FairTotal(size, batch, batchDataSize)
      requires i < |popped| && queue != [] && queue[|queue| - 1] == popped[i]
      requires Progress(size, popped, done, batch, i)
      requires exporter.calls == earlier + CallsFor(done, false)
      requires Answered(exporter.raises, |earlier|, |done|, false)
      modifies this`queue, exporter
      ensures queue == old(queue)[..|old(queue)| - 1]
      ensures exporter.calls == earlier + CallsFor(made, raised)
      ensures Answered(exporter.raises, |earlier|, |made|, raised)
      ensures FairTotal(size, batch', batchDataSize') && Progress(size, popped, made, batch', i + 1)
      ensures raised ==> IsCutAt(size, popped, made, i + 1)
    {
      var logData := queue[|queue| - 1];
      queue := queue[..|queue| - 1];
      made := done;
      GatherProgress(size, popped, done, batch, i);
      raised, batch', batchDataSize' := Gather(h, logData, batch, batchDataSize, size);
      if Cuts(size, batch, logData) {
        CallRecorded(earlier, done, batch, raised);
        AnsweredOneMore(exporter.raises, |earlier|, |done|, raised);
        made := done + [batch];
      }
    }

    /** The popping loop: everything but the last export. */
    method GatherAll(h: Heap, ghost size: Log -> nat, batchLength: nat)
      returns (raised: bool, batch: seq<Log>, ghost done: seq<seq<Log>>)
      requires IsFullSize(h, size) && batchLength <= |queue|
      modifies this, exporter
      ensures exporter.calls == old(exporter.calls) + CallsFor(done, raised)
      ensures Answered(exporter.raises, |old(exporter.calls)|, |done|, raised)
      ensures
        var popped := OldestFirst(old(queue))[..batchLength];
        var groups := Split(size, [], popped);
        && (raised ==> 0 < |done| <= |groups| && groups[..|done|] == done
                       && Consumed(groups, |done|) <= batchLength
                       && queue == old(queue)[..|old(queue)| - Consumed(groups, |done|)])
        && (!raised ==> Progress(size, popped, done, batch, batchLength)
                        && queue == old(queue)[..|old(queue)| - batchLength])
    {
      var batchDataSize := 0;
      raised, batch, done := false, [], [];
      ghost var popped := OldestFirst(queue)[..batchLength];
      for i := 0 to batchLength
        invariant !raised && queue == old(queue)[..|old(queue)| - i]
        invariant exporter.calls == old(exporter.calls) + CallsFor(done, false)
        invariant Answered(exporter.raises, |old(exporter.calls)|, |done|, false)
        invariant Progress(size, popped, done, batch, i)
        invariant FairTotal(size, batch, batchDataSize)
      {
        raised, batch, batchDataSize, done :=
          GatherNext(h, batch, batchDataSize, size, popped, i, done, old(exporter.calls));
        if raised {
          return;
        }
      }
    }
  }

  /** The requests done are the first of a split cut after a number of logs. */
  ghost predicate IsCutAt(size: Log -> nat, popped: seq<Log>, done: seq<seq<Log>>, consumed: nat) {
    var groups := Split(size, [], popped);
    0 < |done| < |groups| && groups[..|done|] == done && Consumed(groups, |done|) == consumed
  }

  function Batches(calls: seq<Call>): seq<seq<Log>> {
    seq(|calls|, i requires 0 <= i < |calls| => calls[i].batch)
  }

  lemma {:induction false} FlattenSplits(a: seq<seq<Log>>, b: seq<seq<Log>>)
    ensures Flatten(a + b) == Flatten(a) + Flatten(b)
  {
    if a == [] {
      assert a + b == b;
    } else {
      assert (a + b)[1..] == a[1..] + b;
      FlattenSplits(a[1..], b);
    }
  }

  lemma BatchesOfMore(calls: seq<Call>, batches: seq<seq<Log>>, raised: bool)
    ensures Flatten(Batches(calls + CallsFor(batches, raised))) == Flatten(Batches(calls)) + Flatten(batches)
  {
    assert Batches(calls + CallsFor(batches, raised)) == Batches(calls) + batches;
    FlattenSplits(Batches(calls), batches);
  }

  lemma OldestFirstSplits(queue: seq<Log>, n: nat)
    requires n <= |queue|
    ensures OldestFirst(queue) == OldestFirst(queue)[..n] + OldestFirst(queue[..|queue| - n])
  {
  }

  lemma {:induction false} SameLogs(queue: seq<Log>)
    ensures multiset(OldestFirst(queue)) == multiset(queue)
  {
    if queue != [] {
      var last, init := queue[|queue| - 1], queue[..|queue| - 1];
      SameLogs(init);
      assert queue == init + [last];
      assert OldestFirst(queue) == [last] + OldestFirst(init);
    }
  }

  /** What a pop run may leave of a queue after making `made` of its requests. */
  ghost predicate RunResult(size: Log -> nat, before: seq<Log>, length: nat, made: nat, after: seq<Log>, raised: bool)
    requires length <= |before|
  {
    var groups := Split(size, [], OldestFirst(before)[..length]);
    && made <= |groups|
    && (!raised ==> made == |groups| && after == before[..|before| - length])
    && (raised ==> made > 0 && Consumed(groups, made) <= length
                   && after == before[..|before| - Consumed(groups, made)])
  }

  /** What one pop run exports is popped, in order; when it does not raise, everything popped is exported. */
  ghost predicate RunConserves(
      size: Log -> nat, before: seq<Log>, batches: seq<seq<Log>>, after: seq<Log>, raised: bool)
  {
    && |after| < |before| && (raised ==> batches != [])
    && (forall i | 0 <= i < |batches| :: batches[i] != [] && Fits(size, batches[i]))
    && multiset(Flatten(batches)) + multiset(after) <= multiset(before)
    && (!raised ==> Flatten(batches) + OldestFirst(after) == OldestFirst(before))
  }

  /** The first requests of a split hold the first logs. */
  lemma SentIsPrefix(size: Log -> nat, popped: seq<Log>, made: nat)
    requires made <= |Split(size, [], popped)|
    ensures var batches := Split(size, [], popped)[..made];
            && Flatten(batches) <= popped
            && (made == |Split(size, [], popped)| ==> Flatten(batches) == popped)
            && (made > 0 ==> Flatten(batches) != [])
            && (forall i | 0 <= i < |batches| :: batches[i] != [] && Fits(size, batches[i]))
  {
    var groups := Split(size, [], popped);
    SplitIsSplit(size, [], popped);
    assert [] + popped == popped;
    assert groups == groups[..made] + groups[made..];
    FlattenSplits(groups[..made], groups[made..]);
    assert made > 0 ==> Flatten(groups[..made]) == groups[0] + Flatten(groups[..made][1..]);
  }

  lemma PopRunConserves(size: Log -> nat, before: seq<Log>, length: nat, made: nat, after: seq<Log>, raised: bool)
    requires 0 < length <= |before| && RunResult(size, before, length, made, after, raised)
    ensures RunConserves(size, before, Split(size, [], OldestFirst(before)[..length])[..made], after, raised)
  {
    var popped := OldestFirst(before)[..length];
    SentIsPrefix(size, popped, made);
    var sent := Flatten(Split(size, [], popped)[..made]);
    PrefixConserves(before, sent, after);
  }

  /** Sending a prefix of what is popped repeats nothing, and loses nothing when it is all that is popped. */
  lemma PrefixConserves(before: seq<Log>, sent: seq<Log>, after: seq<Log>)
    requires after <= before && |sent| + |after| <= |before| && sent <= OldestFirst(before)
    ensures multiset(sent) + multiset(after) <= multiset(before)
    ensures |sent| + |after| == |before| ==> sent + OldestFirst(after) == OldestFirst(before)
  {
    var gone := |before| - |after|;
    OldestFirstSplits(before, gone);
    var skipped := OldestFirst(before)[|sent|..gone];
    assert OldestFirst(before) == sent + skipped + OldestFirst(after);
    SameLogs(before);
    SameLogs(after);
  }

  /** The calls made respect the limit, repeat no log, and, unless one raised, lose none and keep the order. */
  ghost predicate Accounted(size: Log -> nat, queue: seq<Log>, made: seq<Call>, rest: seq<Log>) {
    && (forall i | 0 <= i < |made| :: made[i].batch != [] && Fits(size, made[i].batch))
    && multiset(Flatten(Batches(made))) + multiset(rest) <= multiset(queue)
    && ((forall i | 0 <= i < |made| :: !made[i].raised) ==>
          Flatten(Batches(made)) + OldestFirst(rest) == OldestFirst(queue))
  }

  lemma NothingAccounted(size: Log -> nat, queue: seq<Log>)
    ensures Accounted(size, queue, [], queue)
  {
    assert Flatten(Batches([])) == [];
    assert [] + OldestFirst(queue) == OldestFirst(queue);
  }

  lemma RunAccounted(size: Log -> nat, queue: seq<Log>, made: seq<Call>, before: seq<Log>, batches: seq<seq<Log>>,
                     after: seq<Log>, raised: bool)
    requires Accounted(size, queue, made, before) && RunConserves(size, before, batches, after, raised)
    ensures Accounted(size, queue, made + CallsFor(batches, raised), after)
  {
    var calls := CallsFor(batches, raised);
    var all := made + calls;
    BatchesOfMore(made, batches, raised);
    var sent, more := Flatten(Batches(made)), Flatten(batches);
    MultisetOfBoth(sent, more);
    forall i | 0 <= i < |all|
      ensures all[i].batch != [] && Fits(size, all[i].batch)
    {
      if i >= |made| {
        assert all[i] == calls[i - |made|];
      }
    }
    if raised {
      assert all[|all| - 1] == calls[|calls| - 1];
    } else if forall i | 0 <= i < |all| :: !all[i].raised {
      assert forall i | 0 <= i < |made| :: made[i] == all[i];
      ConcatIsAssociative(sent, more, OldestFirst(after));
    }
  }

  /** How many logs are popped by the time `made` requests have been exported, the last of them raising. */
  function Consumed(groups: seq<seq<Log>>, made: nat): nat
    requires made <= |groups|
  {
    |Flatten(groups[..made])| + if made < |groups| then 1 else 0
  }

  lemma GivenUpAtMostOne(size: Log -> nat, before: seq<Log>, length: nat, made: nat)
    requires length <= |before| && made <= |Split(size, [], OldestFirst(before)[..length])|
    ensures var groups := Split(size, [], OldestFirst(before)[..length]);
            var exported := |Flatten(groups[..made])|;
            && Consumed(groups, made) == exported + (if made < |groups| then 1 else 0) <= length
            && (made == |groups| ==> exported == length)
            && (made < |groups| ==> groups[made] != [] && groups[made][0] == OldestFirst(before)[exported])
  {
    var popped := OldestFirst(before)[..length];
    var groups := Split(size, [], popped);
    SentIsPrefix(size, popped, made);
    if made < |groups| {
      SentIsPrefix(size, popped, made + 1);
      assert groups[..made + 1] == groups[..made] + [groups[made]];
      FlattenOneMore(groups[..made], groups[made]);
      assert groups[..made + 1][made] == groups[made];
    }
  }

  /** What a run that starts with the from-th call leaves of the queue. */
  function LeftBy(size: Log -> nat, before: seq<Log>, length: nat, raises: nat -> bool, from: nat): seq<Log>
    requires length <= |before|
  {
    var groups := Split(size, [], OldestFirst(before)[..length]);
    var made := Made(raises, from, |groups|);
    GivenUpAtMostOne(size, before, length, made);
    before[..|before| - Consumed(groups, made)]
  }

  lemma RunLeaves(size: Log -> nat, before: seq<Log>, length: nat, made: nat, after: seq<Log>, raised: bool,
                  raises: nat -> bool, from: nat)
    requires length <= |before| && RunResult(size, before, length, made, after, raised)
    requires made == Made(raises, from, |Split(size, [], OldestFirst(before)[..length])|)
    ensures after == LeftBy(size, before, length, raises, from)
  {
    GivenUpAtMostOne(size, before, length, made);
  }

  /**
    A run pops exactly one log that it never exports if and only if a call before that of its last request raises, and
    else none.  That log is the oldest one not exported, which the next request was to start with.
   */
  lemma RunLosesOneLogExactly(size: Log -> nat, before: seq<Log>, length: nat, raises: nat -> bool, from: nat)
    requires 0 < length <= |before|
    ensures var groups := Split(size, [], OldestFirst(before)[..length]);
            var made := Made(raises, from, |groups|);
            var exported, lost := |Flatten(groups[..made])|, AnyRaises(raises, from, |groups| - 1);
            && groups != [] && (lost <==> made < |groups|)
            && |before| - |LeftBy(size, before, length, raises, from)| == exported + (if lost then 1 else 0)
            && (lost ==> groups[made] != [] && groups[made][0] == OldestFirst(before)[exported])
  {
    var popped := OldestFirst(before)[..length];
    var groups := Split(size, [], popped);
    SplitIsSplit(size, [], popped);
    assert groups != [] by {
      assert [] + popped == popped != [];
    }
    NotAllMadeExactly(raises, from, |groups|);
    GivenUpAtMostOne(size, before, length, Made(raises, from, |groups|));
  }

  lemma TwoLogsSplit(size: Log -> nat, first: Log, second: Log)
    requires size(first) + size(second) > MAX_LOG_REQUEST_BYTE_SIZE
    ensures Split(size, [], [first, second]) == [[first]] + [[second]]
  {
    TotalOfOneMore(size, [], first);
    assert [] + [first] == [first] && [] + [second] == [second];
    assert [first, second] == [first] + [second] && [second] + [] == [second];
    SplitStep(size, [], first, [second]);
    SplitStep(size, [first], second, []);
  }

  lemma TwoOldestFirst(first: Log, second: Log)
    ensures OldestFirst([second, first])[..2] == [first, second]
  {
  }

  lemma OneOfTwoConsumesBoth(first: Log, second: Log)
    ensures Consumed([[first]] + [[second]], 1) == 2
  {
    var groups := [[first]] + [[second]];
    assert groups[..1] == [] + [[first]];
    FlattenOneMore([], [first]);
  }

  /** Two logs that do not fit together, the first call raising: the second is gone though it was never exported. */
  lemma TwoLogsLoseTheSecond(size: Log -> nat, first: Log, second: Log, raises: nat -> bool, from: nat)
    requires size(first) + size(second) > MAX_LOG_REQUEST_BYTE_SIZE && raises(from)
    ensures Split(size, [], OldestFirst([second, first])[..2]) == [[first]] + [[second]]
    ensures Made(raises, from, 2) == 1 && LeftBy(size, [second, first], 2, raises, from) == []
  {
    TwoOldestFirst(first, second);
    TwoLogsSplit(size, first, second);
    OneOfTwoConsumesBoth(first, second);
  }

  // ---------- Runs, one after another ----------

  /** A pop run: the queue it met, the requests it was to make, the number of its first call, what it did export. */
  datatype Run = Run(before: seq<Log>, requests: seq<seq<Log>>, from: nat, exported: seq<seq<Log>>, raised: bool)

  ghost predicate IsRun(size: Log -> nat, maxExportBatchSize: nat, raises: nat -> bool, r: Run) {
    var length := if maxExportBatchSize < |r.before| then maxExportBatchSize else |r.before|;
    && r.requests == Split(size, [], OldestFirst(r.before)[..length])
    && r.exported == r.requests[..Made(raises, r.from, |r.requests|)]
    && (r.raised <==> AnyRaises(raises, r.from, |r.requests|))
  }

  predicate IsCutShort(r: Run) { |r.exported| < |r.requests| }

  /** A run is cut short exactly by the exporter raising before its last request. */
  lemma CutShortExactly(size: Log -> nat, maxExportBatchSize: nat, raises: nat -> bool, r: Run)
    requires IsRun(size, maxExportBatchSize, raises, r) && maxExportBatchSize > 0 && r.before != []
    ensures IsCutShort(r) <==> AnyRaises(raises, r.from, |r.requests| - 1)
  {
    var length := if maxExportBatchSize < |r.before| then maxExportBatchSize else |r.before|;
    RunLosesOneLogExactly(size, r.before, length, raises, r.from);
  }

  function CallsOf(runs: seq<Run>): seq<Call> {
    if runs == [] then []
    else CallsOf(runs[..|runs| - 1]) + CallsFor(runs[|runs| - 1].exported, runs[|runs| - 1].raised)
  }

  function CutShorts(runs: seq<Run>): nat {
    if runs == [] then 0 else CutShorts(runs[..|runs| - 1]) + if IsCutShort(runs[|runs| - 1]) then 1 else 0
  }

  /** Runs one after another, the first starting with a given call. */
  ghost predicate AreRuns(size: Log -> nat, maxExportBatchSize: nat, raises: nat -> bool, start: nat, runs: seq<Run>) {
    forall i | 0 <= i < |runs| ::
      IsRun(size, maxExportBatchSize, raises, runs[i]) && runs[i].from == start + |CallsOf(runs[..i])|
  }

  lemma RunsFollow(size: Log -> nat, maxExportBatchSize: nat, raises: nat -> bool, start: nat, runs: seq<Run>, run: Run)
    requires AreRuns(size, maxExportBatchSize, raises, start, runs)
    requires IsRun(size, maxExportBatchSize, raises, run) && run.from == start + |CallsOf(runs)|
    ensures AreRuns(size, maxExportBatchSize, raises, start, runs + [run])
  {
    forall i | 0 <= i <= |runs|
      ensures (runs + [run])[i].from == start + |CallsOf((runs + [run])[..i])|
    {
      assert (runs + [run])[..i] == runs[..i];
      TakeAll(runs);
    }
  }

  /** Every log is exported, left, or the one log of a run cut short. */
  ghost predicate OnTheBooks(size: Log -> nat, queue: seq<Log>, runs: seq<Run>, rest: seq<Log>) {
    && Accounted(size, queue, CallsOf(runs), rest)
    && |queue| == |Flatten(Batches(CallsOf(runs)))| + |rest| + CutShorts(runs)
  }

  lemma OneMoreOnTheBooks(size: Log -> nat, queue: seq<Log>, runs: seq<Run>, run: Run, rest: seq<Log>)
    requires OnTheBooks(size, queue, runs, run.before)
    requires RunConserves(size, run.before, run.exported, rest, run.raised)
    requires |run.before| == |Flatten(run.exported)| + |rest| + if IsCutShort(run) then 1 else 0
    ensures OnTheBooks(size, queue, runs + [run], rest)
  {
    RunAccounted(size, queue, CallsOf(runs), run.before, run.exported, rest, run.raised);
    OneMoreRun(runs, run);
  }

  lemma OneMoreRun(runs: seq<Run>, run: Run)
    ensures CallsOf(runs + [run]) == CallsOf(runs) + CallsFor(run.exported, run.raised)
    ensures CutShorts(runs + [run]) == CutShorts(runs) + if IsCutShort(run) then 1 else 0
    ensures |Flatten(Batches(CallsOf(runs + [run])))| == |Flatten(Batches(CallsOf(runs)))| + |Flatten(run.exported)|
  {
    assert (runs + [run])[..|runs|] == runs;
    BatchesOfMore(CallsOf(runs), run.exported, run.raised);
  }

  /** A running total of estimates that decides as the total of full sizes would. */
  predicate FairTotal(size: Log -> nat, batch: seq<Log>, dataSize: int) {
    SameForBatching(dataSize, Total(size, batch)) && if batch == [] then dataSize == 0 else dataSize >= 1
  }

  /** An estimate leads to the decision the full size does, and to a total as good for the next one. */
  lemma SameDecision(size: Log -> nat, dataSize: int, batch: seq<Log>, logSize: nat, log: Log)
    requires FairTotal(size, batch, dataSize)
    requires logSize >= 1 && AgreeUpToLimit(logSize, size(log))
    ensures Cuts(size, batch, log) <==> batch != [] && dataSize + logSize > MAX_LOG_REQUEST_BYTE_SIZE
    ensures !Cuts(size, batch, log) ==> FairTotal(size, batch + [log], dataSize + logSize)
    ensures FairTotal(size, [log], logSize)
  {
    TotalOfOneMore(size, batch, log);
    TotalOfOneMore(size, [], log);
    assert [] + [log] == [log];
  }

  /** After i logs: the requests done and the one being gathered are those of the split so far. */
  ghost predicate Progress(size: Log -> nat, logs: seq<Log>, done: seq<seq<Log>>, batch: seq<Log>, i: nat) {
    && i <= |logs|
    && Split(size, [], logs) == done + Split(size, batch, logs[i..])
    && |Flatten(done)| + |batch| == i
  }

  lemma GatherProgress(size: Log -> nat, logs: seq<Log>, done: seq<seq<Log>>, batch: seq<Log>, i: nat)
    requires i < |logs| && Progress(size, logs, done, batch, i)
    ensures !Cuts(size, batch, logs[i]) ==> Progress(size, logs, done, batch + [logs[i]], i + 1)
    ensures Cuts(size, batch, logs[i]) ==>
              var groups := Split(size, [], logs);
              && Progress(size, logs, done + [batch], [logs[i]], i + 1)
              && |done| + 1 < |groups| && groups[..|done| + 1] == done + [batch]
              && Consumed(groups, |done| + 1) == i + 1
  {
    var log, rest := logs[i], logs[i + 1..];
    assert logs[i..][0] == log && logs[i..][1..] == rest;
    if Cuts(size, batch, log) {
      FlattenOneMore(done, batch);
      assert done + ([batch] + Split(size, [log], rest)) == (done + [batch]) + Split(size, [log], rest);
      TotalOfOneMore(size, [], log);
      SplitIsSplit(size, [log], rest);
    }
  }

  lemma AllGathered(size: Log -> nat, logs: seq<Log>, done: seq<seq<Log>>, batch: seq<Log>)
    requires Progress(size, logs, done, batch, |logs|)
    ensures var groups := done + if batch == [] then [] else [batch];
            && Split(size, [], logs) == groups && groups[..|groups|] == groups
            && Consumed(groups, |groups|) == |logs|
  {
    assert logs[|logs|..] == [];
    FlattenOneMore(done, batch);
    assert done + [] == done;
  }

  lemma CallRecorded(calls: seq<Call>, done: seq<seq<Log>>, batch: seq<Log>, raised: bool)
    ensures calls + CallsFor(done, false) + [Call(batch, raised)] == calls + CallsFor(done + [batch], raised)
  {
    assert CallsFor(done, false) + [Call(batch, raised)] == CallsFor(done + [batch], raised);
  }
}
