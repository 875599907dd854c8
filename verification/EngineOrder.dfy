/** Conservation and order: nothing is lost, duplicated or reordered between the channel and the cloud. */
module EngineOrder {
  import opened Wrappers
  import opened Rows
  import opened StateStore
  import opened Publishing
  import opened Ranges
  import opened EngineModel

  /** The received stream is the flushed events, then the batch in flight, then the buffer. */
  ghost predicate Conserved(w: World) {
    && w.flushed <= |w.received|
    && w.received[w.flushed..] == InFlight(w.phase) + w.buffer
  }

  lemma {:induction false} ConservedStep(w: World, s: Step)
    requires Conserved(w) && Enabled(w, s)
    ensures Conserved(After(w, s))
  {
    hide Published, AfterStep, CanStep;
    var w' := After(w, s);
    var tail := w.received[w.flushed..];
    match s
    case Receive(e) =>
      assert w'.received[w.flushed..] == tail + [e];
    case Succeed =>
      assert w.received[w'.flushed..] == tail[|InFlight(w.phase)|..];
    case _ =>
  }

  /** In every reachable state, even when events arrive while a batch is being published. */
  lemma {:induction false} Conservation(w: World, steps: seq<Step>)
    requires Initial(w) && CanRun(w, steps)
    ensures Conserved(Run(w, steps))
    decreases |steps|
  {
    if steps != [] {
      Conservation(w, steps[..|steps| - 1]);
      ConservedStep(Run(w, steps[..|steps| - 1]), steps[|steps| - 1]);
    }
  }

  lemma InFlightIs(w: World)
    requires Conserved(w)
    ensures w.flushed + |InFlight(w.phase)| <= |w.received|
    ensures InFlight(w.phase) == w.received[w.flushed..w.flushed + |InFlight(w.phase)|]
  {
    var tail := w.received[w.flushed..];
    assert tail[..|InFlight(w.phase)|] == InFlight(w.phase);
  }

  // ----- the committed log -----

  /** The elements of `s` in the order of their first occurrences. */
  function Firsts(s: seq<nat>): seq<nat> {
    if s == [] then []
    else
      var before := Firsts(s[..|s| - 1]);
      if s[|s| - 1] in before then before else before + [s[|s| - 1]]
  }

  /** Appending a segment that starts within the prefix covered so far extends the prefix. */
  lemma {:induction false} FirstsSegment(s: seq<nat>, high: nat, start: nat, n: nat)
    requires Firsts(s) == Iota(0, high) && start <= high
    ensures Firsts(s + Iota(start, n)) == Iota(0, if start + n > high then start + n else high)
    decreases n
  {
    if n == 0 {
      assert s + Iota(start, 0) == s;
    } else {
      hide Firsts, Iota;
      var last, longer := start + n - 1, s + Iota(start, n - 1);
      FirstsSegment(s, high, start, n - 1);
      IotaSnoc(start, n - 1);
      AppendLast(s, Iota(start, n - 1), last);
      var before := if last > high then last else high;
      assert Firsts(longer) == Iota(0, before);
      FirstsAppend(longer, before, last);
    }
  }

  lemma AppendLast<T>(a: seq<T>, b: seq<T>, x: T)
    ensures a + (b + [x]) == a + b + [x]
  {
  }

  lemma FirstsAppend(s: seq<nat>, high: nat, x: nat)
    requires Firsts(s) == Iota(0, high) && x <= high
    ensures Firsts(s + [x]) == Iota(0, if x == high then high + 1 else high)
  {
    assert (s + [x])[..|s|] == s;
    if x < high {
      assert Iota(0, high)[x] == x;
    } else {
      assert x !in Iota(0, high);
      assert Iota(0, high) + [x] == Iota(0, high + 1);
    }
  }

  /** How far the cloud has ever got: the length of the prefix of the stream it has committed. */
  function High(w: World): nat { |Firsts(w.log)| }

  /** The events that the next flush or the current one will send. */
  function Reach(w: World): nat {
    if w.phase.Idle? then |w.received| else w.flushed + |InFlight(w.phase)|
  }

  ghost predicate LogShape(w: World) {
    && Firsts(w.log) == Iota(0, High(w))
    && w.flushed <= High(w) <= Reach(w)
    && (w.phase.Sent? ==> High(w) == Reach(w))
  }

  /** The received events at the logged positions. */
  function Pick(es: seq<ChangeEvent>, log: seq<nat>): (r: seq<ChangeEvent>)
    requires forall i :: 0 <= i < |log| ==> log[i] < |es|
    ensures |r| == |log|
  {
    seq(|log|, i requires 0 <= i < |log| => es[log[i]])
  }

  /** The log tells what the cloud has executed: the events at its positions, in its order, take the
      cloud from `start` to what it holds. */
  ghost predicate LogIsCloud(start: Db, w: World) {
    && (forall i :: 0 <= i < |w.log| ==> w.log[i] < |w.received|)
    && ApplyAll(Pick(w.received, w.log), start) == Some(w.cloud)
  }

  lemma PickBatch(es: seq<ChangeEvent>, log: seq<nat>, p: nat, n: nat)
    requires p + n <= |es| && forall i :: 0 <= i < |log| ==> log[i] < |es|
    ensures Pick(es, log + Iota(p, n)) == Pick(es, log) + es[p..p + n]
  {
  }

  lemma {:induction false} LogIsCloudStep(start: Db, w: World, s: Step)
    requires Conserved(w) && LogIsCloud(start, w) && Enabled(w, s)
    ensures LogIsCloud(start, After(w, s))
  {
    hide AfterStep, CanStep, FlushedState, ApplyAll, Conserved;
    match s
    case Receive(e) =>
      assert Pick(w.received + [e], w.log) == Pick(w.received, w.log);
    case Attempt(n, _, cloud) =>
      InFlightIs(w);
      var p := w.flushed;
      assert w.phase.batch[..n] == w.received[p..p + n];
      PickBatch(w.received, w.log, p, n);
      ApplyAllConcat(Pick(w.received, w.log), w.received[p..p + n], start);
    case _ =>
  }

  lemma {:induction false} LogStep(w: World, s: Step)
    requires Conserved(w) && LogShape(w) && Enabled(w, s)
    ensures LogShape(After(w, s))
  {
    hide AfterStep, CanStep, Firsts;
    InFlightIs(w);
    match s
    case Attempt(n, ok, _) => FirstsSegment(w.log, High(w), w.flushed, n);
    case _ =>
  }

  /** Over every run with arbitrary failures: executing the logged events in order gives exactly what the
      cloud holds; their first occurrences are a prefix of the received stream in order, and that prefix
      covers every event counted as processed. */
  lemma {:induction false} CommittedLog(w: World, steps: seq<Step>)
    requires Initial(w) && CanRun(w, steps)
    ensures LogShape(Run(w, steps)) && LogIsCloud(w.cloud, Run(w, steps))
    decreases |steps|
  {
    hide LogShape, LogIsCloud, After, Enabled;
    if steps == [] {
      EmptyLog(w);
    } else {
      var before := Run(w, steps[..|steps| - 1]);
      Conservation(w, steps[..|steps| - 1]);
      CommittedLog(w, steps[..|steps| - 1]);
      LogStep(before, steps[|steps| - 1]);
      LogIsCloudStep(w.cloud, before, steps[|steps| - 1]);
    }
  }

  lemma EmptyLog(w: World)
    requires Initial(w)
    ensures LogShape(w) && LogIsCloud(w.cloud, w)
  {
  }

  /** The cloud is `start` after a sequence of received events whose first occurrences begin with the
      first `k` received events, in order. */
  ghost predicate CommittedUpTo(start: Db, w: World, k: nat) {
    LogIsCloud(start, w) && k <= |w.received| && Iota(0, k) <= Firsts(w.log)
  }

  lemma {:induction false} ProcessedIsCommitted(w: World, steps: seq<Step>)
    requires Initial(w) && CanRun(w, steps)
    ensures CommittedUpTo(w.cloud, Run(w, steps), Run(w, steps).flushed)
  {
    hide LogIsCloud, Firsts, Run, CanRun, Initial, Enabled, After;
    Conservation(w, steps);
    CommittedLog(w, steps);
  }

  // ----- counters -----

  /** The sizes of the batches that failed, added up over a run. */
  function FailedSizes(w: World, steps: seq<Step>): nat
    decreases |steps|
  {
    if steps == [] then 0
    else
      FailedSizes(w, steps[..|steps| - 1])
      + if steps[|steps| - 1].GiveUp? then |InFlight(Run(w, steps[..|steps| - 1]).phase)| else 0
  }

  /** Processed grows by exactly the flushed events, failed by the failed batches; a flush that the
      breaker blocks counts nothing. */
  lemma {:induction false} Counters(w: World, steps: seq<Step>)
    requires Initial(w) && CanRun(w, steps)
    ensures
      var w' := Run(w, steps);
      && w'.mem.eventsProcessed == w.mem.eventsProcessed + w'.flushed
      && w'.mem.eventsFailed == w.mem.eventsFailed + FailedSizes(w, steps)
      && w'.chunk == w.chunk && w'.slot == w.slot
    decreases |steps|
  {
    hide After, Enabled, InFlight;
    if steps != [] {
      Counters(w, steps[..|steps| - 1]);
      CounterStep(Run(w, steps[..|steps| - 1]), steps[|steps| - 1]);
    }
  }

  lemma {:induction false} CounterStep(w: World, s: Step)
    requires Enabled(w, s)
    ensures
      var w' := After(w, s);
      && w'.mem.eventsProcessed - w.mem.eventsProcessed == w'.flushed - w.flushed
      && w'.mem.eventsFailed == w.mem.eventsFailed + (if s.GiveUp? then |InFlight(w.phase)| else 0)
      && w'.chunk == w.chunk && w'.slot == w.slot
  {
    hide Published, AfterStep, CanStep, MaxLsn, LatestTime;
  }

  // ----- LSN accounting -----

  lemma {:induction false} MaxLsnOrdered(es: seq<ChangeEvent>)
    requires LsnAscending(es) && es != []
    ensures MaxLsn(es) == es[|es| - 1].lsn
  {
    if |es| > 1 {
      var before := es[..|es| - 1];
      assert forall i, j :: 0 <= i <= j < |before| ==> before[i].lsn <= before[j].lsn by {
        forall i, j | 0 <= i <= j < |before| ensures before[i].lsn <= before[j].lsn {
          assert es[i].lsn <= es[j].lsn;
        }
      }
      MaxLsnOrdered(before);
      assert es[|es| - 2].lsn <= es[|es| - 1].lsn;
    }
  }

  lemma {:induction false} ReceivedGrows(w: World, steps: seq<Step>, n: nat)
    requires n <= |steps|
    ensures Run(w, steps[..n]).received <= Run(w, steps).received
    decreases |steps|
  {
    if n == |steps| {
      assert steps[..n] == steps;
    } else {
      assert steps[..n] == steps[..|steps| - 1][..n];
      ReceivedGrows(w, steps[..|steps| - 1], n);
    }
  }

  /** The state carries the LSN of the last flushed event; batches are never empty. */
  ghost predicate LsnShape(w: World) {
    && (!w.phase.Idle? ==> w.phase.batch != [])
    && (w.flushed > 0 && w.flushed <= |w.received| ==> w.mem.lastLsn == w.received[w.flushed - 1].lsn)
  }

  lemma {:induction false} LsnStep(w: World, s: Step, hist: seq<ChangeEvent>)
    requires Conserved(w) && LsnShape(w) && Enabled(w, s)
    requires LsnAscending(hist) && After(w, s).received <= hist
    ensures LsnShape(After(w, s))
  {
    hide AfterStep, CanStep, Published, LsnAscending, MaxLsn, LatestTime;
    InFlightIs(w);
    if s.Succeed? { LastOfBatch(w, hist); }
  }

  lemma {:induction false} LastOfBatch(w: World, hist: seq<ChangeEvent>)
    requires Conserved(w) && w.phase.Sent? && w.phase.batch != []
    requires LsnAscending(hist) && w.received <= hist
    ensures w.flushed + |w.phase.batch| <= |w.received|
    ensures MaxLsn(w.phase.batch) == w.received[w.flushed + |w.phase.batch| - 1].lsn
  {
    hide MaxLsn;
    InFlightIs(w);
    var batch := w.phase.batch;
    assert LsnAscending(batch) by {
      forall i, j | 0 <= i <= j < |batch| ensures batch[i].lsn <= batch[j].lsn {
        assert batch[i] == hist[w.flushed + i] && batch[j] == hist[w.flushed + j];
      }
    }
    MaxLsnOrdered(batch);
    assert batch[|batch| - 1] == w.received[w.flushed + |batch| - 1];
  }

  lemma {:induction false} LsnInvariant(w: World, steps: seq<Step>, hist: seq<ChangeEvent>)
    requires Initial(w) && CanRun(w, steps)
    requires LsnAscending(hist) && Run(w, steps).received <= hist
    ensures LsnShape(Run(w, steps))
    decreases |steps|
  {
    if steps != [] {
      var before := steps[..|steps| - 1];
      Conservation(w, before);
      ReceivedGrows(w, steps, |steps| - 1);
      LsnInvariant(w, before, hist);
      LsnStep(Run(w, before), steps[|steps| - 1], hist);
    }
  }

  /** With events received in LSN order, once a run has flushed: every flushed event has an LSN up to
      LastLSN, every received event with a smaller LSN has been published. */
  lemma {:induction false} LsnAccounting(w: World, steps: seq<Step>, i: nat)
    requires Initial(w) && CanRun(w, steps) && LsnAscending(Run(w, steps).received)
    requires Run(w, steps).flushed > 0 && i < |Run(w, steps).received|
    ensures
      var w' := Run(w, steps);
      && (i < w'.flushed ==> w'.received[i].lsn <= w'.mem.lastLsn)
      && (w'.received[i].lsn < w'.mem.lastLsn ==> i < w'.flushed && CommittedUpTo(w.cloud, w', i + 1))
  {
    hide LogIsCloud, Firsts, Run, CanRun, Initial;
    var w' := Run(w, steps);
    Conservation(w, steps);
    LsnInvariant(w, steps, w'.received);
    ProcessedIsCommitted(w, steps);
    assert w'.mem.lastLsn == w'.received[w'.flushed - 1].lsn;
    if i < w'.flushed {
      assert w'.received[i].lsn <= w'.received[w'.flushed - 1].lsn;
      assert Iota(0, i + 1) <= Iota(0, w'.flushed);
    } else {
      assert w'.received[w'.flushed - 1].lsn <= w'.received[i].lsn;
    }
  }

  /** LastLSN never decreases from the first flush of a run on. */
  lemma LastLsnMonotone(w: World, steps: seq<Step>, n: nat)
    requires Initial(w) && CanRun(w, steps) && LsnAscending(Run(w, steps).received)
    requires n <= |steps| && Run(w, steps[..n]).flushed > 0
    ensures Run(w, steps[..n]).mem.lastLsn <= Run(w, steps).mem.lastLsn
  {
    var mid, end := Run(w, steps[..n]), Run(w, steps);
    RunPrefix(w, steps, n);
    Conservation(w, steps[..n]);
    Conservation(w, steps);
    ReceivedGrows(w, steps, n);
    FlushedGrows(w, steps, n);
    LsnInvariant(w, steps[..n], end.received);
    LsnInvariant(w, steps, end.received);
    assert mid.received[mid.flushed - 1] == end.received[mid.flushed - 1];
  }

  lemma {:induction false} FlushedGrows(w: World, steps: seq<Step>, n: nat)
    requires n <= |steps|
    ensures Run(w, steps[..n]).flushed <= Run(w, steps).flushed
    decreases |steps|
  {
    if n == |steps| {
      assert steps[..n] == steps;
    } else {
      assert steps[..n] == steps[..|steps| - 1][..n];
      FlushedGrows(w, steps[..|steps| - 1], n);
    }
  }

  // ----- head-of-line blocking -----

  lemma {:induction false} SentAreApplied(w: World, s: Step)
    requires Conserved(w) && Enabled(w, s) && s.Attempt? && s.ok
    ensures forall i :: 0 <= i < |w.phase.batch| ==> Publishable(w.phase.batch[i])
  {
    hide Apply, Publishable, ApplyAll;
    var batch := w.phase.batch;
    assert batch[..|batch|] == batch;
    forall i | 0 <= i < |batch| ensures Publishable(batch[i]) {
      AllAppliedPublishable(batch, i, w.cloud);
    }
  }

  ghost predicate OnlyPublishable(w: World) {
    && (forall i :: 0 <= i < w.flushed && i < |w.received| ==> Publishable(w.received[i]))
    && (w.phase.Sent? ==> forall i :: 0 <= i < |w.phase.batch| ==> Publishable(w.phase.batch[i]))
  }

  /** An event that cannot be turned into SQL is never counted as processed, and neither is any
      event received after it: no flush past it ever succeeds. */
  lemma {:induction false} UnpublishableBlocks(w: World, steps: seq<Step>, i: nat)
    requires Initial(w) && CanRun(w, steps)
    requires i < |Run(w, steps).received| && !Publishable(Run(w, steps).received[i])
    ensures Run(w, steps).flushed <= i
  {
    Conservation(w, steps);
    OnlyPublishableFlushed(w, steps);
  }

  lemma {:induction false} OnlyPublishableFlushed(w: World, steps: seq<Step>)
    requires Initial(w) && CanRun(w, steps)
    ensures OnlyPublishable(Run(w, steps))
    decreases |steps|
  {
    if steps != [] {
      hide After, Enabled, OnlyPublishable, Conserved;
      Conservation(w, steps[..|steps| - 1]);
      OnlyPublishableFlushed(w, steps[..|steps| - 1]);
      OnlyPublishableStep(Run(w, steps[..|steps| - 1]), steps[|steps| - 1]);
    }
  }

  lemma {:induction false} OnlyPublishableStep(w: World, s: Step)
    requires Conserved(w) && OnlyPublishable(w) && Enabled(w, s)
    ensures OnlyPublishable(After(w, s))
  {
    hide Publishable, Published, AfterStep, CanStep, FlushedState;
    InFlightIs(w);
    var w' := After(w, s);
    match s
    case Attempt(_, ok, _) =>
      if ok {
        SentAreApplied(w, s);
        assert w'.phase.batch == w.phase.batch;
      }
    case Succeed =>
      forall i | 0 <= i < w'.flushed ensures Publishable(w'.received[i]) {
        if i >= w.flushed { assert w.phase.batch[i - w.flushed] == w'.received[i]; }
      }
    case _ =>
  }
}
