/** When the engine can still make progress: what the replica refuses once, it refuses for good. */
module EngineStuck {
  import opened Wrappers
  import opened Rows
  import opened Circuits
  import opened StateStore
  import opened Source
  import opened Replay
  import opened Refusals
  import opened Publishing
  import opened EngineModel
  import opened EngineOrder
  import opened EngineOutage
  import opened EngineCloud

  /** The unflushed events, or the batch in flight, cannot be applied to the cloud as it is. */
  ghost predicate Stuck(w: World, hist: seq<ChangeEvent>, schema: Schema) {
    && !w.phase.Sent? && w.flushed <= Reach(w) <= |hist|
    && FireRange(ImageOf(w.cloud), hist, w.flushed, Reach(w), schema).None?
  }

  /** A call of Publish on a batch that cannot be applied fails, and what it commits does not help. */
  lemma {:induction false} StuckAttempt(w: World, n: nat, ok: bool, cloud: Db, start: Image, hist: seq<ChangeEvent>,
      schema: Schema)
    requires Conserved(w) && CloudShape(w, start, hist, schema) && Enabled(w, Attempt(n, ok, cloud))
    requires Accepted(start, hist, schema) && WindowSafe(w, start, hist, schema)
    requires Stuck(w, hist, schema)
    ensures !ok && FireRange(ImageOf(cloud), hist, w.flushed, Reach(w), schema).None?
  {
    hide Conforms, Lagging, FireRange, ApplyAll, ImageOf, Accepted, MoveSafe, KeyedImage, KeyKeeping;
    var batch, p, image := w.phase.batch, w.flushed, ImageOf(w.cloud);
    InFlightIs(w);
    assert batch[..n] == hist[p..p + n];
    AllFull(start, hist, schema);
    RangeIsApplied(w.cloud, hist, p, p + n, schema);
    LaggingBounds(image, start, hist, p, Reach(w), schema);
    MoveSafePart(start, hist, p, |w.received|, p, Reach(w), schema);
    RefusalStays(image, start, hist, p, p + n, Reach(w), schema);
  }

  lemma {:induction false} AllFull(start: Image, hist: seq<ChangeEvent>, schema: Schema)
    requires Accepted(start, hist, schema)
    ensures KeyedSchema(schema) && forall i :: 0 <= i < |hist| ==> FullChange(hist[i], schema)
  {
    LegalIsFull(start, hist, schema);
  }

  lemma {:induction false} LongerRefused(image: Image, hist: seq<ChangeEvent>, p: nat, m: nat, q: nat, schema: Schema)
    requires p <= m <= q <= |hist| && FireRange(image, hist, p, m, schema).None?
    ensures FireRange(image, hist, p, q, schema).None?
  {
    hide FireRange;
    if FireRange(image, hist, p, q, schema).Some? { RunPart(image, hist, p, m, q, schema); }
  }

  lemma {:induction false} StuckStep(w: World, s: Step, start: Image, hist: seq<ChangeEvent>, schema: Schema)
    requires Conserved(w) && CloudShape(w, start, hist, schema) && Enabled(w, s) && After(w, s).received <= hist
    requires Accepted(start, hist, schema) && WindowSafe(w, start, hist, schema)
    requires Stuck(w, hist, schema)
    ensures Stuck(After(w, s), hist, schema) && After(w, s).flushed == w.flushed
  {
    hide Conforms, Published, AfterStep, CanStep, FlushedState, ImageOf, Accepted, FireRange, MoveSafe, Lagging, SourceAt;
    var w' := After(w, s);
    InFlightIs(w);
    ConservedStep(w, s);
    InFlightIs(w');
    if s.Attempt? {
      StuckAttempt(w, s.count, s.ok, s.cloud, start, hist, schema);
    } else {
      LongerRefused(ImageOf(w.cloud), hist, w.flushed, Reach(w), Reach(w'), schema);
    }
  }

  lemma {:induction false} WindowsExtend(w: World, steps: seq<Step>, start: Image, hist: seq<ChangeEvent>,
      schema: Schema)
    requires steps != [] && WindowsSafe(w, steps[..|steps| - 1], start, hist, schema)
    requires WindowSafe(Run(w, steps), start, hist, schema)
    ensures WindowsSafe(w, steps, start, hist, schema)
  {
    hide WindowSafe, Run;
    var before := steps[..|steps| - 1];
    forall n | 0 <= n <= |steps| ensures WindowSafe(Run(w, steps[..n]), start, hist, schema) {
      if n < |steps| {
        assert steps[..n] == before[..n];
      } else {
        assert steps[..n] == steps;
      }
    }
  }

  /** What is left of the history from the flushed position on moves rows only where that is safe. */
  ghost predicate RestSafe(w: World, start: Image, hist: seq<ChangeEvent>, schema: Schema) {
    MoveSafe(start, hist, w.flushed, |hist|, schema)
  }

  /** Once the unflushed events cannot be applied, the flushed position never moves again, over every
      continuation of the run, whatever parts of them are committed on the way. */
  lemma {:induction false} StuckForever(w: World, steps: seq<Step>, n: nat, hist: seq<ChangeEvent>, schema: Schema)
    requires Initial(w) && CanRun(w, steps) && Run(w, steps).received <= hist && n <= |steps|
    requires Conforms(w.cloud, schema) && Accepted(ImageOf(w.cloud), hist, schema)
    requires WindowsSafe(w, steps[..n], ImageOf(w.cloud), hist, schema)
    requires RestSafe(Run(w, steps[..n]), ImageOf(w.cloud), hist, schema)
    ensures Stuck(Run(w, steps[..n]), hist, schema) ==>
              Stuck(Run(w, steps), hist, schema) && Run(w, steps).flushed == Run(w, steps[..n]).flushed
              && WindowsSafe(w, steps, ImageOf(w.cloud), hist, schema)
    decreases |steps|
  {
    hide Conforms, Enabled, After, ImageOf, Accepted, Stuck, Initial, WindowsSafe, MoveSafe;
    var start := ImageOf(w.cloud);
    if n == |steps| {
      assert steps[..n] == steps;
    } else if Stuck(Run(w, steps[..n]), hist, schema) {
      var before := steps[..|steps| - 1];
      assert before[..n] == steps[..n];
      ReceivedGrows(w, steps, |before|);
      StuckForever(w, before, n, hist, schema);
      Conservation(w, before);
      WindowsPrefix(w, before, |before|, start, hist, schema);
      assert before[..|before|] == before;
      CloudInvariant(w, before, hist, schema);
      StuckStep(Run(w, before), steps[|before|], start, hist, schema);
      var p := Run(w, steps[..n]).flushed;
      MoveSafePart(start, hist, p, |hist|, p, |Run(w, steps).received|, schema);
      WindowsExtend(w, steps, start, hist, schema);
    }
  }

  // ----- the first event -----

  /** Nothing is being published successfully and the first unflushed event is refused by the cloud. */
  ghost predicate HeadRefused(w: World) {
    && !w.phase.Sent? && (w.phase.Idle? || w.phase.batch != [])
    && w.flushed < |w.received| && Apply(w.received[w.flushed], w.cloud).None?
  }

  lemma {:induction false} HeadRefusedStep(w: World, s: Step)
    requires Conserved(w) && Enabled(w, s) && HeadRefused(w)
    ensures HeadRefused(After(w, s)) && After(w, s).flushed == w.flushed && After(w, s).cloud == w.cloud
  {
    hide Apply, AfterStep, CanStep, FlushedState;
    InFlightIs(w);
    match s
    case Attempt(n, ok, cloud) =>
      var batch := w.phase.batch;
      assert batch[0] == w.received[w.flushed];
      if n > 0 {
        assert batch[..n][..1] == [batch[0]];
        ApplyAllPrefix(batch[..n], 1, w.cloud);
      }
    case _ =>
  }

  /** Whatever the history: an event that the cloud refuses as the first unflushed one stops the engine for good,
      and the cloud never changes again. */
  lemma {:induction false} HeadRefusedForever(w: World, steps: seq<Step>, n: nat)
    requires Initial(w) && CanRun(w, steps) && n <= |steps|
    ensures HeadRefused(Run(w, steps[..n])) ==>
              HeadRefused(Run(w, steps)) && Run(w, steps).flushed == Run(w, steps[..n]).flushed
              && Run(w, steps).cloud == Run(w, steps[..n]).cloud
    decreases |steps|
  {
    hide Enabled, After, HeadRefused, Initial;
    if n == |steps| {
      assert steps[..n] == steps;
    } else if HeadRefused(Run(w, steps[..n])) {
      var before := steps[..|steps| - 1];
      assert before[..n] == steps[..n];
      HeadRefusedForever(w, before, n);
      Conservation(w, before);
      HeadRefusedStep(Run(w, before), steps[|before|]);
    }
  }

  // ----- and otherwise a flush can succeed -----

  /** The clock moves on until the breaker grants, one call of Publish commits everything. */
  function FlushSteps(w: World, cloud: Db): seq<Step> {
    [Take, Tick(w.breaker.lastFailure + DEFAULT_INTERVAL), Grant, Attempt(|w.buffer|, true, cloud), Succeed]
  }

  lemma {:induction false} FlushWorks(w: World, steps: seq<Step>, cloud: Db)
    requires Initial(w) && CanRun(w, steps)
    requires Run(w, steps).phase.Idle? && Run(w, steps).buffer != []
    requires ApplyAll(Run(w, steps).buffer, Run(w, steps).cloud) == Some(cloud)
    ensures CanRun(w, steps + FlushSteps(Run(w, steps), cloud))
    ensures
      var w' := Run(w, steps + FlushSteps(Run(w, steps), cloud));
      && w'.received == Run(w, steps).received
      && w'.flushed == Run(w, steps).flushed + |Run(w, steps).buffer|
  {
    hide Initial, CanRun, Run, ApplyAll, FlushedState;
    var w0 := Run(w, steps);
    NeverStuck(w, steps);
    var more := FlushSteps(w0, cloud);
    RunExtends(w, steps, more[0]);
    RunExtends(w, steps + [more[0]], more[1]);
    RunExtends(w, steps + [more[0]] + [more[1]], more[2]);
    assert w0.buffer[..|w0.buffer|] == w0.buffer;
    RunExtends(w, steps + [more[0]] + [more[1]] + [more[2]], more[3]);
    RunExtends(w, steps + [more[0]] + [more[1]] + [more[2]] + [more[3]], more[4]);
    assert steps + [more[0]] + [more[1]] + [more[2]] + [more[3]] + [more[4]] == steps + more;
  }

  /** An idle engine is stuck exactly when its buffer cannot be applied to the cloud as it is, and that is when
      some unflushed change is refused. */
  lemma {:induction false} StuckIff(w: World, start: Image, hist: seq<ChangeEvent>, schema: Schema)
    requires Conserved(w) && CloudShape(w, start, hist, schema) && w.phase.Idle?
    requires Accepted(start, hist, schema) && WindowSafe(w, start, hist, schema)
    ensures Stuck(w, hist, schema) <==> ApplyAll(w.buffer, w.cloud).None?
    ensures Stuck(w, hist, schema)
            <==> exists i :: w.flushed <= i < |w.received| && RefusedAt(ImageOf(w.cloud), hist, w.flushed, i, schema)
  {
    hide Conforms, Lagging, FireRange, ApplyAll, ImageOf, Accepted, MoveSafe, KeyedImage, KeyKeeping, RefusedAt;
    var p, q := w.flushed, |w.received|;
    assert w.buffer == hist[p..q] by { assert w.received[p..] == w.buffer; }
    AllFull(start, hist, schema);
    RangeIsApplied(w.cloud, hist, p, q, schema);
    LaggingBounds(ImageOf(w.cloud), start, hist, p, Reach(w), schema);
    RefusedIff(ImageOf(w.cloud), start, hist, p, q, q, schema);
  }

  /** An idle engine with something to send can get any further, however the run goes on, exactly when its
      buffer can be applied to the cloud as it is now: exactly when no unflushed change is refused. */
  lemma {:induction false} ProgressIff(w: World, steps: seq<Step>, hist: seq<ChangeEvent>, schema: Schema)
    requires Initial(w) && CanRun(w, steps) && Run(w, steps).received <= hist
    requires Conforms(w.cloud, schema) && Accepted(ImageOf(w.cloud), hist, schema)
    requires WindowsSafe(w, steps, ImageOf(w.cloud), hist, schema)
    requires RestSafe(Run(w, steps), ImageOf(w.cloud), hist, schema)
    requires Run(w, steps).phase.Idle? && Run(w, steps).buffer != []
    ensures
      var w0 := Run(w, steps);
      var canFlush := exists more :: CanRun(w, steps + more) && Run(w, steps + more).received <= hist
                                     && Run(w, steps + more).flushed > w0.flushed;
      && (canFlush <==> ApplyAll(w0.buffer, w0.cloud).Some?)
      && (canFlush <==> !exists i :: w0.flushed <= i < |w0.received|
                                     && RefusedAt(ImageOf(w0.cloud), hist, w0.flushed, i, schema))
  {
    hide Conforms, Enabled, After, ImageOf, Accepted, Initial, WindowsSafe, CloudShape, ApplyAll, CanRun, Run, Stuck;
    hide RestSafe, RefusedAt;
    var w0, start := Run(w, steps), ImageOf(w.cloud);
    Conservation(w, steps);
    CloudInvariant(w, steps, hist, schema);
    assert steps[..|steps|] == steps;
    WindowsPrefix(w, steps, |steps|, start, hist, schema);
    StuckIff(w0, start, hist, schema);
    if Stuck(w0, hist, schema) {
      forall more | CanRun(w, steps + more) && Run(w, steps + more).received <= hist
        ensures Run(w, steps + more).flushed == w0.flushed
      {
        assert (steps + more)[..|steps|] == steps;
        StuckForever(w, steps + more, |steps|, hist, schema);
      }
    } else {
      var cloud := ApplyAll(w0.buffer, w0.cloud).value;
      FlushWorks(w, steps, cloud);
      assert Run(w, steps + FlushSteps(w0, cloud)).flushed > w0.flushed;
    }
  }
}
