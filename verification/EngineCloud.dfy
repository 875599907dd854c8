/** The replica after every successful flush, whatever partial commits and retries came before. */
module EngineCloud {
  import opened Rows
  import opened Source
  import opened Refusals
  import opened Replay
  import opened StateStore
  import opened Publishing
  import opened EngineModel
  import opened EngineOrder

  /** Every key of the replica is within its own history, from the flushed position to what the next
      flush will send; when a batch has been published the replica is level with the source. */
  ghost predicate CloudShape(w: World, start: Image, hist: seq<ChangeEvent>, schema: Schema) {
    && w.received <= hist && Reach(w) <= |w.received|
    && Conforms(w.cloud, schema)
    && Lagging(ImageOf(w.cloud), start, hist, w.flushed, Reach(w), schema)
    && (w.phase.Sent? ==> ImageOf(w.cloud) == SourceAt(start, hist, Reach(w)))
  }

  /** Every batch the run may send moves rows only where that is safe: at each moment the changes from the
      flushed position on are move-safe. */
  ghost predicate WindowsSafe(w: World, steps: seq<Step>, start: Image, hist: seq<ChangeEvent>, schema: Schema) {
    forall n :: 0 <= n <= |steps| ==> WindowSafe(Run(w, steps[..n]), start, hist, schema)
  }

  ghost predicate WindowSafe(w: World, start: Image, hist: seq<ChangeEvent>, schema: Schema) {
    |w.received| <= |hist| && MoveSafe(start, hist, w.flushed, |w.received|, schema)
  }

  lemma {:induction false} WindowsPrefix(w: World, steps: seq<Step>, n: nat, start: Image, hist: seq<ChangeEvent>,
      schema: Schema)
    requires n <= |steps| && WindowsSafe(w, steps, start, hist, schema)
    ensures WindowsSafe(w, steps[..n], start, hist, schema)
    ensures WindowSafe(Run(w, steps[..n]), start, hist, schema)
  {
    hide WindowSafe, Run;
    forall k | 0 <= k <= n ensures WindowSafe(Run(w, steps[..n][..k]), start, hist, schema) {
      assert steps[..n][..k] == steps[..k];
    }
  }

  /** Updates that keep the key make every window safe. */
  lemma {:induction false} KeyKeepingWindows(w: World, steps: seq<Step>, start: Image, hist: seq<ChangeEvent>,
      schema: Schema)
    requires KeyKeeping(hist, schema) && Run(w, steps).received <= hist
    ensures WindowsSafe(w, steps, start, hist, schema)
  {
    hide KeyKeeping, MoveSafe;
    forall n | 0 <= n <= |steps| ensures WindowSafe(Run(w, steps[..n]), start, hist, schema) {
      ReceivedGrows(w, steps, n);
      KeyKeepingIsSafe(start, hist, Run(w, steps[..n]).flushed, |Run(w, steps[..n]).received|, schema);
    }
  }

  /** One call of Publish on the batch in flight. */
  lemma {:induction false} AttemptKeeps(w: World, n: nat, ok: bool, cloud: Db, start: Image, hist: seq<ChangeEvent>,
      schema: Schema)
    requires Conserved(w) && CloudShape(w, start, hist, schema) && Enabled(w, Attempt(n, ok, cloud))
    requires Accepted(start, hist, schema) && WindowSafe(w, start, hist, schema)
    ensures Conforms(cloud, schema)
    ensures Lagging(ImageOf(cloud), start, hist, w.flushed, Reach(w), schema)
    ensures ok ==> ImageOf(cloud) == SourceAt(start, hist, Reach(w))
  {
    hide Conforms, Lagging, SourceAt, FireRange, ApplyAll, ImageOf, MoveSafe;
    var batch, p := w.phase.batch, w.flushed;
    InFlightIs(w);
    assert batch[..n] == hist[p..p + n];
    LegalIsFull(start, hist, schema);
    RangeIsApplied(w.cloud, hist, p, p + n, schema);
    MoveSafePart(start, hist, p, |w.received|, p, Reach(w), schema);
    PartialReplay(start, ImageOf(w.cloud), hist, p, p + n, Reach(w), schema);
    if ok { FullReplay(start, ImageOf(w.cloud), hist, p, p + n, schema); }
  }

  lemma LegalIsFull(start: Image, hist: seq<ChangeEvent>, schema: Schema)
    requires LegalHistory(start, hist, schema)
    ensures forall i :: 0 <= i < |hist| ==> FullChange(hist[i], schema)
  {
    forall i | 0 <= i < |hist| ensures FullChange(hist[i], schema) {
      assert Legal(SourceAt(start, hist, i), hist[i], schema);
    }
  }

  lemma {:induction false} CloudStep(w: World, s: Step, start: Image, hist: seq<ChangeEvent>, schema: Schema)
    requires Conserved(w) && CloudShape(w, start, hist, schema) && Enabled(w, s)
    requires Accepted(start, hist, schema) && WindowSafe(w, start, hist, schema)
    requires After(w, s).received <= hist
    ensures CloudShape(After(w, s), start, hist, schema)
  {
    hide Conforms, Lagging, SourceAt, ImageOf, Published, AfterStep, CanStep, FlushedState, LegalHistory;
    hide KeyedSchema, MoveSafe;
    var w' := After(w, s);
    InFlightIs(w);
    ConservedStep(w, s);
    InFlightIs(w');
    match s
    case Receive(_) =>
      LaggingBounds(ImageOf(w.cloud), start, hist, w.flushed, Reach(w), schema);
      LaggingWiden(ImageOf(w.cloud), start, hist, w.flushed, Reach(w), Reach(w'), schema);
    case Attempt(n, ok, cloud) =>
      AttemptKeeps(w, n, ok, cloud, start, hist, schema);
    case Succeed =>
      LevelLags(start, hist, w'.flushed, schema);
      LaggingWiden(ImageOf(w.cloud), start, hist, w'.flushed, w'.flushed, Reach(w'), schema);
    case _ =>
      LaggingWiden(ImageOf(w.cloud), start, hist, w.flushed, Reach(w), Reach(w'), schema);
  }

  lemma {:induction false} CloudInvariant(w: World, steps: seq<Step>, hist: seq<ChangeEvent>, schema: Schema)
    requires Initial(w) && CanRun(w, steps) && Run(w, steps).received <= hist
    requires Conforms(w.cloud, schema) && Accepted(ImageOf(w.cloud), hist, schema)
    requires WindowsSafe(w, steps, ImageOf(w.cloud), hist, schema)
    ensures CloudShape(Run(w, steps), ImageOf(w.cloud), hist, schema)
    decreases |steps|
  {
    hide Conforms, Lagging, Enabled, After, ImageOf, LegalHistory, KeyedSchema, WindowSafe, WindowsSafe;
    var start := ImageOf(w.cloud);
    if steps == [] {
      LevelLags(start, hist, 0, schema);
    } else {
      var before := steps[..|steps| - 1];
      ReceivedGrows(w, steps, |before|);
      Conservation(w, before);
      WindowsPrefix(w, steps, |before|, start, hist, schema);
      CloudInvariant(w, before, hist, schema);
      CloudStep(Run(w, before), steps[|before|], start, hist, schema);
    }
  }

  /** At the end of every successful flush the replica holds exactly the source's rows after the
      flushed events, whatever failures, partial commits and retries came before. */
  lemma {:induction false} ReplicaEqualsSource(w: World, steps: seq<Step>, hist: seq<ChangeEvent>, schema: Schema)
    requires Initial(w) && CanRun(w, steps) && Conforms(w.cloud, schema)
    requires Run(w, steps).received <= hist && Accepted(ImageOf(w.cloud), hist, schema)
    requires WindowsSafe(w, steps, ImageOf(w.cloud), hist, schema)
    requires steps != [] && steps[|steps| - 1].Succeed?
    ensures
      var w' := Run(w, steps);
      w'.flushed <= |hist| && ImageOf(w'.cloud) == SourceAt(ImageOf(w.cloud), hist, w'.flushed)
  {
    hide Conforms, CloudShape, ImageOf, Accepted, After, Enabled, SourceAt, Initial, CanRun, Run, WindowsSafe;
    var before := steps[..|steps| - 1];
    ReceivedGrows(w, steps, |before|);
    LastStep(w, steps);
    WindowsPrefix(w, steps, |before|, ImageOf(w.cloud), hist, schema);
    CloudInvariant(w, before, hist, schema);
    SucceedLands(Run(w, before), ImageOf(w.cloud), hist, schema);
  }

  lemma {:induction false} LastStep(w: World, steps: seq<Step>)
    requires steps != [] && CanRun(w, steps)
    ensures
      var before := steps[..|steps| - 1];
      && CanRun(w, before) && Enabled(Run(w, before), steps[|steps| - 1])
      && Run(w, steps) == After(Run(w, before), steps[|steps| - 1])
  {
    hide Enabled, After;
  }

  lemma {:induction false} SucceedLands(w: World, start: Image, hist: seq<ChangeEvent>, schema: Schema)
    requires Enabled(w, Succeed) && CloudShape(w, start, hist, schema)
    ensures
      var w' := After(w, Succeed);
      w'.flushed <= |hist| && ImageOf(w'.cloud) == SourceAt(start, hist, w'.flushed)
  {
    hide Conforms, Lagging, ImageOf, SourceAt;
  }

  /** In every reachable state each key of the replica is at some point of its own history, not before
      the flushed position. */
  lemma {:induction false} KeysWithinHistory(w: World, steps: seq<Step>, hist: seq<ChangeEvent>, schema: Schema,
      name: seq<string>, k: Row)
    requires Initial(w) && CanRun(w, steps) && Conforms(w.cloud, schema) && name in schema
    requires Run(w, steps).received <= hist && Accepted(ImageOf(w.cloud), hist, schema)
    requires WindowsSafe(w, steps, ImageOf(w.cloud), hist, schema)
    ensures
      var w' := Run(w, steps);
      exists t :: w'.flushed <= t <= |w'.received|
        && At(ImageOf(w'.cloud), name, k, schema) == At(SourceAt(ImageOf(w.cloud), hist, t), name, k, schema)
  {
    hide Conforms, ImageOf, LegalHistory, KeyedSchema, SourceAt, At, WindowsSafe;
    CloudInvariant(w, steps, hist, schema);
    LaggingPoint(Run(w, steps), ImageOf(w.cloud), hist, schema, name, k);
  }

  lemma {:induction false} LaggingPoint(w: World, start: Image, hist: seq<ChangeEvent>, schema: Schema,
      name: seq<string>, k: Row)
    requires CloudShape(w, start, hist, schema) && name in schema
    ensures
      exists t :: w.flushed <= t <= |w.received|
        && At(ImageOf(w.cloud), name, k, schema) == At(SourceAt(start, hist, t), name, k, schema)
  {
    hide Conforms, ImageOf, SourceAt, At, Moves;
    var at: Points :| Placed(ImageOf(w.cloud), at, start, hist, w.flushed, Reach(w), schema)
                      && Coupled(at, hist, w.flushed, Reach(w), schema);
    var t := at(name, k);
    assert w.flushed <= t <= |w.received|;
  }
}
