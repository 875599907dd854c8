/** What is on disk while the engine runs, crashes and starts again. */
module EngineCheckpoint {
  import opened Wrappers
  import opened StateStore
  import opened Publishing
  import opened EngineModel
  import opened EngineOrder

  /** The processed count a restart would load. */
  function Persisted(d: Disk): nat {
    match LoadFrom(d.files.main)
    case Loaded(s) => s.eventsProcessed
    case Unparseable => 0
  }

  /** The checkpoint parses, and counts ascend from the file over the save in progress to memory. */
  ghost predicate DiskShape(w: World) {
    && LoadFrom(w.disk.files.main).Loaded?
    && Persisted(w.disk) <= w.mem.eventsProcessed
    && (w.disk.complete ==> w.disk.saving.Some? && w.disk.files.tmp == Some(Whole(w.disk.saving.value)))
    && (w.disk.saving.Some? ==>
          Persisted(w.disk) <= w.disk.saving.value.eventsProcessed <= w.mem.eventsProcessed)
  }

  lemma {:induction false} DiskShapeStep(w: World, s: Step)
    requires DiskShape(w) && Enabled(w, s)
    ensures DiskShape(After(w, s))
    ensures Persisted(w.disk) <= Persisted(After(w, s).disk)
  {
    hide Published, MaxLsn, LatestTime;
  }

  lemma {:induction false} DiskShapeRun(w: World, steps: seq<Step>)
    requires Initial(w) && CanRun(w, steps)
    ensures DiskShape(Run(w, steps))
    ensures Persisted(w.disk) <= Persisted(Run(w, steps).disk)
    decreases |steps|
  {
    if steps != [] {
      hide After, Enabled, DiskShape;
      DiskShapeRun(w, steps[..|steps| - 1]);
      DiskShapeStep(Run(w, steps[..|steps| - 1]), steps[|steps| - 1]);
    }
  }

  // ----- crashes and restarts -----

  /** One life of the engine process: how it started and the steps it took before it ended or crashed. */
  datatype Life = Life(begin: World, steps: seq<Step>)

  function End(l: Life): World { Run(l.begin, l.steps) }

  /** Each life starts from the files the one before it left, wherever it was cut. */
  ghost predicate Restarts(lives: seq<Life>) {
    && (forall i :: 0 <= i < |lives| ==> Initial(lives[i].begin) && CanRun(lives[i].begin, lives[i].steps))
    && (forall i :: 0 < i < |lives| ==> lives[i].begin.disk.files == End(lives[i - 1]).disk.files)
    && (lives != [] ==> lives[0].begin.disk.files == Files(None, None))
  }

  /** All events flushed over the given lives. */
  function FlushedTotal(lives: seq<Life>): nat
    decreases |lives|
  {
    if lives == [] then 0 else FlushedTotal(lives[..|lives| - 1]) + End(lives[|lives| - 1]).flushed
  }

  lemma RestartsPrefix(lives: seq<Life>)
    requires lives != [] && Restarts(lives)
    ensures Restarts(lives[..|lives| - 1])
  {
  }

  /** Over any number of crashes and restarts, the persisted processed count never exceeds the number
      of events flushed, and the in-memory count never does either. */
  lemma {:induction false} PersistedBound(lives: seq<Life>)
    requires lives != [] && Restarts(lives)
    ensures Persisted(End(lives[|lives| - 1]).disk) <= End(lives[|lives| - 1]).mem.eventsProcessed <= FlushedTotal(lives)
    decreases |lives|
  {
    var last := lives[|lives| - 1];
    DiskShapeRun(last.begin, last.steps);
    Counters(last.begin, last.steps);
    if |lives| > 1 {
      var before := lives[..|lives| - 1];
      RestartsPrefix(lives);
      PersistedBound(before);
      assert last.begin.disk.files == End(before[|before| - 1]).disk.files;
    }
  }

  /** The persisted processed count never decreases from one life to a later one. */
  lemma {:induction false} PersistedMonotone(lives: seq<Life>, i: nat, j: nat)
    requires Restarts(lives) && i <= j < |lives|
    ensures Persisted(End(lives[i]).disk) <= Persisted(End(lives[j]).disk)
    decreases j
  {
    if i < j {
      PersistedMonotone(lives, i, j - 1);
      DiskShapeRun(lives[j].begin, lives[j].steps);
    }
  }
}
