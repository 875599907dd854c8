/** The checkpoint file: written beside its place, then renamed over it. */
module StateStore {
  import opened Wrappers

  datatype Node = LocalNode | CloudNode

  datatype ReplicationState = ReplicationState(
    slotName: string, lastLsn: nat, lastFlushTime: nat, eventsProcessed: nat, eventsFailed: nat,
    currentLag: int, activeNode: Node, lockHolder: string, lastFailoverTime: nat)

  const FRESH := ReplicationState("", 0, 0, 0, 0, 0, LocalNode, "", 0)

  /** What a file holds: one whole snapshot, or something a reader cannot parse. */
  datatype Content = Whole(state: ReplicationState) | Torn

  datatype Files = Files(main: Option<Content>, tmp: Option<Content>)

  datatype LoadResult = Loaded(state: ReplicationState) | Unparseable

  function LoadFrom(main: Option<Content>): LoadResult {
    match main
    case None => Loaded(FRESH)
    case Some(Whole(s)) => Loaded(s)
    case Some(Torn) => Unparseable
  }

  // ----- single file operations -----

  /** The file system with the save in progress: its snapshot, and whether the temporary file is complete. */
  datatype Disk = Disk(files: Files, saving: Option<ReplicationState>, complete: bool)

  datatype DiskStep =
    | Begin(state: ReplicationState)
    | Tear      // part of the temporary file is written
    | Fill      // the temporary file is complete
    | Swap      // rename over the checkpoint
    | Discard   // remove the temporary file
    | Leave     // the save returns, or the process dies

  predicate CanStep(d: Disk, s: DiskStep) {
    match s
    case Begin(_) => d.saving.None?
    case Tear => d.saving.Some?
    case Fill => d.saving.Some?
    case Swap => d.saving.Some? && d.complete
    case Discard => d.saving.Some?
    case Leave => true
  }

  function AfterStep(d: Disk, s: DiskStep): Disk {
    match s
    case Begin(state) => Disk(d.files, Some(state), false)
    case Tear => d.(files := d.files.(tmp := Some(Torn)), complete := false)
    case Fill => if d.saving.Some? then d.(files := d.files.(tmp := Some(Whole(d.saving.value))), complete := true) else d
    case Swap => d.(files := Files(d.files.tmp, None), complete := false)
    case Discard => d.(files := d.files.(tmp := None), complete := false)
    case Leave => d.(saving := None, complete := false)
  }

  function AfterSteps(d: Disk, steps: seq<DiskStep>): Disk
    decreases |steps|
  {
    if steps == [] then d else AfterStep(AfterSteps(d, steps[..|steps| - 1]), steps[|steps| - 1])
  }

  predicate CanRunSteps(d: Disk, steps: seq<DiskStep>) {
    forall i :: 0 <= i < |steps| ==> CanStep(AfterSteps(d, steps[..i]), steps[i])
  }

  /** The snapshot whose save was begun last. */
  function LastBegun(steps: seq<DiskStep>): Option<ReplicationState>
    decreases |steps|
  {
    if steps == [] then None
    else
      var last := steps[|steps| - 1];
      if last.Begin? then Some(last.state) else LastBegun(steps[..|steps| - 1])
  }

  /** The snapshot renamed into place last. */
  function LastSwapped(steps: seq<DiskStep>): Option<ReplicationState>
    decreases |steps|
  {
    if steps == [] then None
    else
      var before := steps[..|steps| - 1];
      if steps[|steps| - 1].Swap? then LastBegun(before) else LastSwapped(before)
  }

  const EMPTY_DISK := Disk(Files(None, None), None, false)

  lemma {:induction false} DiskInvariant(steps: seq<DiskStep>)
    requires CanRunSteps(EMPTY_DISK, steps)
    ensures
      var d := AfterSteps(EMPTY_DISK, steps);
      && (d.saving.Some? ==> d.saving == LastBegun(steps))
      && (d.complete ==> d.saving.Some? && d.files.tmp == Some(Whole(d.saving.value)))
      && d.files.main == (match LastSwapped(steps) case None => None case Some(s) => Some(Whole(s)))
    decreases |steps|
  {
    if steps != [] {
      var before := steps[..|steps| - 1];
      assert CanRunSteps(EMPTY_DISK, before) by {
        forall i | 0 <= i < |before| ensures CanStep(AfterSteps(EMPTY_DISK, before[..i]), before[i]) {
          assert before[..i] == steps[..i];
        }
      }
      DiskInvariant(before);
      assert CanStep(AfterSteps(EMPTY_DISK, before), steps[|steps| - 1]);
    }
  }

  /** Wherever a sequence of saves is cut, loading gives the snapshot renamed last, or the fresh state. */
  lemma CrashSafe(steps: seq<DiskStep>)
    requires CanRunSteps(EMPTY_DISK, steps)
    ensures LoadFrom(AfterSteps(EMPTY_DISK, steps).files.main)
            == Loaded(match LastSwapped(steps) case None => FRESH case Some(s) => s)
  {
    DiskInvariant(steps);
  }

  /** Every save that the steps begin is one of `rs`. */
  predicate BeginsOnly(steps: seq<DiskStep>, rs: ReplicationState) {
    forall i :: 0 <= i < |steps| && steps[i].Begin? ==> steps[i].state == rs
  }

  lemma NoSteps(d: Disk, rs: ReplicationState)
    ensures CanRunSteps(d, []) && AfterSteps(d, []) == d && BeginsOnly([], rs)
    ensures LastBegun([]) == None && LastSwapped([]) == None
  {
  }

  /** One more step of a run. */
  ghost function Extended(d: Disk, steps: seq<DiskStep>, s: DiskStep): (r: seq<DiskStep>)
    requires CanRunSteps(d, steps) && CanStep(AfterSteps(d, steps), s)
    ensures CanRunSteps(d, r) && AfterSteps(d, r) == AfterStep(AfterSteps(d, steps), s)
    ensures LastBegun(r) == if s.Begin? then Some(s.state) else LastBegun(steps)
    ensures LastSwapped(r) == if s.Swap? then LastBegun(steps) else LastSwapped(steps)
    ensures forall rs :: BeginsOnly(steps, rs) && (s.Begin? ==> s.state == rs) ==> BeginsOnly(r, rs)
  {
    var r := steps + [s];
    assert r[..|steps|] == steps;
    assert forall i :: 0 <= i < |steps| ==> r[..i] == steps[..i];
    r
  }

  // ----- the store -----

  class Store {
    var main: Option<Content>
    var tmp: Option<Content>
    ghost var saving: Option<ReplicationState>
    ghost var complete: bool
    const reliable: bool

    ghost function View(): Disk
      reads this
    {
      Disk(Files(main, tmp), saving, complete)
    }

    constructor (files: Files, reliable: bool)
      ensures View() == Disk(files, None, false) && this.reliable == reliable
    {
      this.reliable := reliable;
      main, tmp := files.main, files.tmp;
      saving, complete := None, false;
    }

    /** Writes the temporary file; a failed write may leave it torn. */
    method WriteTmp(rs: ReplicationState, ghost before: Disk, ghost sofar: seq<DiskStep>)
      returns (ok: bool, ghost steps: seq<DiskStep>)
      requires CanRunSteps(before, sofar) && AfterSteps(before, sofar) == View() && saving == Some(rs)
      modifies this`tmp, this`complete
      ensures CanRunSteps(before, steps) && AfterSteps(before, steps) == View()
      ensures LastBegun(steps) == LastBegun(sofar) && LastSwapped(steps) == LastSwapped(sofar)
      ensures BeginsOnly(sofar, rs) ==> BeginsOnly(steps, rs)
      ensures ok ==> complete && tmp == Some(Whole(rs))
      ensures reliable ==> ok
    {
      hide CanRunSteps, AfterSteps, LastBegun, LastSwapped, BeginsOnly;
      steps := sofar;
      var created: bool := *;
      if !created && !reliable { return false, steps; }
      tmp, complete, steps := Some(Torn), false, Extended(before, steps, Tear);
      ok := *;
      ok := ok || reliable;
      if ok { tmp, complete, steps := Some(Whole(rs)), true, Extended(before, steps, Fill); }
    }

    /** Renames the temporary file over the checkpoint, or tries to remove it. */
    method RenameTmp(ghost before: Disk, ghost sofar: seq<DiskStep>) returns (ok: bool, ghost steps: seq<DiskStep>)
      requires CanRunSteps(before, sofar) && AfterSteps(before, sofar) == View() && saving.Some? && complete
      modifies this`main, this`tmp, this`complete
      ensures CanRunSteps(before, steps) && AfterSteps(before, steps) == View()
      ensures LastBegun(steps) == LastBegun(sofar)
      ensures LastSwapped(steps) == if ok then LastBegun(sofar) else LastSwapped(sofar)
      ensures forall rs :: BeginsOnly(sofar, rs) ==> BeginsOnly(steps, rs)
      ensures main == (if ok then old(tmp) else old(main)) && (ok ==> tmp == None)
      ensures reliable ==> ok
    {
      hide CanRunSteps, AfterSteps, LastBegun, LastSwapped, BeginsOnly;
      steps := sofar;
      ok := *;
      ok := ok || reliable;
      if ok {
        main, tmp, complete, steps := tmp, None, false, Extended(before, steps, Swap);
        return;
      }
      var removed: bool := *;
      if removed { tmp, complete, steps := None, false, Extended(before, steps, Discard); }
    }

    /** Unless the file system is reliable every system call may fail. */
    method Save(rs: ReplicationState) returns (ok: bool, ghost steps: seq<DiskStep>)
      requires View().saving.None?
      modifies this
      ensures CanRunSteps(old(View()), steps) && AfterSteps(old(View()), steps) == View()
      ensures View().saving.None? && BeginsOnly(steps, rs) && LastBegun(steps) == Some(rs)
      ensures ok ==> main == Some(Whole(rs)) && LastSwapped(steps) == Some(rs)
      ensures !ok ==> main == old(main) && LastSwapped(steps) == None
      ensures reliable ==> ok && tmp == None
    {
      hide CanRunSteps, AfterSteps, LastBegun, LastSwapped, BeginsOnly;
      ghost var before := View();
      NoSteps(before, rs);
      saving, complete, steps := Some(rs), false, Extended(before, [], Begin(rs));
      ok, steps := WriteTmp(rs, before, steps);
      if ok { ok, steps := RenameTmp(before, steps); }
      saving, complete, steps := None, false, Extended(before, steps, Leave);
    }

    /** None when the file exists but cannot be read. */
    method Load() returns (r: Option<LoadResult>)
      ensures r.Some? ==> r.value == LoadFrom(main)
      ensures main.None? ==> r == Some(Loaded(FRESH))
      ensures reliable ==> r == Some(LoadFrom(main))
      ensures reliable ==> (r == Some(Unparseable) <==> main == Some(Torn))
      ensures main.Some? && main.value.Whole? && r.Some? ==> r.value == Loaded(main.value.state)
    {
      if main.None? { return Some(Loaded(FRESH)); }
      var readable: bool := *;
      r := if readable || reliable then Some(LoadFrom(main)) else None;
    }
  }
}
