/** The replication engine as a state machine: one step for each critical section, request or file operation. */
module EngineModel {
  import opened Rows
  import opened Circuits
  import opened StateStore
  import opened Publishing
  import opened Ranges

  const ATTEMPTS: nat := 3

  /** Where a flush is. */
  datatype Phase =
    | Idle
    | Taken(batch: seq<ChangeEvent>)               // out of the buffer, breaker not asked yet
    | Trying(batch: seq<ChangeEvent>, tries: nat)  // allowed, `tries` calls of Publish have failed
    | Sent(batch: seq<ChangeEvent>)                // Publish returned nil

  /** `received` is what has come off the channel, `flushed` how many of these events are counted as
      processed, `log` the committed events as positions in `received`. The last group counts since the
      last successful publish: failed flushes, granted flushes, calls of Publish, and when the breaker
      opened. */
  datatype World = World(
    now: nat,
    received: seq<ChangeEvent>, flushed: nat, phase: Phase, buffer: seq<ChangeEvent>,
    chunk: nat, slot: string, breaker: Breaker, cloud: Db, log: seq<nat>,
    mem: ReplicationState, disk: Disk,
    failures: nat, grants: nat, calls: nat, openedAt: nat)

  datatype Step =
    | Tick(elapsed: nat)
    | Receive(event: ChangeEvent)
    | Take
    | Block
    | Grant
    | Attempt(count: nat, ok: bool, cloud: Db)
    | GiveUp
    | Succeed
    | Checkpoint(op: DiskStep)

  function InFlight(p: Phase): seq<ChangeEvent> {
    if p.Idle? then [] else p.batch
  }

  function MaxLsn(es: seq<ChangeEvent>): nat {
    if es == [] then 0
    else
      var m := MaxLsn(es[..|es| - 1]);
      if es[|es| - 1].lsn > m then es[|es| - 1].lsn else m
  }

  function LatestTime(es: seq<ChangeEvent>): nat {
    if es == [] then 0
    else
      var m := LatestTime(es[..|es| - 1]);
      if es[|es| - 1].timestamp > m then es[|es| - 1].timestamp else m
  }

  /** The replication state after a batch was published at time `now`. */
  function FlushedState(mem: ReplicationState, batch: seq<ChangeEvent>, slot: string, now: nat): ReplicationState {
    mem.(slotName := slot,
         lastLsn := MaxLsn(batch),
         lastFlushTime := now,
         eventsProcessed := mem.eventsProcessed + |batch|,
         currentLag := if LatestTime(batch) == 0 then mem.currentLag else now - LatestTime(batch))
  }

  lemma {:induction false} MaxLsnIs(es: seq<ChangeEvent>)
    ensures forall i :: 0 <= i < |es| ==> es[i].lsn <= MaxLsn(es)
    ensures es != [] ==> exists i :: 0 <= i < |es| && es[i].lsn == MaxLsn(es)
    decreases |es|
  {
    if es != [] {
      var before := es[..|es| - 1];
      MaxLsnIs(before);
      forall i | 0 <= i < |es| ensures es[i].lsn <= MaxLsn(es) {
        if i < |before| { assert before[i].lsn <= MaxLsn(before); }
      }
      if es[|es| - 1].lsn <= MaxLsn(before) && before != [] {
        var i :| 0 <= i < |before| && before[i].lsn == MaxLsn(before);
        assert es[i].lsn == MaxLsn(es);
      } else {
        assert es[|es| - 1].lsn == MaxLsn(es);
      }
    }
  }

  lemma {:induction false} LatestTimeIs(es: seq<ChangeEvent>)
    ensures forall i :: 0 <= i < |es| ==> es[i].timestamp <= LatestTime(es)
    ensures es != [] ==> exists i :: 0 <= i < |es| && es[i].timestamp == LatestTime(es)
    decreases |es|
  {
    if es != [] {
      var before := es[..|es| - 1];
      LatestTimeIs(before);
      forall i | 0 <= i < |es| ensures es[i].timestamp <= LatestTime(es) {
        if i < |before| { assert before[i].timestamp <= LatestTime(before); }
      }
      if es[|es| - 1].timestamp <= LatestTime(before) && before != [] {
        var i :| 0 <= i < |before| && before[i].timestamp == LatestTime(before);
        assert es[i].timestamp == LatestTime(es);
      } else {
        assert es[|es| - 1].timestamp == LatestTime(es);
      }
    }
  }

  /** What a flush records: the highest LSN of the batch, the time, the slot, the count, and as lag the time since
      the latest event that carries a timestamp; without one the lag stays. Nothing else changes. */
  lemma {:induction false} FlushedStateIs(mem: ReplicationState, batch: seq<ChangeEvent>, slot: string, now: nat)
    requires batch != []
    ensures
      var s := FlushedState(mem, batch, slot, now);
      && (exists i :: 0 <= i < |batch| && s.lastLsn == batch[i].lsn
                      && forall j :: 0 <= j < |batch| ==> batch[j].lsn <= batch[i].lsn)
      && s.lastFlushTime == now && s.slotName == slot && s.eventsProcessed == mem.eventsProcessed + |batch|
      && ((forall i :: 0 <= i < |batch| ==> batch[i].timestamp == 0) ==> s.currentLag == mem.currentLag)
      && (forall i :: 0 <= i < |batch| && batch[i].timestamp != 0
                      && (forall j :: 0 <= j < |batch| ==> batch[j].timestamp <= batch[i].timestamp) ==>
            s.currentLag == now - batch[i].timestamp)
      && s.eventsFailed == mem.eventsFailed && s.activeNode == mem.activeNode
      && s.lockHolder == mem.lockHolder && s.lastFailoverTime == mem.lastFailoverTime
  {
    hide MaxLsn, LatestTime;
    MaxLsnIs(batch);
    LatestTimeIs(batch);
  }

  ghost predicate Enabled(w: World, s: Step) {
    match s
    case Tick(_) => true
    case Receive(_) => true
    case Take => w.phase.Idle? && w.buffer != []
    case Block => w.phase.Taken? && !Grants(w.breaker, w.now)
    case Grant => w.phase.Taken? && Grants(w.breaker, w.now)
    case Attempt(n, ok, cloud) =>
      w.phase.Trying? && w.phase.tries < ATTEMPTS && Published(w.phase.batch, w.chunk, w.cloud, n, ok, cloud)
    case GiveUp => w.phase.Trying? && w.phase.tries > 0
    case Succeed => w.phase.Sent?
    case Checkpoint(op) => CanStep(w.disk, op) && (op.Begin? ==> op.state == w.mem)
  }

  function After(w: World, s: Step): World {
    match s
    case Tick(d) => w.(now := w.now + d)
    case Receive(e) => w.(received := w.received + [e], buffer := w.buffer + [e])
    case Take => w.(phase := Taken(w.buffer), buffer := [])
    case Block => w.(phase := Idle, buffer := InFlight(w.phase) + w.buffer)
    case Grant =>
      w.(phase := Trying(InFlight(w.phase), 0), breaker := AfterAllow(w.breaker, w.now), grants := w.grants + 1)
    case Attempt(n, ok, cloud) =>
      w.(phase := if ok then Sent(InFlight(w.phase))
                  else Trying(InFlight(w.phase), if w.phase.Trying? then w.phase.tries + 1 else 0),
         cloud := cloud, log := w.log + Iota(w.flushed, n), calls := w.calls + 1)
    case GiveUp =>
      w.(phase := Idle, buffer := InFlight(w.phase) + w.buffer,
         breaker := AfterFailure(w.breaker, w.now),
         mem := w.mem.(eventsFailed := w.mem.eventsFailed + |InFlight(w.phase)|),
         failures := w.failures + 1,
         openedAt := if w.failures + 1 == w.breaker.threshold then w.now else w.openedAt)
    case Succeed =>
      w.(phase := Idle, flushed := w.flushed + |InFlight(w.phase)|,
         breaker := AfterSuccess(w.breaker),
         mem := FlushedState(w.mem, InFlight(w.phase), w.slot, w.now),
         failures := 0, grants := 0, calls := 0)
    case Checkpoint(op) => w.(disk := AfterStep(w.disk, op))
  }

  /** A started engine: state loaded from disk, nothing received. */
  ghost predicate Initial(w: World) {
    && w.received == [] && w.flushed == 0 && w.phase == Idle && w.buffer == [] && w.log == []
    && w.breaker == Fresh(DEFAULT_THRESHOLD, DEFAULT_INTERVAL)
    && w.disk.saving.None? && !w.disk.complete && LoadFrom(w.disk.files.main) == Loaded(w.mem)
    && w.failures == w.grants == w.calls == 0
    && Shaped(w.cloud)
  }

  function Run(w: World, steps: seq<Step>): World
    decreases |steps|
  {
    if steps == [] then w else After(Run(w, steps[..|steps| - 1]), steps[|steps| - 1])
  }

  /** Each step is enabled where it is taken. */
  ghost predicate CanRun(w: World, steps: seq<Step>)
    decreases |steps|
  {
    steps == [] ||
    (CanRun(w, steps[..|steps| - 1]) && Enabled(Run(w, steps[..|steps| - 1]), steps[|steps| - 1]))
  }

  lemma RunExtends(w: World, steps: seq<Step>, s: Step)
    requires CanRun(w, steps) && Enabled(Run(w, steps), s)
    ensures CanRun(w, steps + [s]) && Run(w, steps + [s]) == After(Run(w, steps), s)
  {
    assert (steps + [s])[..|steps|] == steps;
  }

  lemma {:induction false} RunPrefix(w: World, steps: seq<Step>, n: nat)
    requires n <= |steps| && CanRun(w, steps)
    ensures CanRun(w, steps[..n])
    decreases |steps|
  {
    if n == |steps| {
      assert steps[..n] == steps;
    } else {
      assert steps[..n] == steps[..|steps| - 1][..n];
      RunPrefix(w, steps[..|steps| - 1], n);
    }
  }

  function Checkpoints(ops: seq<DiskStep>): (r: seq<Step>)
    ensures |r| == |ops|
  {
    seq(|ops|, i requires 0 <= i < |ops| => Checkpoint(ops[i]))
  }

  /** A whole save of the current state is a run of checkpoint steps that changes the disk only. */
  lemma {:induction false} RunSave(w: World, steps: seq<Step>, ops: seq<DiskStep>)
    requires CanRun(w, steps) && CanRunSteps(Run(w, steps).disk, ops)
    requires BeginsOnly(ops, Run(w, steps).mem)
    ensures CanRun(w, steps + Checkpoints(ops))
    ensures Run(w, steps + Checkpoints(ops)) == Run(w, steps).(disk := AfterSteps(Run(w, steps).disk, ops))
    decreases |ops|
  {
    if ops == [] {
      assert steps + Checkpoints(ops) == steps;
    } else {
      hide AfterStep, CanStep;
      var before, last := ops[..|ops| - 1], ops[|ops| - 1];
      PrefixSteps(Run(w, steps).disk, ops);
      RunSave(w, steps, before);
      RunExtends(w, steps + Checkpoints(before), Checkpoint(last));
      assert steps + Checkpoints(before) + [Checkpoint(last)] == steps + Checkpoints(ops);
    }
  }

  lemma PrefixSteps(d: Disk, ops: seq<DiskStep>)
    requires ops != [] && CanRunSteps(d, ops)
    ensures CanRunSteps(d, ops[..|ops| - 1])
    ensures CanStep(AfterSteps(d, ops[..|ops| - 1]), ops[|ops| - 1])
  {
    var before := ops[..|ops| - 1];
    forall i | 0 <= i < |before| ensures CanStep(AfterSteps(d, before[..i]), before[i]) {
      assert before[..i] == ops[..i];
    }
  }
}
