/** Runs of the engine that show what its guarantees need: a lost row and a blocked insert. */
module EngineLimits {
  import opened Wrappers
  import opened Rows
  import opened Circuits
  import opened StateStore
  import opened Source
  import opened Replay
  import opened ReplayLimits
  import opened EngineModel
  import opened EngineCloud
  import opened EngineStuck

  /** An engine started over a replica. */
  function Started(db: Db): World {
    World(0, [], 0, Idle, [], 100, "slot", Fresh(DEFAULT_THRESHOLD, DEFAULT_INTERVAL), db, [],
          FRESH, EMPTY_DISK, 0, 0, 0, 0)
  }

  function Replica(rows: seq<Row>): Db { map[TABLE := Table({"k"}, {"k"}, rows)] }

  lemma ReplicaConforms(rows: seq<Row>)
    requires rows == [] || rows == [ROW1] || rows == [ROW1, ROW2]
    ensures Conforms(Replica(rows), SCHEMA) && Initial(Started(Replica(rows)))
    ensures ImageOf(Replica(rows)) == map[TABLE := RowSet(rows)]
  {
    RowFacts();
  }

  /** Publish commits the whole batch but reports an error, then the engine calls it again. */
  lemma {:induction false} AppliedButFailed(w: World, es: seq<ChangeEvent>, level: Db) returns (steps: seq<Step>)
    requires Initial(w) && 1 <= |es| <= 2 && ApplyAll(es, w.cloud) == Some(level)
    ensures CanRun(w, steps)
    ensures
      var w' := Run(w, steps);
      && w'.phase == Trying(es, 1) && w'.received == es && w'.flushed == 0 && w'.cloud == level
      && w'.chunk == w.chunk && w'.mem == w.mem
  {
    hide ApplyAll, CanRun, Run;
    assert es[..|es|] == es;
    assert CanRun(w, []) && Run(w, []) == w by { NothingRun(w); }
    RunExtends(w, [], Receive(es[0]));
    steps := [] + [Receive(es[0])];
    if |es| == 2 {
      RunExtends(w, steps, Receive(es[1]));
      steps := steps + [Receive(es[1])];
    }
    assert Run(w, steps).buffer == es && Run(w, steps).received == es;
    RunExtends(w, steps, Take);
    steps := steps + [Take];
    RunExtends(w, steps, Grant);
    steps := steps + [Grant];
    RunExtends(w, steps, Attempt(|es|, false, level));
    steps := steps + [Attempt(|es|, false, level)];
  }

  lemma NothingRun(w: World)
    ensures CanRun(w, []) && Run(w, []) == w
  {
  }

  /** The next call of Publish commits the whole batch again and reports success. */
  lemma {:induction false} SentAgain(w: World, steps: seq<Step>, es: seq<ChangeEvent>,
      again: Db) returns (more: seq<Step>)
    requires CanRun(w, steps) && Run(w, steps).phase == Trying(es, 1)
    requires ApplyAll(es, Run(w, steps).cloud) == Some(again)
    ensures CanRun(w, more) && more != [] && more[|more| - 1].Succeed?
    ensures
      var w', before := Run(w, more), Run(w, steps);
      && w'.received == before.received && w'.flushed == before.flushed + |es| && w'.cloud == again
      && w'.mem.eventsProcessed == before.mem.eventsProcessed + |es|
  {
    hide ApplyAll, CanRun, Run;
    assert es[..|es|] == es;
    RunExtends(w, steps, Attempt(|es|, true, again));
    RunExtends(w, steps + [Attempt(|es|, true, again)], Succeed);
    more := steps + [Attempt(|es|, true, again)] + [Succeed];
  }

  /** The replica after the history once, and after the history again. */
  lemma {:induction false} MovedTwice() returns (level: Db, lost: Db)
    ensures
      var db, hist := Replica([ROW1, ROW2]), [DROP2, MOVE1TO2];
      && ApplyAll(hist, db) == Some(level) && ApplyAll(hist, level) == Some(lost)
      && SourceAt(ImageOf(db), hist, 2) == map[TABLE := {ROW2}] && ImageOf(lost) == map[TABLE := {}]
  {
    hide ApplyAll, Conforms, Apply, SourceAt, FireRange, LegalHistory, FullChange;
    var db, hist := Replica([ROW1, ROW2]), [DROP2, MOVE1TO2];
    ReplicaConforms([ROW1, ROW2]);
    MoveIsLegal();
    MovedRowIsLost();
    assert RowSet([ROW1, ROW2]) == {ROW1, ROW2};
    InOrderRebuild(db, hist, 2, SCHEMA);
    assert hist[..2] == hist && hist[0..2] == hist;
    level := ApplyAll(hist, db).value;
    LegalIsFull(START, hist, SCHEMA);
    RangeIsApplied(level, hist, 0, 2, SCHEMA);
    lost := ApplyAll(hist, level).value;
  }

  /** A delete and an update that moves a row into the deleted key: the first call of Publish commits both
      and reports an error, the second commits both again and reports success. The flush succeeds, both
      events count as processed, and the replica has lost the row that the source keeps. */
  lemma {:induction false} SuccessfulFlushLosesRow()
    ensures
      var w, hist := Started(Replica([ROW1, ROW2])), [DROP2, MOVE1TO2];
      exists steps: seq<Step> ::
        && Initial(w) && CanRun(w, steps) && steps != [] && steps[|steps| - 1].Succeed?
        && Run(w, steps).received == hist && Run(w, steps).flushed == 2
        && Run(w, steps).mem.eventsProcessed == w.mem.eventsProcessed + 2
        && SourceAt(ImageOf(w.cloud), hist, 2) == map[TABLE := {ROW2}]
        && ImageOf(Run(w, steps).cloud) == map[TABLE := {}]
  {
    hide CanRun, Run, ApplyAll, Initial, Conforms, SourceAt, Replica, ImageOf;
    var w, hist := Started(Replica([ROW1, ROW2])), [DROP2, MOVE1TO2];
    ReplicaConforms([ROW1, ROW2]);
    var level, lost := MovedTwice();
    var first := AppliedButFailed(w, hist, level);
    var steps := SentAgain(w, first, hist, lost);
  }

  const ADD1 := ChangeEvent(1, 0, "t", InsertOp, map[], ROW1)

  lemma EventFacts()
    ensures FullChange(ADD1, SCHEMA) && TableOf(ADD1, SCHEMA) == TABLE && NewKey(ADD1, SCHEMA) == ROW1
    ensures FullChange(MOVE1TO2, SCHEMA) && TableOf(MOVE1TO2, SCHEMA) == TABLE && Moves(MOVE1TO2, SCHEMA)
    ensures OldKey(MOVE1TO2, SCHEMA) == ROW1 && NewKey(MOVE1TO2, SCHEMA) == ROW2
    ensures KeyedSchema(SCHEMA)
  {
    TableName();
    RowFacts();
    MoveIsLegal();
  }

  /** A batch that Publish has committed and reported as failed, and whose first event the cloud refuses when it
      comes again: over every continuation nothing is flushed and the cloud does not change. */
  lemma {:induction false} AppliedBlocks(w: World, es: seq<ChangeEvent>, level: Db)
    requires Initial(w) && 1 <= |es| <= 2 && ApplyAll(es, w.cloud) == Some(level) && Apply(es[0], level).None?
    ensures
      exists steps: seq<Step> ::
        && CanRun(w, steps) && Run(w, steps).received == es
        && forall more :: CanRun(w, steps + more) ==>
             Run(w, steps + more).flushed == 0 && Run(w, steps + more).cloud == level
  {
    hide CanRun, Run, ApplyAll, Initial, Apply;
    var steps := AppliedButFailed(w, es, level);
    forall more | CanRun(w, steps + more)
      ensures Run(w, steps + more).flushed == 0 && Run(w, steps + more).cloud == level
    {
      assert (steps + more)[..|steps|] == steps;
      HeadRefusedForever(w, steps + more, |steps|);
    }
  }

  /** What a conforming replica refuses: the image refuses it. */
  lemma {:induction false} RefusedByImage(e: ChangeEvent, db: Db)
    requires Conforms(db, SCHEMA) && FullChange(e, SCHEMA) && KeyedSchema(SCHEMA)
    requires Fire(ImageOf(db), e, SCHEMA).None?
    ensures Apply(e, db).None?
  {
    hide Conforms, Fire, Apply, FullChange;
    ApplyIsFire(e, db, SCHEMA);
  }

  /** One insert, committed by a call of Publish that reports an error: whatever comes after it and however the
      run goes on, no event is ever flushed. */
  lemma {:induction false} AppliedInsertBlocks()
    ensures
      var w := Started(Replica([]));
      Initial(w) && exists steps: seq<Step> ::
        && CanRun(w, steps) && Run(w, steps).received == [ADD1]
        && forall more :: CanRun(w, steps + more) ==> Run(w, steps + more).flushed == 0
  {
    hide CanRun, Run, ApplyAll, Initial, Conforms, Apply, Fire, FullChange, SourceAt, FireRange;
    var w := Started(Replica([]));
    ReplicaConforms([]);
    EventFacts();
    assert RowSet([]) == {};
    AddOnce(ImageOf(w.cloud));
    assert [ADD1][0..1] == [ADD1];
    RangeIsApplied(w.cloud, [ADD1], 0, 1, SCHEMA);
    var level := ApplyAll([ADD1], w.cloud).value;
    RefusedByImage(ADD1, level);
    AppliedBlocks(w, [ADD1], level);
  }

  lemma AddOnce(image: Image)
    requires image == map[TABLE := {}]
    ensures FireRange(image, [ADD1], 0, 1, SCHEMA) == Some(map[TABLE := {ROW1}])
    ensures Fire(map[TABLE := {ROW1}], ADD1, SCHEMA).None?
  {
    EventFacts();
    RowFacts();
    var after: Image := map[TABLE := {ROW1}];
    assert {} + {ROW1} == {ROW1};
    assert Commit(image, ADD1) == after;
    assert FireRange(image, [ADD1], 0, 0, SCHEMA) == Some(image);
    assert Fire(image, ADD1, SCHEMA) == Some(after);
    assert ROW1 in after[TABLE];
  }

  /** An update that moves row 1 to key 2 and an insert of row 1 again: accepted by the source, moving only into a
      key not touched before, and so move-safe. */
  lemma {:induction false} MoveThenAdd()
    ensures
      var hist := [MOVE1TO2, ADD1];
      && Accepted(map[TABLE := {ROW1}], hist, SCHEMA) && MovesToFreshKeys(hist, 0, 2, SCHEMA)
      && FireRange(map[TABLE := {ROW1}], hist, 0, 2, SCHEMA) == Some(map[TABLE := {ROW1, ROW2}])
      && Fire(map[TABLE := {ROW1, ROW2}], MOVE1TO2, SCHEMA).None?
  {
    EventFacts();
    RowFacts();
    var hist := [MOVE1TO2, ADD1];
    var s0: Image, s1: Image := map[TABLE := {ROW1}], map[TABLE := {ROW2}];
    assert {ROW1} - {ROW1} + {ROW2} == {ROW2} && {ROW2} + {ROW1} == {ROW1, ROW2};
    var s2: Image := map[TABLE := {ROW1, ROW2}];
    assert Commit(s0, MOVE1TO2) == s1 && Commit(s1, ADD1) == s2;
    assert SourceAt(s0, hist, 0) == s0 && SourceAt(s0, hist, 1) == s1;
    assert Fire(s0, MOVE1TO2, SCHEMA) == Some(s1) && Fire(s1, ADD1, SCHEMA) == Some(s2);
    assert FireRange(s0, hist, 0, 0, SCHEMA) == Some(s0) && FireRange(s0, hist, 0, 1, SCHEMA) == Some(s1);
    assert ROW2 in s2[TABLE];
  }

  /** Keeping keys matters for what is refused: that history, committed once and reported as failed, is refused at
      its update, and blocks replication for good although no insert is refused before it. */
  lemma {:induction false} AppliedMoveBlocks()
    ensures
      var w := Started(Replica([ROW1]));
      Initial(w) && exists steps: seq<Step> ::
        && CanRun(w, steps) && Run(w, steps).received == [MOVE1TO2, ADD1]
        && forall more :: CanRun(w, steps + more) ==> Run(w, steps + more).flushed == 0
  {
    hide CanRun, Run, ApplyAll, Initial, Conforms, Apply, Fire, FullChange, SourceAt, FireRange, Accepted;
    var w, hist := Started(Replica([ROW1])), [MOVE1TO2, ADD1];
    ReplicaConforms([ROW1]);
    EventFacts();
    MoveThenAdd();
    assert RowSet([ROW1]) == {ROW1} && hist[0..2] == hist;
    RangeIsApplied(w.cloud, hist, 0, 2, SCHEMA);
    var level := ApplyAll(hist, w.cloud).value;
    RefusedByImage(MOVE1TO2, level);
    AppliedBlocks(w, hist, level);
  }
}
