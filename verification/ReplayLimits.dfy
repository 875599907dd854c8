/** Why replay needs move-safe batches: a run of two changes that loses a row. */
module ReplayLimits {
  import opened Wrappers
  import opened Text
  import opened Rows
  import opened Source
  import opened Replay

  const TABLE: seq<string> := ["t"]
  const ROW1: Row := map["k" := Str("1")]
  const ROW2: Row := map["k" := Str("2")]
  const SCHEMA: Schema := map[TABLE := TableSchema({"k"}, {"k"})]
  const START: Image := map[TABLE := {ROW1, ROW2}]
  const DROP2 := ChangeEvent(1, 0, "t", DeleteOp, ROW2, map[])
  const MOVE1TO2 := ChangeEvent(1, 0, "t", UpdateOp, ROW1, ROW2)

  lemma TableName()
    ensures NameParts("t") == Some(TABLE)
  {
    SplitPlain("t");
  }

  lemma RowFacts()
    ensures ROW1 != ROW2
    ensures KeyOf({"k"}, ROW1) == ROW1 && KeyOf({"k"}, ROW2) == ROW2
    ensures FullRow(ROW1, SCHEMA[TABLE]) && FullRow(ROW2, SCHEMA[TABLE])
  {
    assert ROW1["k"] != ROW2["k"];
  }

  /** A delete of row 2 followed by an update that moves row 1 to key 2 is a legal history. */
  lemma MoveIsLegal()
    ensures KeyedSchema(SCHEMA) && LegalHistory(START, [DROP2, MOVE1TO2], SCHEMA)
    ensures SourceAt(START, [DROP2, MOVE1TO2], 2) == map[TABLE := {ROW2}]
  {
    TableName();
    RowFacts();
    var hist := [DROP2, MOVE1TO2];
    assert {ROW1, ROW2} - {ROW2} == {ROW1};
    assert {ROW1} - {ROW1} + {ROW2} == {ROW2};
    assert SourceAt(START, hist, 0) == START;
    assert SourceAt(START, hist, 1) == map[TABLE := {ROW1}];
    assert SourceAt(START, hist, 2) == map[TABLE := {ROW2}];
  }

  /** It is not move-safe: the delete would take row 2 away again after the move has stored it. */
  lemma MoveIsUnsafe()
    ensures !MoveSafe(START, [DROP2, MOVE1TO2], 0, 2, SCHEMA)
  {
    TableName();
    RowFacts();
    MoveIsLegal();
    var hist := [DROP2, MOVE1TO2];
    assert Moves(hist[1], SCHEMA) && FullChange(hist[0], SCHEMA) && NewKey(hist[1], SCHEMA) == ROW2;
    assert ROW2 in At(SourceAt(START, hist, 2), TABLE, ROW2, SCHEMA);
    assert TakesEffectAt(hist[0], At(SourceAt(START, hist, 2), TABLE, ROW2, SCHEMA), TABLE, ROW2, SCHEMA);
  }

  /** Sending that history again to a replica that already has it meets no error and loses row 2:
      the source keeps it, the replica ends empty. */
  lemma MovedRowIsLost()
    ensures
      var hist := [DROP2, MOVE1TO2];
      var level := SourceAt(START, hist, 2);
      FireRange(level, hist, 0, 2, SCHEMA) == Some(map[TABLE := {}]) && level[TABLE] == {ROW2}
  {
    TableName();
    RowFacts();
    MoveIsLegal();
    var hist := [DROP2, MOVE1TO2];
    var level := SourceAt(START, hist, 2);
    var none: Image := map[TABLE := {}];
    assert {ROW2} - {ROW2} == {};
    assert Commit(level, DROP2) == none;
    assert FullChange(DROP2, SCHEMA) && FullChange(MOVE1TO2, SCHEMA);
    assert FireRange(level, hist, 0, 0, SCHEMA) == Some(level);
    assert FireRange(level, hist, 0, 1, SCHEMA) == Some(none);
    assert Fire(none, MOVE1TO2, SCHEMA) == Some(none);
  }
}
