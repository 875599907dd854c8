/** Re-sending a batch after partial commits: when the replica still ends where the source is. */
module Replay {
  import opened Wrappers
  import opened Rows
  import opened Source

  /** The source after the first `t` changes of its history. */
  function SourceAt(start: Image, hist: seq<ChangeEvent>, t: nat): Image
    requires t <= |hist|
  {
    if t == 0 then start else Commit(SourceAt(start, hist, t - 1), hist[t - 1])
  }

  /** The source accepted each change in turn. */
  ghost predicate LegalHistory(start: Image, hist: seq<ChangeEvent>, schema: Schema) {
    KeyedImage(start, schema)
    && forall i :: 0 <= i < |hist| ==> Legal(SourceAt(start, hist, i), hist[i], schema)
  }

  lemma {:induction false} SourceKeyed(start: Image, hist: seq<ChangeEvent>, t: nat, schema: Schema)
    requires t <= |hist| && LegalHistory(start, hist, schema)
    ensures KeyedImage(SourceAt(start, hist, t), schema)
  {
    if t > 0 {
      SourceKeyed(start, hist, t - 1, schema);
      FireKeepsKeys(SourceAt(start, hist, t - 1), hist[t - 1], schema);
    }
  }

  /** Later changes do not alter earlier source states. */
  lemma {:induction false} SourceAtExtends(start: Image, hist: seq<ChangeEvent>, more: seq<ChangeEvent>, t: nat)
    requires t <= |hist|
    ensures SourceAt(start, hist, t) == SourceAt(start, hist + more, t)
  {
    if t > 0 { SourceAtExtends(start, hist, more, t - 1); }
  }

  // ----- in order, once -----

  /** A replica equal to the source follows a change the source accepts. */
  lemma {:induction false} ApplyLegal(e: ChangeEvent, db: Db, schema: Schema)
    requires KeyedSchema(schema) && Conforms(db, schema)
    requires Legal(ImageOf(db), e, schema) && KeyedImage(ImageOf(db), schema)
    ensures Apply(e, db).Some? && Conforms(Apply(e, db).value, schema)
    ensures ImageOf(Apply(e, db).value) == Commit(ImageOf(db), e)
  {
    hide Conforms, KeyedImage, Fire, Commit, Apply, KeyedSchema, ImageOf, KeyTaken;
    FireKeepsKeys(ImageOf(db), e, schema);
    ApplyIsFire(e, db, schema);
  }

  /** A replica that starts equal to the source and applies the history once, in order,
      accepts every change and ends equal to the source. */
  lemma {:induction false} InOrderRebuild(db: Db, hist: seq<ChangeEvent>, t: nat, schema: Schema)
    requires KeyedSchema(schema) && Conforms(db, schema)
    requires t <= |hist| && LegalHistory(ImageOf(db), hist, schema)
    ensures ApplyAll(hist[..t], db).Some?
    ensures Conforms(ApplyAll(hist[..t], db).value, schema)
    ensures ImageOf(ApplyAll(hist[..t], db).value) == SourceAt(ImageOf(db), hist, t)
    decreases t
  {
    hide Conforms, Legal, KeyedImage, Fire, Commit, Apply, KeyedSchema, ImageOf, FullChange;
    if t > 0 {
      InOrderRebuild(db, hist, t - 1, schema);
      assert hist[..t][..t - 1] == hist[..t - 1];
      var db' := ApplyAll(hist[..t - 1], db).value;
      assert Legal(ImageOf(db'), hist[t - 1], schema);
      SourceKeyed(ImageOf(db), hist, t - 1, schema);
      ApplyLegal(hist[t - 1], db', schema);
    }
  }

  // ----- one key at a time -----

  /** The rows of an image that have a given key: at most one. */
  ghost function At(image: Image, name: seq<string>, k: Row, schema: Schema): set<Row> {
    if name in image && name in schema then set r | r in image[name] && KeyOf(schema[name].key, r) == k else {}
  }

  /** An update that gives its row another key. */
  predicate Moves(e: ChangeEvent, schema: Schema) {
    && e.op.UpdateOp? && FullChange(e, schema)
    && OldKey(e, schema) != NewKey(e, schema)
  }

  function TableOf(e: ChangeEvent, schema: Schema): seq<string>
    requires FullChange(e, schema)
  {
    NameParts(e.table).value
  }

  /** The key of the row the change replaces or removes. */
  function OldKey(e: ChangeEvent, schema: Schema): Row
    requires FullChange(e, schema)
  {
    KeyOf(schema[TableOf(e, schema)].key, e.oldRow)
  }

  /** The key of the row the change stores. */
  function NewKey(e: ChangeEvent, schema: Schema): Row
    requires FullChange(e, schema)
  {
    KeyOf(schema[TableOf(e, schema)].key, e.newRow)
  }

  lemma EqualByKeys(a: Image, b: Image, schema: Schema)
    requires a.Keys == b.Keys == schema.Keys
    requires forall name, k :: name in schema ==> At(a, name, k, schema) == At(b, name, k, schema)
    ensures a == b
  {
    forall name | name in schema ensures a[name] == b[name] {
      forall r ensures r in a[name] <==> r in b[name] {
        var k := KeyOf(schema[name].key, r);
        assert r in At(a, name, k, schema) <==> r in a[name];
        assert r in At(b, name, k, schema) <==> r in b[name];
      }
    }
  }

  // ----- one change on an image in any state -----

  /** The change has an effect on a key of a table that holds `rows` there. */
  predicate TakesEffectAt(e: ChangeEvent, rows: set<Row>, name: seq<string>, k: Row, schema: Schema)
    requires FullChange(e, schema)
  {
    && name == TableOf(e, schema)
    && match e.op
       case InsertOp => k == NewKey(e, schema) && rows == {}
       case UpdateOp => (k == OldKey(e, schema) && e.oldRow in rows) || (k == NewKey(e, schema) && rows == {})
       case DeleteOp => k == OldKey(e, schema) && e.oldRow in rows
       case OtherOp(_) => false
  }

  lemma SingleAt(image: Image, name: seq<string>, r: Row, schema: Schema)
    requires KeyedImage(image, schema) && name in schema && r in image[name]
    ensures At(image, name, KeyOf(schema[name].key, r), schema) == {r}
  {
  }

  /** What a change that is not refused leaves at a key of its table. */
  lemma InsertAt(image: Image, e: ChangeEvent, k: Row, schema: Schema)
    requires KeyedImage(image, schema) && FullChange(e, schema) && e.op.InsertOp?
    requires Fire(image, e, schema).Some?
    ensures
      var name, image' := TableOf(e, schema), Fire(image, e, schema).value;
      At(image', name, k, schema) == if k == NewKey(e, schema) then {e.newRow} else At(image, name, k, schema)
    ensures k == NewKey(e, schema) ==> At(image, TableOf(e, schema), k, schema) == {}
  {
    if k == NewKey(e, schema) {
      FireKeepsKeys(image, e, schema);
      SingleAt(Fire(image, e, schema).value, TableOf(e, schema), e.newRow, schema);
    }
  }

  lemma DeleteAt(image: Image, e: ChangeEvent, k: Row, schema: Schema)
    requires KeyedImage(image, schema) && FullChange(e, schema) && e.op.DeleteOp?
    ensures
      var name, image' := TableOf(e, schema), Commit(image, e);
      At(image', name, k, schema)
      == if k == OldKey(e, schema) && e.oldRow in image[name] then {} else At(image, name, k, schema)
  {
    var name := TableOf(e, schema);
    if e.oldRow in image[name] {
      SingleAt(image, name, e.oldRow, schema);
    } else {
      assert image[name] - {e.oldRow} == image[name];
    }
  }

  lemma UpdateAt(image: Image, e: ChangeEvent, k: Row, schema: Schema)
    requires KeyedImage(image, schema) && FullChange(e, schema) && e.op.UpdateOp?
    requires Fire(image, e, schema).Some? && e.oldRow in image[TableOf(e, schema)]
    ensures
      var name, image' := TableOf(e, schema), Fire(image, e, schema).value;
      At(image', name, k, schema)
      == if k == NewKey(e, schema) then {e.newRow}
         else if k == OldKey(e, schema) then {}
         else At(image, name, k, schema)
    ensures Moves(e, schema) && k == NewKey(e, schema) ==> At(image, TableOf(e, schema), k, schema) == {}
  {
    var name, image' := TableOf(e, schema), Fire(image, e, schema).value;
    FireKeepsKeys(image, e, schema);
    SingleAt(image, name, e.oldRow, schema);
    SingleAt(image', name, e.newRow, schema);
  }

  lemma OtherTableAt(image: Image, e: ChangeEvent, name: seq<string>, k: Row, schema: Schema)
    requires FullChange(e, schema) && name != TableOf(e, schema)
    requires Fire(image, e, schema).Some?
    ensures At(Fire(image, e, schema).value, name, k, schema) == At(image, name, k, schema)
  {
  }

  /** A change that is not refused alters a key only by taking effect there. */
  lemma {:induction false} EffectMeans(image: Image, e: ChangeEvent, name: seq<string>, k: Row, schema: Schema)
    requires KeyedImage(image, schema) && FullChange(e, schema) && Fire(image, e, schema).Some? && name in schema
    requires At(Fire(image, e, schema).value, name, k, schema) != At(image, name, k, schema)
    ensures TakesEffectAt(e, At(image, name, k, schema), name, k, schema)
  {
    hide KeyedImage, KeyTaken;
    if name != TableOf(e, schema) {
      OtherTableAt(image, e, name, k, schema);
    } else {
      match e.op
      case InsertOp => InsertAt(image, e, k, schema);
      case UpdateOp =>
        if e.oldRow in image[name] { UpdateAt(image, e, k, schema); }
      case DeleteOp => DeleteAt(image, e, k, schema);
      case OtherOp(_) =>
    }
  }

  /** One change of the source on an image in any state: each key keeps its rows or gets the source's;
      where it had the source's rows before, it has them after, unless a moving row does not arrive. */
  lemma {:induction false} FireAt(image: Image, source: Image, e: ChangeEvent, name: seq<string>, k: Row,
      schema: Schema)
    requires KeyedImage(image, schema) && KeyedImage(source, schema) && name in schema
    requires Legal(source, e, schema) && Fire(image, e, schema).Some?
    ensures
      var image', source' := Fire(image, e, schema).value, Commit(source, e);
      && (|| At(image', name, k, schema) == At(image, name, k, schema)
          || At(image', name, k, schema) == At(source', name, k, schema))
      && (At(image, name, k, schema) == At(source, name, k, schema)
          && (Moves(e, schema) && name == TableOf(e, schema) && k == NewKey(e, schema) ==> e.oldRow in image[name])
          ==> At(image', name, k, schema) == At(source', name, k, schema))
  {
    hide KeyedImage, KeyTaken, OneRowPerKey;
    FireKeepsKeys(source, e, schema);
    if name != TableOf(e, schema) {
      OtherTableAt(image, e, name, k, schema);
      OtherTableAt(source, e, name, k, schema);
    } else {
      match e.op
      case InsertOp =>
        InsertAt(image, e, k, schema);
        InsertAt(source, e, k, schema);
      case UpdateOp => UpdateEverywhere(image, source, e, k, schema);
      case DeleteOp =>
        DeleteAt(image, e, k, schema);
        DeleteAt(source, e, k, schema);
        if k == OldKey(e, schema) { OldRowPresent(image, source, e, k, schema); }
      case OtherOp(_) =>
    }
  }

  /** Where the image is level at the key of the row to be replaced, it has that row. */
  lemma OldRowPresent(image: Image, source: Image, e: ChangeEvent, k: Row, schema: Schema)
    requires KeyedImage(image, schema) && KeyedImage(source, schema)
    requires Legal(source, e, schema) && !e.op.InsertOp?
    requires k == OldKey(e, schema)
    ensures At(image, TableOf(e, schema), k, schema) == At(source, TableOf(e, schema), k, schema) ==>
      e.oldRow in image[TableOf(e, schema)]
  {
    SingleAt(source, TableOf(e, schema), e.oldRow, schema);
    assert e.oldRow in At(source, TableOf(e, schema), k, schema);
  }

  lemma {:induction false} UpdateEverywhere(image: Image, source: Image, e: ChangeEvent, k: Row, schema: Schema)
    requires KeyedImage(image, schema) && KeyedImage(source, schema)
    requires Legal(source, e, schema) && Fire(image, e, schema).Some? && e.op.UpdateOp?
    ensures
      var name, image', source' := TableOf(e, schema), Fire(image, e, schema).value, Commit(source, e);
      && (|| At(image', name, k, schema) == At(image, name, k, schema)
          || At(image', name, k, schema) == At(source', name, k, schema))
      && (At(image, name, k, schema) == At(source, name, k, schema)
          && (Moves(e, schema) && k == NewKey(e, schema) ==> e.oldRow in image[name])
          ==> At(image', name, k, schema) == At(source', name, k, schema))
  {
    hide KeyedImage, KeyTaken, OneRowPerKey, At;
    FireKeepsKeys(source, e, schema);
    UpdateAt(source, e, k, schema);
    if e.oldRow in image[TableOf(e, schema)] {
      UpdateAt(image, e, k, schema);
    } else if k == OldKey(e, schema) {
      OldRowPresent(image, source, e, k, schema);
    }
  }

  // ----- runs of changes -----

  /** The image after the changes `p` to `m` of the history, when none of them is refused. */
  function FireRange(image: Image, hist: seq<ChangeEvent>, p: nat, m: nat, schema: Schema): Option<Image>
    requires p <= m <= |hist|
    decreases m
  {
    if p == m then Some(image)
    else
      match FireRange(image, hist, p, m - 1, schema)
      case None => None
      case Some(mid) => Fire(mid, hist[m - 1], schema)
  }

  /** A conforming replica runs a batch as its image does. */
  lemma {:induction false} RangeIsApplied(db: Db, hist: seq<ChangeEvent>, p: nat, m: nat, schema: Schema)
    requires p <= m <= |hist| && KeyedSchema(schema) && Conforms(db, schema)
    requires forall i :: 0 <= i < |hist| ==> FullChange(hist[i], schema)
    ensures
      match FireRange(ImageOf(db), hist, p, m, schema)
      case None => ApplyAll(hist[p..m], db) == None
      case Some(image) => ApplyAll(hist[p..m], db).Some? && Conforms(ApplyAll(hist[p..m], db).value, schema)
                          && ImageOf(ApplyAll(hist[p..m], db).value) == image
    decreases m
  {
    hide Conforms, Fire, Apply, FullChange, KeyedSchema, ImageOf;
    if p < m {
      RangeIsApplied(db, hist, p, m - 1, schema);
      assert hist[p..m][..m - p - 1] == hist[p..m - 1];
      assert hist[p..m][m - p - 1] == hist[m - 1];
      if ApplyAll(hist[p..m - 1], db).Some? {
        ApplyIsFire(hist[m - 1], ApplyAll(hist[p..m - 1], db).value, schema);
      }
    } else {
      assert hist[p..m] == [];
    }
  }

  lemma {:induction false} RunKeeps(image: Image, hist: seq<ChangeEvent>, p: nat, m: nat, schema: Schema)
    requires p <= m <= |hist| && KeyedImage(image, schema)
    requires FireRange(image, hist, p, m, schema).Some?
    ensures KeyedImage(FireRange(image, hist, p, m, schema).value, schema)
    decreases m
  {
    hide KeyedImage, Fire, FullChange;
    if p < m {
      RunKeeps(image, hist, p, m - 1, schema);
      FireKeepsKeys(FireRange(image, hist, p, m - 1, schema).value, hist[m - 1], schema);
    }
  }

  /** A history the source accepted, on keyed tables. */
  ghost predicate Accepted(start: Image, hist: seq<ChangeEvent>, schema: Schema) {
    KeyedSchema(schema) && LegalHistory(start, hist, schema)
  }

  lemma AcceptedAt(start: Image, hist: seq<ChangeEvent>, i: nat, schema: Schema)
    requires Accepted(start, hist, schema) && i < |hist|
    ensures KeyedImage(SourceAt(start, hist, i), schema)
    ensures Legal(SourceAt(start, hist, i), hist[i], schema) && FullChange(hist[i], schema)
  {
    SourceKeyed(start, hist, i, schema);
  }

  // ----- replay: every key at some point of its own history -----

  /** A point of the history for each key of each table. */
  type Points = (seq<string>, Row) -> nat

  /** Each key has the rows the source had there at its point, between `lo` and `hi`. */
  ghost predicate Placed(image: Image, at: Points, start: Image, hist: seq<ChangeEvent>,
                         lo: nat, hi: nat, schema: Schema)
    requires hi <= |hist|
  {
    forall name, k :: name in schema ==>
      lo <= at(name, k) <= hi && At(image, name, k, schema) == At(SourceAt(start, hist, at(name, k)), name, k, schema)
  }

  /** No row is past its move away from a key while the key it moves to is still before that. */
  ghost predicate Coupled(at: Points, hist: seq<ChangeEvent>, lo: nat, hi: nat, schema: Schema)
    requires hi <= |hist|
  {
    forall i :: lo <= i < hi && Moves(hist[i], schema) ==>
      var name := TableOf(hist[i], schema);
      at(name, OldKey(hist[i], schema)) <= i || at(name, NewKey(hist[i], schema)) > i
  }

  /** Every key of the image is at some point of its own history between `lo` and `hi`. */
  ghost predicate Lagging(image: Image, start: Image, hist: seq<ChangeEvent>, lo: nat, hi: nat, schema: Schema) {
    && lo <= hi <= |hist| && KeyedImage(image, schema)
    && exists at: Points :: Placed(image, at, start, hist, lo, hi, schema) && Coupled(at, hist, lo, hi, schema)
  }

  /** In the changes from `p` to `q`: when a row moves into a key, no earlier change would take effect there
      on rows which that key has after the move. So it is when no row moves, or only into keys that no
      earlier change of the stretch touches. */
  ghost predicate MoveSafe(start: Image, hist: seq<ChangeEvent>, p: nat, q: nat, schema: Schema) {
    forall j, i, t :: p <= j < i < t <= q <= |hist| && Moves(hist[i], schema) && FullChange(hist[j], schema) ==>
      var name, k := TableOf(hist[i], schema), NewKey(hist[i], schema);
      !TakesEffectAt(hist[j], At(SourceAt(start, hist, t), name, k, schema), name, k, schema)
  }

  /** Moving only into keys that the stretch has not touched before, which a look at the events decides. */
  predicate MovesToFreshKeys(hist: seq<ChangeEvent>, p: nat, q: nat, schema: Schema) {
    forall j, i :: (0 <= p <= j < i < q <= |hist| && Moves(hist[i], schema) && FullChange(hist[j], schema)
                    && TableOf(hist[j], schema) == TableOf(hist[i], schema)) ==>
      && (!hist[j].op.InsertOp? ==> OldKey(hist[j], schema) != NewKey(hist[i], schema))
      && (!hist[j].op.DeleteOp? ==> NewKey(hist[j], schema) != NewKey(hist[i], schema))
  }

  lemma {:induction false} FreshKeysAreSafe(start: Image, hist: seq<ChangeEvent>, p: nat, q: nat, schema: Schema)
    requires MovesToFreshKeys(hist, p, q, schema)
    ensures MoveSafe(start, hist, p, q, schema)
  {
    hide FullChange, At, SourceAt;
  }

  lemma {:induction false} MoveSafePart(start: Image, hist: seq<ChangeEvent>, p: nat, q: nat, p': nat, q': nat,
      schema: Schema)
    requires MoveSafe(start, hist, p, q, schema) && p <= p' && q' <= q <= |hist|
    ensures MoveSafe(start, hist, p', q', schema)
  {
    hide FullChange, At, SourceAt, Moves, TakesEffectAt;
  }

  /** Being level with the source is lagging by nothing. */
  lemma {:induction false} LevelLags(start: Image, hist: seq<ChangeEvent>, p: nat, schema: Schema)
    requires p <= |hist| && LegalHistory(start, hist, schema)
    ensures Lagging(SourceAt(start, hist, p), start, hist, p, p, schema)
  {
    hide KeyedImage, At, Legal, SourceAt;
    SourceKeyed(start, hist, p, schema);
    var at: Points := (name, k) => p;
    assert Placed(SourceAt(start, hist, p), at, start, hist, p, p, schema);
    assert Coupled(at, hist, p, p, schema);
  }

  /** Lagging by nothing is being level with the source. */
  lemma {:induction false} LaggingByNothing(image: Image, start: Image, hist: seq<ChangeEvent>, p: nat, schema: Schema)
    requires Lagging(image, start, hist, p, p, schema) && LegalHistory(start, hist, schema)
    ensures image == SourceAt(start, hist, p)
  {
    hide At, Legal, SourceAt;
    SourceKeyed(start, hist, p, schema);
    var at: Points :| Placed(image, at, start, hist, p, p, schema) && Coupled(at, hist, p, p, schema);
    forall name, k | name in schema
      ensures At(image, name, k, schema) == At(SourceAt(start, hist, p), name, k, schema)
    {
      assert at(name, k) == p;
    }
    EqualByKeys(image, SourceAt(start, hist, p), schema);
  }

  lemma MovesInSchema(e: ChangeEvent, schema: Schema)
    requires Moves(e, schema)
    ensures FullChange(e, schema) && TableOf(e, schema) in schema
  {
  }

  lemma {:induction false} LaggingWiden(image: Image, start: Image, hist: seq<ChangeEvent>, lo: nat, hi: nat,
      hi': nat, schema: Schema)
    requires Lagging(image, start, hist, lo, hi, schema) && hi <= hi' <= |hist|
    ensures Lagging(image, start, hist, lo, hi', schema)
  {
    hide KeyedImage, At, SourceAt, Moves;
    var at: Points :| Placed(image, at, start, hist, lo, hi, schema) && Coupled(at, hist, lo, hi, schema);
    assert Placed(image, at, start, hist, lo, hi', schema);
    forall i | lo <= i < hi' && Moves(hist[i], schema)
      ensures FullChange(hist[i], schema)
      ensures
        var name := TableOf(hist[i], schema);
        at(name, OldKey(hist[i], schema)) <= i || at(name, NewKey(hist[i], schema)) > i
    {
      MovesInSchema(hist[i], schema);
      assert lo <= at(TableOf(hist[i], schema), NewKey(hist[i], schema));
      assert at(TableOf(hist[i], schema), OldKey(hist[i], schema)) <= hi;
    }
  }

  lemma {:induction false} LaggingLower(image: Image, start: Image, hist: seq<ChangeEvent>, lo: nat, hi: nat,
      lo': nat, schema: Schema)
    requires Lagging(image, start, hist, lo, hi, schema) && lo' <= lo
    ensures Lagging(image, start, hist, lo', hi, schema)
  {
    hide KeyedImage, At, SourceAt, Moves;
    var at: Points :| Placed(image, at, start, hist, lo, hi, schema) && Coupled(at, hist, lo, hi, schema);
    assert Placed(image, at, start, hist, lo', hi, schema);
    forall i | lo' <= i < hi && Moves(hist[i], schema)
      ensures FullChange(hist[i], schema)
      ensures
        var name := TableOf(hist[i], schema);
        at(name, OldKey(hist[i], schema)) <= i || at(name, NewKey(hist[i], schema)) > i
    {
      MovesInSchema(hist[i], schema);
      assert lo <= at(TableOf(hist[i], schema), NewKey(hist[i], schema));
      assert at(TableOf(hist[i], schema), OldKey(hist[i], schema)) <= hi;
    }
  }

  /** Where the keys are after change `j` of a replay: those it did not bring level stay where they were. */
  ghost function Advanced(at: Points, image: Image, image': Image, j: nat, schema: Schema): Points {
    (name, k) =>
      if at(name, k) > j && At(image', name, k, schema) == At(image, name, k, schema) then at(name, k) else j + 1
  }

  lemma {:induction false} AdvancePlaced(image: Image, at: Points, start: Image, hist: seq<ChangeEvent>, j: nat,
      hi: nat,
                      name: seq<string>, k: Row, schema: Schema)
    requires j < hi <= |hist| && Accepted(start, hist, schema) && KeyedImage(image, schema) && name in schema
    requires Placed(image, at, start, hist, j, hi, schema) && Coupled(at, hist, j, hi, schema)
    requires Fire(image, hist[j], schema).Some?
    ensures
      var image' := Fire(image, hist[j], schema).value;
      var t := Advanced(at, image, image', j, schema)(name, k);
      && j + 1 <= t <= hi
      && At(image', name, k, schema) == At(SourceAt(start, hist, t), name, k, schema)
  {
    hide KeyedImage, Fire, FullChange, Legal, At, Commit, Accepted;
    AcceptedAt(start, hist, j, schema);
    var e, source := hist[j], SourceAt(start, hist, j);
    FireAt(image, source, e, name, k, schema);
    assert SourceAt(start, hist, j + 1) == Commit(source, e);
    if at(name, k) == j && Moves(e, schema) && name == TableOf(e, schema) && k == NewKey(e, schema) {
      assert at(name, OldKey(e, schema)) == j;
      assert !e.op.InsertOp?;
      OldRowPresent(image, source, e, OldKey(e, schema), schema);
    }
  }

  lemma {:induction false} AdvanceCoupled(image: Image, at: Points, start: Image, hist: seq<ChangeEvent>, j: nat,
      hi: nat,
                       i: nat, schema: Schema)
    requires j < i < hi <= |hist| && Accepted(start, hist, schema) && KeyedImage(image, schema)
    requires Placed(image, at, start, hist, j, hi, schema) && Coupled(at, hist, j, hi, schema)
    requires MoveSafe(start, hist, j, hi, schema)
    requires Fire(image, hist[j], schema).Some? && Moves(hist[i], schema)
    ensures
      var image', name := Fire(image, hist[j], schema).value, TableOf(hist[i], schema);
      var at' := Advanced(at, image, image', j, schema);
      at'(name, OldKey(hist[i], schema)) <= i || at'(name, NewKey(hist[i], schema)) > i
  {
    hide KeyedImage, Fire, Legal, At, Commit, Accepted, SourceAt, TakesEffectAt;
    AcceptedAt(start, hist, j, schema);
    var image', name := Fire(image, hist[j], schema).value, TableOf(hist[i], schema);
    var b := NewKey(hist[i], schema);
    if at(name, b) > i && At(image', name, b, schema) != At(image, name, b, schema) {
      EffectMeans(image, hist[j], name, b, schema);
    }
  }

  /** One change of a replay that is not refused moves the points of the keys on, and keeps them coupled. */
  lemma {:induction false} AdvancePoints(image: Image, at: Points, start: Image, hist: seq<ChangeEvent>, j: nat,
      hi: nat,
                                         schema: Schema)
    requires j < hi <= |hist| && Accepted(start, hist, schema) && KeyedImage(image, schema)
    requires Placed(image, at, start, hist, j, hi, schema) && Coupled(at, hist, j, hi, schema)
    requires MoveSafe(start, hist, j, hi, schema)
    requires Fire(image, hist[j], schema).Some?
    ensures
      var image' := Fire(image, hist[j], schema).value;
      var at' := Advanced(at, image, image', j, schema);
      && KeyedImage(image', schema)
      && Placed(image', at', start, hist, j + 1, hi, schema) && Coupled(at', hist, j + 1, hi, schema)
  {
    hide KeyedImage, Fire, Legal, At, Accepted, SourceAt, Moves, FullChange, MoveSafe;
    var image' := Fire(image, hist[j], schema).value;
    FireKeepsKeys(image, hist[j], schema);
    var at' := Advanced(at, image, image', j, schema);
    forall name, k | name in schema
      ensures j + 1 <= at'(name, k) <= hi
        && At(image', name, k, schema) == At(SourceAt(start, hist, at'(name, k)), name, k, schema)
    {
      AdvancePlaced(image, at, start, hist, j, hi, name, k, schema);
    }
    forall i | j + 1 <= i < hi && Moves(hist[i], schema)
      ensures FullChange(hist[i], schema)
      ensures
        var name := TableOf(hist[i], schema);
        at'(name, OldKey(hist[i], schema)) <= i || at'(name, NewKey(hist[i], schema)) > i
    {
      MovesInSchema(hist[i], schema);
      AdvanceCoupled(image, at, start, hist, j, hi, i, schema);
    }
  }

  /** One change of a replay that is not refused: no key is left behind it. */
  lemma {:induction false} Advance(image: Image, start: Image, hist: seq<ChangeEvent>, j: nat, hi: nat, schema: Schema)
    requires j < hi && Accepted(start, hist, schema) && Lagging(image, start, hist, j, hi, schema)
    requires MoveSafe(start, hist, j, hi, schema)
    requires Fire(image, hist[j], schema).Some?
    ensures Lagging(Fire(image, hist[j], schema).value, start, hist, j + 1, hi, schema)
  {
    hide KeyedImage, Fire, Accepted, Placed, Coupled, MoveSafe;
    var at: Points :| Placed(image, at, start, hist, j, hi, schema) && Coupled(at, hist, j, hi, schema);
    AdvancePoints(image, at, start, hist, j, hi, schema);
  }

  /** A replay that runs up to `m` without an error leaves no key behind `m`. */
  lemma {:induction false} ReplayAdvances(start: Image, image: Image, hist: seq<ChangeEvent>, p: nat, m: nat, q: nat,
                                          schema: Schema)
    requires p <= m <= q && Accepted(start, hist, schema) && Lagging(image, start, hist, p, q, schema)
    requires MoveSafe(start, hist, p, q, schema)
    requires FireRange(image, hist, p, m, schema).Some?
    ensures Lagging(FireRange(image, hist, p, m, schema).value, start, hist, m, q, schema)
    decreases m
  {
    hide Lagging, Accepted, Fire, MoveSafe;
    LaggingBounds(image, start, hist, p, q, schema);
    if p < m {
      ReplayAdvances(start, image, hist, p, m - 1, q, schema);
      MoveSafePart(start, hist, p, q, m - 1, q, schema);
      Advance(FireRange(image, hist, p, m - 1, schema).value, start, hist, m - 1, q, schema);
    }
  }

  lemma LaggingBounds(image: Image, start: Image, hist: seq<ChangeEvent>, lo: nat, hi: nat, schema: Schema)
    requires Lagging(image, start, hist, lo, hi, schema)
    ensures lo <= hi <= |hist| && KeyedImage(image, schema)
  {
  }

  /** A replay of any part of the batch, whatever was committed before, leaves every key within its history. */
  lemma {:induction false} PartialReplay(start: Image, image: Image, hist: seq<ChangeEvent>, p: nat, m: nat, q: nat,
      schema: Schema)
    requires p <= m <= q && Accepted(start, hist, schema) && Lagging(image, start, hist, p, q, schema)
    requires MoveSafe(start, hist, p, q, schema)
    requires FireRange(image, hist, p, m, schema).Some?
    ensures Lagging(FireRange(image, hist, p, m, schema).value, start, hist, p, q, schema)
  {
    hide Lagging, Accepted, FireRange, MoveSafe;
    LaggingBounds(image, start, hist, p, q, schema);
    ReplayAdvances(start, image, hist, p, m, q, schema);
    LaggingLower(FireRange(image, hist, p, m, schema).value, start, hist, m, q, p, schema);
  }

  /** A replay of the whole batch that meets no error ends equal to the source, whatever was
      committed before. */
  lemma {:induction false} FullReplay(start: Image, image: Image, hist: seq<ChangeEvent>, p: nat, q: nat,
      schema: Schema)
    requires p <= q && Accepted(start, hist, schema) && Lagging(image, start, hist, p, q, schema)
    requires MoveSafe(start, hist, p, q, schema)
    requires FireRange(image, hist, p, q, schema).Some?
    ensures FireRange(image, hist, p, q, schema).value == SourceAt(start, hist, q)
  {
    hide Lagging, LegalHistory, FireRange, MoveSafe, KeyedSchema;
    LaggingBounds(image, start, hist, p, q, schema);
    ReplayAdvances(start, image, hist, p, q, q, schema);
    LaggingByNothing(FireRange(image, hist, p, q, schema).value, start, hist, q, schema);
  }
}
