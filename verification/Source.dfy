/** The source database as sets of rows, and how one change acts on any image of it. */
module Source {
  import opened Wrappers
  import opened Rows

  datatype TableSchema = TableSchema(columns: set<string>, key: set<string>)

  type Schema = map<seq<string>, TableSchema>

  /** The rows of each table. */
  type Image = map<seq<string>, set<Row>>

  function RowSet(rows: seq<Row>): set<Row> { set r | r in rows }

  function ImageOf(db: Db): Image { map name | name in db :: RowSet(db[name].rows) }

  /** Every table has a primary key among its columns, and column names are safe. */
  predicate KeyedSchema(schema: Schema) {
    forall name :: name in schema ==>
      && schema[name].key != {} && schema[name].key <= schema[name].columns
      && forall c :: c in schema[name].columns ==> SafeIdentifier(c)
  }

  predicate FullRow(r: Row, s: TableSchema) {
    r.Keys == s.columns && KeyPresent(s.key, r)
  }

  /** Full rows, one for each key. */
  predicate KeyedImage(image: Image, schema: Schema) {
    && image.Keys == schema.Keys
    && forall name :: name in image ==>
      && (forall r :: r in image[name] ==> FullRow(r, schema[name]))
      && OneRowPerKey(image[name], schema[name].key)
  }

  predicate OneRowPerKey(rows: set<Row>, key: set<string>) {
    forall r, x :: (r in rows && x in rows && KeyOf(key, r) == KeyOf(key, x)) ==> r == x
  }

  /** A replica with the tables of the schema, their columns and their primary keys. */
  predicate Conforms(db: Db, schema: Schema) {
    && db.Keys == schema.Keys
    && Shaped(db)
    && forall name :: name in db ==>
      && db[name].columns == schema[name].columns
      && db[name].key == schema[name].key
      && Admissible(db[name])
  }

  /** The change names a table of the schema and carries full rows: replica identity FULL. */
  predicate FullChange(e: ChangeEvent, schema: Schema) {
    && NameParts(e.table).Some? && NameParts(e.table).value in schema
    && var s := schema[NameParts(e.table).value];
       match e.op
       case InsertOp => FullRow(e.newRow, s)
       case UpdateOp => FullRow(e.oldRow, s) && FullRow(e.newRow, s)
       case DeleteOp => FullRow(e.oldRow, s)
       case OtherOp(_) => false
  }

  /** Another row already has the key of the row to be stored. */
  predicate KeyTaken(rows: set<Row>, key: set<string>, r: Row, except: set<Row>) {
    exists x :: x in rows && x !in except && KeyOf(key, x) == KeyOf(key, r)
  }

  /** The source accepts the change: the rows it replaces are there and its key is free. */
  predicate Legal(image: Image, e: ChangeEvent, schema: Schema) {
    && image.Keys == schema.Keys
    && FullChange(e, schema)
    && var name := NameParts(e.table).value;
       match e.op
       case InsertOp => !KeyTaken(image[name], schema[name].key, e.newRow, {})
       case UpdateOp => e.oldRow in image[name] && !KeyTaken(image[name], schema[name].key, e.newRow, {e.oldRow})
       case DeleteOp => e.oldRow in image[name]
       case OtherOp(_) => false
  }

  /** The source after an accepted change. */
  function Commit(image: Image, e: ChangeEvent): Image {
    if NameParts(e.table).None? || NameParts(e.table).value !in image then image
    else
      var name := NameParts(e.table).value;
      image[name := match e.op
        case InsertOp => image[name] + {e.newRow}
        case UpdateOp => image[name] - {e.oldRow} + {e.newRow}
        case DeleteOp => image[name] - {e.oldRow}
        case OtherOp(_) => image[name]]
  }

  /** The same change met by an image in any state: an update or delete whose old row is absent
      changes nothing, a taken key is an error. */
  function Fire(image: Image, e: ChangeEvent, schema: Schema): Option<Image> {
    if !FullChange(e, schema) || image.Keys != schema.Keys then None
    else
      var name := NameParts(e.table).value;
      var key := schema[name].key;
      match e.op
      case InsertOp => if KeyTaken(image[name], key, e.newRow, {}) then None else Some(Commit(image, e))
      case UpdateOp =>
        if e.oldRow !in image[name] then Some(image)
        else if KeyTaken(image[name], key, e.newRow, {e.oldRow}) then None
        else Some(Commit(image, e))
      case DeleteOp => Some(Commit(image, e))
      case OtherOp(_) => None
  }

  lemma FireKeepsKeys(image: Image, e: ChangeEvent, schema: Schema)
    requires KeyedImage(image, schema)
    ensures Fire(image, e, schema).Some? ==> KeyedImage(Fire(image, e, schema).value, schema)
    ensures Legal(image, e, schema) ==> Fire(image, e, schema) == Some(Commit(image, e))
  {
  }

  // ----- the replica's tables show exactly this -----

  lemma AgreesFull(r: Row, p: Row)
    requires r.Keys == p.Keys
    ensures Agrees(r, p) <==> r == p
  {
  }

  lemma {:induction false} RemoveKeepsOrder(rows: seq<Row>, p: Row, key: set<string>)
    requires DistinctKeys(key, rows)
    ensures DistinctKeys(key, Remove(rows, p))
  {
    if rows != [] {
      var tail, rest := rows[1..], Remove(rows[1..], p);
      assert DistinctKeys(key, tail) by {
        forall i, j | 0 <= i < j < |tail| ensures KeyOf(key, tail[i]) != KeyOf(key, tail[j]) {
          assert tail[i] == rows[i + 1] && tail[j] == rows[j + 1];
        }
      }
      RemoveKeepsOrder(tail, p, key);
      if !Agrees(rows[0], p) {
        var r := [rows[0]] + rest;
        forall i, j | 0 <= i < j < |r| ensures KeyOf(key, r[i]) != KeyOf(key, r[j]) {
          assert r[j] == rest[j - 1];
          if i == 0 {
            assert rest[j - 1] in tail;
            var k :| 0 <= k < |tail| && tail[k] == rest[j - 1];
            assert rows[k + 1] == rest[j - 1];
          } else {
            assert r[i] == rest[i - 1];
          }
        }
      }
    }
  }

  /** On a table, an insert appends the row, and is refused exactly when the key is taken. */
  lemma InsertOnTable(e: ChangeEvent, t: Table, s: TableSchema)
    requires t.columns == s.columns && t.key == s.key && s.key != {}
    requires e.op.InsertOp? && FullRow(e.newRow, s) && Admissible(t)
    ensures Changed(e, t) == t.rows + [e.newRow]
    ensures Admissible(t.(rows := Changed(e, t))) <==> !KeyTaken(RowSet(t.rows), s.key, e.newRow, {})
  {
    assert Defaults(t.columns) + e.newRow == e.newRow;
    var rows := t.rows + [e.newRow];
    if KeyTaken(RowSet(t.rows), s.key, e.newRow, {}) {
      var x :| x in t.rows && KeyOf(s.key, x) == KeyOf(s.key, e.newRow);
      var i :| 0 <= i < |t.rows| && t.rows[i] == x;
      assert rows[i] == x && rows[|t.rows|] == e.newRow;
    } else {
      forall i, j | 0 <= i < j < |rows| ensures KeyOf(s.key, rows[i]) != KeyOf(s.key, rows[j]) {
        if j == |t.rows| { assert rows[i] in RowSet(t.rows); }
      }
    }
  }

  /** On a table, an update replaces the old row where it stands. */
  lemma UpdateOnTable(e: ChangeEvent, t: Table, s: TableSchema)
    requires t.columns == s.columns && t.key == s.key && s.key != {} && s.key <= s.columns
    requires e.op.UpdateOp? && FullRow(e.oldRow, s) && FullRow(e.newRow, s)
    requires Admissible(t) && forall r :: r in t.rows ==> r.Keys == s.columns
    ensures |Changed(e, t)| == |t.rows|
    ensures forall i :: 0 <= i < |t.rows| ==>
      Changed(e, t)[i] == if t.rows[i] == e.oldRow then e.newRow else t.rows[i]
  {
    assert e.oldRow != map[] by {
      var c :| c in s.key;
      assert c in e.oldRow;
    }
    forall i | 0 <= i < |t.rows|
      ensures Changed(e, t)[i] == if t.rows[i] == e.oldRow then e.newRow else t.rows[i]
    {
      AgreesFull(t.rows[i], e.oldRow);
      assert t.rows[i] + e.newRow == e.newRow;
    }
  }

  lemma UpdateAdmissible(e: ChangeEvent, t: Table, s: TableSchema)
    requires t.columns == s.columns && t.key == s.key && s.key != {} && s.key <= s.columns
    requires e.op.UpdateOp? && FullRow(e.oldRow, s) && FullRow(e.newRow, s)
    requires Admissible(t) && forall r :: r in t.rows ==> r.Keys == s.columns
    ensures RowSet(Changed(e, t))
            == if e.oldRow in t.rows then RowSet(t.rows) - {e.oldRow} + {e.newRow} else RowSet(t.rows)
    ensures Admissible(t.(rows := Changed(e, t)))
            <==> e.oldRow !in t.rows || !KeyTaken(RowSet(t.rows), s.key, e.newRow, {e.oldRow})
  {
    UpdateOnTable(e, t, s);
    var rows, rows' := t.rows, Changed(e, t);
    if e.oldRow !in rows {
      assert rows' == rows;
      assert t.(rows := rows') == t;
    } else {
      var o :| 0 <= o < |rows| && rows[o] == e.oldRow;
      UniquePosition(t, o);
      assert rows' == rows[o := e.newRow];
      ReplacedSet(rows, o, e.newRow);
      ReplacedAdmissible(t, o, e.newRow);
    }
  }

  lemma UniquePosition(t: Table, o: nat)
    requires Admissible(t) && t.key != {} && o < |t.rows|
    ensures forall i :: 0 <= i < |t.rows| && i != o ==> t.rows[i] != t.rows[o]
  {
    forall i | 0 <= i < |t.rows| && i != o ensures t.rows[i] != t.rows[o] {
      var a, b := if i < o then i else o, if i < o then o else i;
      assert KeyOf(t.key, t.rows[a]) != KeyOf(t.key, t.rows[b]);
    }
  }

  lemma ReplacedSet(rows: seq<Row>, o: nat, r: Row)
    requires o < |rows| && forall i :: 0 <= i < |rows| && i != o ==> rows[i] != rows[o]
    ensures RowSet(rows[o := r]) == RowSet(rows) - {rows[o]} + {r}
  {
    var rows' := rows[o := r];
    forall x | x in RowSet(rows) - {rows[o]} + {r} ensures x in rows' {
      if x == r {
        assert rows'[o] == x;
      } else {
        var i :| 0 <= i < |rows| && rows[i] == x;
        assert rows'[i] == x;
      }
    }
  }

  lemma {:induction false} TakenKeyClashes(t: Table, o: nat, r: Row)
    requires Admissible(t) && t.key != {} && o < |t.rows|
    requires KeyTaken(RowSet(t.rows), t.key, r, {t.rows[o]})
    ensures !DistinctKeys(t.key, t.rows[o := r])
  {
    hide KeyOf;
    var rows, rows' := t.rows, t.rows[o := r];
    UniquePosition(t, o);
    var x :| x in rows && x != rows[o] && KeyOf(t.key, x) == KeyOf(t.key, r);
    var i :| 0 <= i < |rows| && rows[i] == x;
    var a, b := if i < o then i else o, if i < o then o else i;
    assert KeyOf(t.key, rows'[a]) == KeyOf(t.key, rows'[b]);
  }

  lemma {:induction false} FreeKeyFits(t: Table, o: nat, r: Row)
    requires Admissible(t) && t.key != {} && o < |t.rows|
    requires !KeyTaken(RowSet(t.rows), t.key, r, {t.rows[o]})
    ensures DistinctKeys(t.key, t.rows[o := r])
  {
    hide KeyOf;
    var rows, rows' := t.rows, t.rows[o := r];
    UniquePosition(t, o);
    forall i, j | 0 <= i < j < |rows'| ensures KeyOf(t.key, rows'[i]) != KeyOf(t.key, rows'[j]) {
      if i == o { assert rows[j] in RowSet(rows); }
      if j == o { assert rows[i] in RowSet(rows); }
    }
  }

  lemma {:induction false} ReplacedAdmissible(t: Table, o: nat, r: Row)
    requires Admissible(t) && t.key != {} && o < |t.rows| && KeyPresent(t.key, r)
    ensures Admissible(t.(rows := t.rows[o := r])) <==> !KeyTaken(RowSet(t.rows), t.key, r, {t.rows[o]})
  {
    hide KeyTaken, DistinctKeys, KeyPresent;
    if KeyTaken(RowSet(t.rows), t.key, r, {t.rows[o]}) {
      TakenKeyClashes(t, o, r);
    } else {
      FreeKeyFits(t, o, r);
    }
  }

  lemma RemovedSet(rows: seq<Row>, p: Row)
    requires forall r :: r in rows ==> r.Keys == p.Keys
    ensures RowSet(Remove(rows, p)) == RowSet(rows) - {p}
  {
    forall r | r in rows ensures Agrees(r, p) <==> r == p {
      AgreesFull(r, p);
    }
  }

  lemma RemovedAdmissible(t: Table, p: Row)
    requires Admissible(t)
    ensures Admissible(t.(rows := Remove(t.rows, p)))
  {
    if t.key != {} {
      RemoveKeepsOrder(t.rows, p, t.key);
      var rows' := Remove(t.rows, p);
      forall i | 0 <= i < |rows'| ensures KeyPresent(t.key, rows'[i]) {
        assert rows'[i] in t.rows;
        var j :| 0 <= j < |t.rows| && t.rows[j] == rows'[i];
      }
    }
  }

  lemma DeleteOnTable(e: ChangeEvent, t: Table, s: TableSchema)
    requires t.columns == s.columns && t.key == s.key && s.key != {} && s.key <= s.columns
    requires e.op.DeleteOp? && FullRow(e.oldRow, s)
    requires Admissible(t) && forall r :: r in t.rows ==> r.Keys == s.columns
    ensures RowSet(Changed(e, t)) == RowSet(t.rows) - {e.oldRow}
    ensures Admissible(t.(rows := Changed(e, t)))
  {
    assert e.oldRow != map[] by {
      var c :| c in s.key;
      assert c in e.oldRow;
    }
    RemovedSet(t.rows, e.oldRow);
    RemovedAdmissible(t, e.oldRow);
  }

  /** What one change does to one table of a conforming replica. */
  lemma {:induction false} TableFire(e: ChangeEvent, t: Table, s: TableSchema, rows: set<Row>)
    requires t.columns == s.columns && t.key == s.key && s.key != {} && s.key <= s.columns
    requires Admissible(t) && (forall r :: r in t.rows ==> r.Keys == s.columns) && rows == RowSet(t.rows)
    requires match e.op
             case InsertOp => FullRow(e.newRow, s)
             case UpdateOp => FullRow(e.oldRow, s) && FullRow(e.newRow, s)
             case DeleteOp => FullRow(e.oldRow, s)
             case OtherOp(_) => false
    ensures
      var refused := match e.op
        case InsertOp => KeyTaken(rows, s.key, e.newRow, {})
        case UpdateOp => e.oldRow in rows && KeyTaken(rows, s.key, e.newRow, {e.oldRow})
        case _ => false;
      Admissible(t.(rows := Changed(e, t))) <==> !refused
    ensures
      RowSet(Changed(e, t)) == match e.op
        case InsertOp => rows + {e.newRow}
        case UpdateOp => if e.oldRow in rows then rows - {e.oldRow} + {e.newRow} else rows
        case _ => rows - {e.oldRow}
    ensures forall r :: r in Changed(e, t) ==> r.Keys == s.columns
  {
    hide KeyTaken, Admissible, Changed, KeyPresent;
    match e.op
    case InsertOp => InsertOnTable(e, t, s);
    case UpdateOp => UpdateAdmissible(e, t, s); UpdateOnTable(e, t, s);
    case DeleteOp => DeleteOnTable(e, t, s); RowsOfSet(Changed(e, t), t.rows, e.oldRow);
    case OtherOp(_) =>
  }

  lemma RowsOfSet(rows: seq<Row>, before: seq<Row>, gone: Row)
    requires RowSet(rows) == RowSet(before) - {gone}
    ensures forall r :: r in rows ==> r in before
  {
    forall r | r in rows ensures r in before { assert r in RowSet(rows); }
  }

  lemma FullIsPublishable(e: ChangeEvent, schema: Schema)
    requires KeyedSchema(schema) && FullChange(e, schema)
    ensures Publishable(e) && Mentioned(e) <= schema[NameParts(e.table).value].columns
  {
    var s := schema[NameParts(e.table).value];
    var c :| c in s.key;
    assert !e.op.DeleteOp? ==> c in e.newRow;
    assert !e.op.InsertOp? ==> c in e.oldRow;
  }

  lemma SchemaKey(schema: Schema, name: seq<string>)
    requires KeyedSchema(schema) && name in schema
    ensures schema[name].key != {} && schema[name].key <= schema[name].columns
  {
  }

  lemma ReplaceTable(db: Db, name: seq<string>, t: Table, schema: Schema)
    requires Conforms(db, schema) && name in db
    requires t.columns == schema[name].columns && t.key == schema[name].key && Admissible(t)
    requires forall r :: r in t.rows ==> r.Keys == t.columns
    ensures Conforms(db[name := t], schema)
    ensures ImageOf(db[name := t]) == ImageOf(db)[name := RowSet(t.rows)]
  {
  }

  /** The replica does with a full change what the image does: same error, same rows. */
  lemma {:induction false} ApplyIsFire(e: ChangeEvent, db: Db, schema: Schema)
    requires KeyedSchema(schema) && Conforms(db, schema) && FullChange(e, schema)
    ensures
      match Fire(ImageOf(db), e, schema)
      case None => Apply(e, db) == None
      case Some(image) => Apply(e, db).Some? && Conforms(Apply(e, db).value, schema)
                          && ImageOf(Apply(e, db).value) == image
  {
    hide KeyTaken, Admissible, Changed, KeyPresent, KeyedSchema, Publishable, Mentioned;
    FullIsPublishable(e, schema);
    SchemaKey(schema, NameParts(e.table).value);
    var name := NameParts(e.table).value;
    var t := db[name].(rows := Changed(e, db[name]));
    TableFire(e, db[name], schema[name], ImageOf(db)[name]);
    if Admissible(t) {
      assert Apply(e, db) == Some(db[name := t]);
      ReplaceTable(db, name, t, schema);
      assert ImageOf(db)[name := ImageOf(db)[name]] == ImageOf(db);
    }
  }
}
