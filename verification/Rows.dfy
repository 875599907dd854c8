/** Rows, change events and keyed tables. */
module Rows {
  import opened Wrappers
  import opened Text

  /** A column value as the decoder produces it: SQL NULL (Go's nil) or text. */
  datatype Value = Null | Str(text: string)

  type Row = map<string, Value>

  datatype Operation = InsertOp | UpdateOp | DeleteOp | OtherOp(name: string)

  /** `timestamp` 0 is Go's zero time; an absent row is the empty row. */
  datatype ChangeEvent = ChangeEvent(
    lsn: nat, timestamp: nat, table: string, op: Operation, oldRow: Row, newRow: Row)

  /** Events in LSN order. */
  predicate LsnAscending(es: seq<ChangeEvent>) {
    forall i, j :: 0 <= i <= j < |es| ==> es[i].lsn <= es[j].lsn
  }

  /** A table of the replica; `key` is its primary key, empty when it has none. */
  datatype Table = Table(columns: set<string>, key: set<string>, rows: seq<Row>)

  /** Tables by qualified name. */
  type Db = map<seq<string>, Table>

  function KeyOf(key: set<string>, r: Row): Row { map c | c in key && c in r :: r[c] }

  predicate KeyPresent(key: set<string>, r: Row) {
    forall c :: c in key ==> c in r && r[c].Str?
  }

  predicate DistinctKeys(key: set<string>, rows: seq<Row>) {
    forall i, j :: 0 <= i < j < |rows| ==> KeyOf(key, rows[i]) != KeyOf(key, rows[j])
  }

  /** The primary key constraint: key columns are not NULL and no two rows share a key. */
  predicate Admissible(t: Table) {
    t.key != {} ==>
      (forall i :: 0 <= i < |t.rows| ==> KeyPresent(t.key, t.rows[i])) && DistinctKeys(t.key, t.rows)
  }

  /** Every row of every table has exactly the table's columns. */
  predicate Shaped(db: Db) {
    forall name :: name in db ==> forall r :: r in db[name].rows ==> r.Keys == db[name].columns
  }

  function Defaults(columns: set<string>): (r: Row)
    ensures r.Keys == columns
  {
    map c | c in columns :: Null
  }

  // ----- names -----

  predicate SafeChar(c: char) {
    'a' <= c <= 'z' || 'A' <= c <= 'Z' || '0' <= c <= '9' || c == '_'
  }

  /** The source's isSafeIdentifier. */
  predicate SafeIdentifier(id: string) {
    id != "" && forall i :: 0 <= i < |id| ==> SafeChar(id[i])
  }

  /** The parts of a table name the publisher accepts: `table` or `schema.table`, all safe. */
  function NameParts(table: string): (r: Option<seq<string>>)
    ensures r.Some? ==> 1 <= |r.value| <= 2 && Join(r.value, ".") == table
  {
    var parts := SplitDots(table);
    if |parts| <= 2 && forall i :: 0 <= i < |parts| ==> SafeIdentifier(parts[i]) then Some(parts) else None
  }

  /** Distinct table names never name the same table. */
  lemma NamePartsInjective(a: string, b: string)
    requires NameParts(a).Some? && NameParts(a) == NameParts(b)
    ensures a == b
  {
    assert Join(NameParts(a).value, ".") == a;
  }

  /** `schema.table` with safe parts has exactly these two parts. */
  lemma QualifiedParts(schema: string, table: string)
    requires SafeIdentifier(schema) && SafeIdentifier(table)
    ensures NameParts(schema + "." + table) == Some([schema, table])
  {
    SplitQualified(schema, table);
  }

  // ----- what a change event means -----

  /** The row that selects the rows to change: the old row when there is one, else the new row. */
  function PredicateRow(e: ChangeEvent): Row {
    if e.oldRow != map[] then e.oldRow else e.newRow
  }

  predicate SafeColumns(r: Row) {
    forall c :: c in r ==> SafeIdentifier(c)
  }

  /** The events the publisher can turn into SQL. */
  predicate Publishable(e: ChangeEvent) {
    && NameParts(e.table).Some?
    && match e.op
       case InsertOp => e.newRow != map[] && SafeColumns(e.newRow)
       case UpdateOp => e.newRow != map[] && SafeColumns(e.newRow) && SafeColumns(PredicateRow(e))
       case DeleteOp => PredicateRow(e) != map[] && SafeColumns(PredicateRow(e))
       case OtherOp(_) => false
  }

  /** `r` agrees with `p` on every column of `p`; NULL agrees with NULL. */
  predicate Agrees(r: Row, p: Row) {
    forall c :: c in p ==> c in r && r[c] == p[c]
  }

  function Overwrite(rows: seq<Row>, p: Row, patch: Row): (r: seq<Row>)
    ensures |r| == |rows|
    ensures forall i :: 0 <= i < |rows| ==> r[i] == if Agrees(rows[i], p) then rows[i] + patch else rows[i]
  {
    seq(|rows|, i requires 0 <= i < |rows| => if Agrees(rows[i], p) then rows[i] + patch else rows[i])
  }

  function Remove(rows: seq<Row>, p: Row): (r: seq<Row>)
    ensures forall x :: x in r <==> x in rows && !Agrees(x, p)
  {
    if rows == [] then []
    else (if Agrees(rows[0], p) then [] else [rows[0]]) + Remove(rows[1..], p)
  }

  /** The table after the change, before constraints are checked. */
  function Changed(e: ChangeEvent, t: Table): seq<Row> {
    match e.op
    case InsertOp => t.rows + [Defaults(t.columns) + e.newRow]
    case UpdateOp => Overwrite(t.rows, PredicateRow(e), e.newRow)
    case DeleteOp => Remove(t.rows, PredicateRow(e))
    case OtherOp(_) => t.rows
  }

  /** The columns a change mentions. */
  function Mentioned(e: ChangeEvent): set<string> {
    match e.op
    case InsertOp => e.newRow.Keys
    case UpdateOp => e.newRow.Keys + PredicateRow(e).Keys
    case DeleteOp => PredicateRow(e).Keys
    case OtherOp(_) => {}
  }

  /** The effect of a change on the replica; None when the change cannot be applied. */
  function Apply(e: ChangeEvent, db: Db): Option<Db> {
    if !Publishable(e) then None
    else
      var name := NameParts(e.table).value;
      if name !in db || !(Mentioned(e) <= db[name].columns) then None
      else
        var t := db[name].(rows := Changed(e, db[name]));
        if Admissible(t) then Some(db[name := t]) else None
  }

  function ApplyAll(es: seq<ChangeEvent>, db: Db): Option<Db>
    decreases |es|
  {
    if es == [] then Some(db)
    else
      match ApplyAll(es[..|es| - 1], db)
      case None => None
      case Some(db') => Apply(es[|es| - 1], db')
  }

  lemma {:induction false} ApplyAllConcat(a: seq<ChangeEvent>, b: seq<ChangeEvent>, db: Db)
    requires ApplyAll(a, db).Some?
    ensures ApplyAll(a + b, db) == ApplyAll(b, ApplyAll(a, db).value)
  {
    if b == [] {
      assert a + b == a;
    } else {
      var b' := b[..|b| - 1];
      assert (a + b)[..|a + b| - 1] == a + b';
      ApplyAllConcat(a, b', db);
    }
  }

  lemma {:induction false} ApplyAllPrefix(es: seq<ChangeEvent>, n: nat, db: Db)
    requires n <= |es| && ApplyAll(es, db).Some?
    ensures ApplyAll(es[..n], db).Some?
    decreases |es|
  {
    if n < |es| {
      var es' := es[..|es| - 1];
      ApplyAllPrefix(es', n, db);
      assert es[..n] == es'[..n];
    } else {
      assert es[..n] == es;
    }
  }

  lemma AppliedIsPublishable(e: ChangeEvent, db: Db)
    requires Apply(e, db).Some?
    ensures Publishable(e)
  {
  }

  /** A batch that was applied holds publishable events only. */
  lemma AllAppliedPublishable(es: seq<ChangeEvent>, i: nat, db: Db)
    requires i < |es| && ApplyAll(es, db).Some?
    ensures Publishable(es[i])
  {
    var upTo := es[..i + 1];
    ApplyAllPrefix(es, i + 1, db);
    assert upTo[..|upTo| - 1] == es[..i];
    AppliedIsPublishable(es[i], ApplyAll(es[..i], db).value);
  }
}
