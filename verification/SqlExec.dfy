/** What the cloud database does with a statement and its arguments. */
module SqlExec {
  import opened Wrappers
  import opened Rows
  import opened SqlSyntax

  // ----- three-valued logic -----

  datatype Truth = True | False | Unknown

  function And(a: Truth, b: Truth): Truth {
    if a.False? || b.False? then False
    else if a.True? && b.True? then True
    else Unknown
  }

  /** SQL `=`: unknown as soon as one side is NULL. */
  function Equal(a: Value, b: Value): Truth {
    if a.Null? || b.Null? then Unknown else if a == b then True else False
  }

  function EvalCond(t: Term, r: Row, args: seq<Value>): Truth {
    match t
    case Equals(name, k) => if name in r && 1 <= k <= |args| then Equal(r[name], args[k - 1]) else Unknown
    case IsNull(name) => if name in r && r[name].Null? then True else False
    case _ => Unknown
  }

  function EvalWhere(conds: seq<Term>, r: Row, args: seq<Value>): Truth {
    if conds == [] then True else And(EvalCond(conds[0], r, args), EvalWhere(conds[1..], r, args))
  }

  /** A WHERE clause selects the rows on which it is true; unknown does not select. */
  predicate Selects(conds: seq<Term>, r: Row, args: seq<Value>) {
    EvalWhere(conds, r, args) == True
  }

  // ----- statements -----

  function MaxParam(ps: seq<nat>): nat {
    if ps == [] then 0
    else
      var m := MaxParam(ps[1..]);
      if ps[0] > m then ps[0] else m
  }

  predicate ColumnList(ts: seq<Term>, columns: set<string>) {
    && (forall i :: 0 <= i < |ts| ==> ts[i].Column? && ts[i].name in columns)
    && (forall i, j :: 0 <= i < j < |ts| ==> ts[i] != ts[j])
  }

  predicate ValueList(ts: seq<Term>, count: nat) {
    forall i :: 0 <= i < |ts| ==> ts[i].Param? && 1 <= ts[i].index <= count
  }

  predicate SetList(ts: seq<Term>, columns: set<string>, count: nat) {
    && (forall i :: 0 <= i < |ts| ==> ts[i].Equals? && ts[i].name in columns && 1 <= ts[i].index <= count)
    && (forall i, j :: 0 <= i < j < |ts| ==> ts[i].name != ts[j].name)
  }

  predicate CondList(ts: seq<Term>, columns: set<string>, count: nat) {
    forall i :: 0 <= i < |ts| ==>
      || (ts[i].Equals? && ts[i].name in columns && 1 <= ts[i].index <= count)
      || (ts[i].IsNull? && ts[i].name in columns)
  }

  /** The row that a column list and a value list of equal length spell out. */
  function InsertedRow(columns: seq<Term>, values: seq<Term>, args: seq<Value>): Row
    requires |columns| == |values|
    requires forall i :: 0 <= i < |columns| ==> columns[i].Column?
    requires ValueList(values, |args|)
  {
    if columns == [] then map[]
    else map[columns[0].name := args[values[0].index - 1]] + InsertedRow(columns[1..], values[1..], args)
  }

  /** The columns a SET list assigns. */
  function AssignedRow(sets: seq<Term>, args: seq<Value>): Row
    requires forall i :: 0 <= i < |sets| ==> sets[i].Equals? && 1 <= sets[i].index <= |args|
  {
    if sets == [] then map[]
    else map[sets[0].name := args[sets[0].index - 1]] + AssignedRow(sets[1..], args)
  }

  function UpdateRows(rows: seq<Row>, conds: seq<Term>, patch: Row, args: seq<Value>): seq<Row> {
    if rows == [] then []
    else [if Selects(conds, rows[0], args) then rows[0] + patch else rows[0]]
         + UpdateRows(rows[1..], conds, patch, args)
  }

  function DeleteRows(rows: seq<Row>, conds: seq<Term>, args: seq<Value>): seq<Row> {
    if rows == [] then []
    else (if Selects(conds, rows[0], args) then [] else [rows[0]]) + DeleteRows(rows[1..], conds, args)
  }

  /** The rows after the statement, or None when it does not fit the table. */
  function NewRows(s: Stmt, args: seq<Value>, t: Table): Option<seq<Row>> {
    match s
    case Insert(_, columns, values) =>
      if |columns| == |values| && ColumnList(columns, t.columns) && ValueList(values, |args|)
      then Some(t.rows + [Defaults(t.columns) + InsertedRow(columns, values, args)])
      else None
    case Update(_, sets, conds) =>
      if SetList(sets, t.columns, |args|) && CondList(conds, t.columns, |args|)
      then Some(UpdateRows(t.rows, conds, AssignedRow(sets, args), args))
      else None
    case Delete(_, conds) =>
      if CondList(conds, t.columns, |args|)
      then Some(DeleteRows(t.rows, conds, args))
      else None
  }

  /** None when the server rejects the statement: the transaction is then aborted. */
  function Exec(s: Stmt, args: seq<Value>, db: Db): Option<Db> {
    if s.table !in db || MaxParam(Placeholders(s)) != |args| then None
    else
      match NewRows(s, args, db[s.table])
      case None => None
      case Some(rows) =>
        var t := db[s.table].(rows := rows);
        if Admissible(t) then Some(db[s.table := t]) else None
  }

  /** A query as it travels: text and arguments. */
  datatype Query = Query(text: string, args: seq<Value>)

  function ExecText(q: Query, db: Db): Option<Db> {
    match Parse(q.text)
    case None => None
    case Some(s) => Exec(s, q.args, db)
  }
}
