/** Turning a change event into a SQL text with arguments. */
module DmlBuilder {
  import opened Wrappers
  import opened Text
  import opened Rows
  import opened SqlSyntax
  import opened SqlExec

  datatype BuildError =
    | InvalidTable
    | MissingNewRow
    | MissingPredicate
    | InvalidColumn(name: string)
    | UnsupportedOperation

  // ----- specification: the statement a row compiles to -----

  function FirstUnsafe(keys: seq<string>): Option<string> {
    if keys == [] then None
    else if !SafeIdentifier(keys[0]) then Some(keys[0])
    else FirstUnsafe(keys[1..])
  }

  function ColumnTerms(keys: seq<string>): (r: seq<Term>)
    ensures |r| == |keys|
  {
    seq(|keys|, i requires 0 <= i < |keys| => Column(keys[i]))
  }

  function ParamTerms(n: nat): (r: seq<Term>)
    ensures |r| == n
  {
    seq(n, i requires 0 <= i < n => Param(i + 1))
  }

  function SetTerms(keys: seq<string>): (r: seq<Term>)
    ensures |r| == |keys|
  {
    seq(|keys|, i requires 0 <= i < |keys| => Equals(keys[i], i + 1))
  }

  /** Conditions in key order; a NULL takes no parameter. */
  function CondTerms(keys: seq<string>, row: Row, next: nat): (r: seq<Term>)
    requires forall k :: k in keys ==> k in row
    ensures |r| == |keys|
  {
    if keys == [] then []
    else if row[keys[0]].Null? then [IsNull(keys[0])] + CondTerms(keys[1..], row, next)
    else [Equals(keys[0], next)] + CondTerms(keys[1..], row, next + 1)
  }

  function RowArgs(keys: seq<string>, row: Row): (r: seq<Value>)
    requires forall k :: k in keys ==> k in row
    ensures |r| == |keys|
  {
    seq(|keys|, i requires 0 <= i < |keys| => row[keys[i]])
  }

  function CondArgs(keys: seq<string>, row: Row): seq<Value>
    requires forall k :: k in keys ==> k in row
  {
    if keys == [] then []
    else (if row[keys[0]].Null? then [] else [row[keys[0]]]) + CondArgs(keys[1..], row)
  }

  /** The WHERE conjunction of a predicate row, with parameters numbered from `start`. */
  ghost function WhereTerms(row: Row, start: nat): (r: seq<Term>)
    ensures row != map[] ==> r != []
  {
    CondTerms(KeySeq(row.Keys), row, start)
  }

  ghost function WhereArgs(row: Row): seq<Value> { CondArgs(KeySeq(row.Keys), row) }

  /** A statement with its arguments. */
  datatype Bound = Bound(stmt: Stmt, args: seq<Value>)

  /** The query that carries a bound statement, or the error that prevented one. */
  function Rendered(b: Result<Bound, BuildError>): Result<Query, BuildError> {
    match b
    case Success(bound) => Success(Query(Print(bound.stmt), bound.args))
    case Failure(error) => Failure(error)
  }

  ghost function InsertBound(name: seq<string>, row: Row): Bound {
    var keys := KeySeq(row.Keys);
    Bound(Insert(name, ColumnTerms(keys), ParamTerms(|keys|)), RowArgs(keys, row))
  }

  ghost function UpdateBound(name: seq<string>, newRow: Row, predicateRow: Row): Bound {
    var setKeys := KeySeq(newRow.Keys);
    Bound(Update(name, SetTerms(setKeys), WhereTerms(predicateRow, |setKeys| + 1)),
          RowArgs(setKeys, newRow) + WhereArgs(predicateRow))
  }

  ghost function DeleteBound(name: seq<string>, predicateRow: Row): Bound {
    Bound(Delete(name, WhereTerms(predicateRow, 1)), WhereArgs(predicateRow))
  }

  ghost function CompileInsert(name: seq<string>, row: Row): Result<Bound, BuildError> {
    var keys := KeySeq(row.Keys);
    if row == map[] then Failure(MissingNewRow)
    else
      match FirstUnsafe(keys)
      case Some(bad) => Failure(InvalidColumn(bad))
      case None => Success(InsertBound(name, row))
  }

  ghost function CompileUpdate(name: seq<string>, newRow: Row, predicateRow: Row): Result<Bound, BuildError> {
    var setKeys, keys := KeySeq(newRow.Keys), KeySeq(predicateRow.Keys);
    if newRow == map[] then Failure(MissingNewRow)
    else if predicateRow == map[] then Failure(MissingPredicate)
    else
      match FirstUnsafe(setKeys)
      case Some(bad) => Failure(InvalidColumn(bad))
      case None =>
        match FirstUnsafe(keys)
        case Some(bad) => Failure(InvalidColumn(bad))
        case None => Success(UpdateBound(name, newRow, predicateRow))
  }

  ghost function CompileDelete(name: seq<string>, predicateRow: Row): Result<Bound, BuildError> {
    var keys := KeySeq(predicateRow.Keys);
    if predicateRow == map[] then Failure(MissingPredicate)
    else
      match FirstUnsafe(keys)
      case Some(bad) => Failure(InvalidColumn(bad))
      case None => Success(DeleteBound(name, predicateRow))
  }

  ghost function Compile(e: ChangeEvent): Result<Bound, BuildError> {
    match NameParts(e.table)
    case None => Failure(InvalidTable)
    case Some(name) =>
      match e.op
      case InsertOp => CompileInsert(name, e.newRow)
      case UpdateOp => CompileUpdate(name, e.newRow, PredicateRow(e))
      case DeleteOp => CompileDelete(name, PredicateRow(e))
      case OtherOp(_) => Failure(UnsupportedOperation)
  }

  // ----- the loops of the source -----

  /** Collects the keys in whatever order the map yields them, then sorts. */
  method SortedKeys(m: Row) returns (keys: seq<string>)
    ensures keys == KeySeq(m.Keys)
  {
    keys := [];
    var rest := m.Keys;
    while rest != {}
      invariant rest <= m.Keys
      invariant Distinct(keys)
      invariant forall x :: x in keys <==> x in m.Keys && x !in rest
    {
      var k :| k in rest;
      keys := keys + [k];
      rest := rest - {k};
    }
    SortAscending(keys);
    keys := Sort(keys);
    AscendingUnique(keys, KeySeq(m.Keys));
  }

  /** The source's quoteQualifiedTable. */
  function QuoteQualifiedTable(table: string): (r: Result<string, BuildError>)
    ensures r.Success? <==> NameParts(table).Some?
    ensures r.Success? ==> r.value == PrintTable(NameParts(table).value)
    ensures r.Failure? ==> r.error == InvalidTable
  {
    var parts := SplitDots(table);
    if |parts| == 1 then
      if !SafeIdentifier(parts[0]) then Failure(InvalidTable)
      else Success(Quote(parts[0]))
    else if |parts| == 2 then
      if !SafeIdentifier(parts[0]) || !SafeIdentifier(parts[1]) then Failure(InvalidTable)
      else
        assert QuoteAll(parts)[0] == Quote(parts[0]) && QuoteAll(parts)[1..] == [Quote(parts[1])];
        assert Join([Quote(parts[1])], ".") == Quote(parts[1]);
        Success(Quote(parts[0]) + "." + Quote(parts[1]))
    else Failure(InvalidTable)
  }

  lemma PrintTermsAppend(ts: seq<Term>, t: Term)
    ensures PrintTerms(ts + [t]) == PrintTerms(ts) + [PrintTerm(t)]
  {
    if ts != [] {
      assert (ts + [t])[1..] == ts[1..] + [t];
      PrintTermsAppend(ts[1..], t);
    }
  }

  /** The first `i` keys are safe, and the remaining keys decide the outcome. */
  ghost predicate Scanned(keys: seq<string>, i: nat)
    requires i <= |keys|
  {
    FirstUnsafe(keys) == FirstUnsafe(keys[i..])
  }

  lemma ScanStep(keys: seq<string>, i: nat)
    requires i < |keys| && Scanned(keys, i)
    ensures SafeIdentifier(keys[i]) ==> Scanned(keys, i + 1)
    ensures !SafeIdentifier(keys[i]) ==> FirstUnsafe(keys) == Some(keys[i])
  {
    assert keys[i..][1..] == keys[i + 1..];
  }

  lemma ColumnStep(keys: seq<string>, i: nat)
    requires i < |keys|
    ensures PrintTerms(ColumnTerms(keys[..i + 1])) == PrintTerms(ColumnTerms(keys[..i])) + [Quote(keys[i])]
  {
    PrintTermsAppend(ColumnTerms(keys[..i]), Column(keys[i]));
    assert ColumnTerms(keys[..i]) + [Column(keys[i])] == ColumnTerms(keys[..i + 1]);
  }

  lemma ParamStep(i: nat)
    ensures PrintTerms(ParamTerms(i + 1)) == PrintTerms(ParamTerms(i)) + [ParamText(i + 1)]
  {
    PrintTermsAppend(ParamTerms(i), Param(i + 1));
    assert ParamTerms(i) + [Param(i + 1)] == ParamTerms(i + 1);
  }

  /** The SET clauses and arguments of the first `i` keys. */
  ghost predicate Assigned(keys: seq<string>, row: Row, i: nat, clauses: seq<string>, args: seq<Value>)
    requires i <= |keys| && forall k :: k in keys ==> k in row
  {
    clauses == PrintTerms(SetTerms(keys[..i])) && args == RowArgs(keys[..i], row)
  }

  lemma AssignStep(keys: seq<string>, row: Row, i: nat, clauses: seq<string>, args: seq<Value>)
    requires i < |keys| && forall k :: k in keys ==> k in row
    requires Assigned(keys, row, i, clauses, args)
    ensures Assigned(keys, row, i + 1, clauses + [EqualsText(keys[i], i + 1)], args + [row[keys[i]]])
  {
    PrintTermsAppend(SetTerms(keys[..i]), Equals(keys[i], i + 1));
    assert SetTerms(keys[..i]) + [Equals(keys[i], i + 1)] == SetTerms(keys[..i + 1]);
  }

  lemma AssignEnd(keys: seq<string>, row: Row, clauses: seq<string>, args: seq<Value>)
    requires forall k :: k in keys ==> k in row
    requires Assigned(keys, row, |keys|, clauses, args)
    ensures clauses == PrintTerms(SetTerms(keys)) && args == RowArgs(keys, row)
  {
    assert keys[..|keys|] == keys;
  }

  lemma ArgStep(keys: seq<string>, row: Row, i: nat)
    requires i < |keys| && forall k :: k in keys ==> k in row
    ensures RowArgs(keys[..i + 1], row) == RowArgs(keys[..i], row) + [row[keys[i]]]
  {
  }

  method BuildInsertSQL(table: string, row: Row, ghost name: seq<string>) returns (r: Result<Query, BuildError>)
    requires table == PrintTable(name)
    ensures r == Rendered(CompileInsert(name, row))
  {
    if |row| == 0 { return Failure(MissingNewRow); }
    var keys := SortedKeys(row);
    var columns: seq<string>, placeholders: seq<string>, args: seq<Value> := [], [], [];
    assert keys[0..] == keys;
    assert PrintTerms(ColumnTerms(keys[..0])) == [] && PrintTerms(ParamTerms(0)) == [];
    hide ColumnTerms, ParamTerms, PrintTerms, RowArgs, SafeIdentifier, KeySeq;
    for idx := 0 to |keys|
      invariant columns == PrintTerms(ColumnTerms(keys[..idx]))
      invariant placeholders == PrintTerms(ParamTerms(idx))
      invariant args == RowArgs(keys[..idx], row)
      invariant Scanned(keys, idx)
    {
      var key := keys[idx];
      ScanStep(keys, idx);
      if !SafeIdentifier(key) { return Failure(InvalidColumn(key)); }
      ColumnStep(keys, idx);
      ParamStep(idx);
      ArgStep(keys, row, idx);
      columns := columns + [Quote(key)];
      placeholders := placeholders + [ParamText(idx + 1)];
      args := args + [row[key]];
    }
    assert keys[..|keys|] == keys && keys[|keys|..] == [];
    r := Success(Query(InsertText(table, columns, placeholders), args));
  }

  /** The conditions and arguments collected for the first `i` keys, and what is still to come. */
  ghost predicate Collected(row: Row, start: nat, i: nat, parts: seq<string>, args: seq<Value>, next: nat)
    requires i <= |KeySeq(row.Keys)|
  {
    var rest := KeySeq(row.Keys)[i..];
    && parts + PrintTerms(CondTerms(rest, row, next)) == PrintTerms(WhereTerms(row, start))
    && args + CondArgs(rest, row) == WhereArgs(row)
  }

  lemma CollectStart(row: Row, start: nat)
    ensures Collected(row, start, 0, [], [], start)
  {
    assert KeySeq(row.Keys)[0..] == KeySeq(row.Keys);
  }

  /** One more key contributes one condition, and an argument unless its value is NULL. */
  lemma CondStep(keys: seq<string>, row: Row, i: nat, next: nat)
    requires i < |keys| && forall k :: k in keys ==> k in row
    ensures row[keys[i]].Null? ==>
      && PrintTerms(CondTerms(keys[i..], row, next))
         == [IsNullText(keys[i])] + PrintTerms(CondTerms(keys[i + 1..], row, next))
      && CondArgs(keys[i..], row) == CondArgs(keys[i + 1..], row)
    ensures row[keys[i]].Str? ==>
      && PrintTerms(CondTerms(keys[i..], row, next))
         == [EqualsText(keys[i], next)] + PrintTerms(CondTerms(keys[i + 1..], row, next + 1))
      && CondArgs(keys[i..], row) == [row[keys[i]]] + CondArgs(keys[i + 1..], row)
  {
    assert keys[i..][1..] == keys[i + 1..];
    var next' := if row[keys[i]].Null? then next else next + 1;
    assert CondTerms(keys[i..], row, next)[1..] == CondTerms(keys[i + 1..], row, next');
  }

  lemma Shift<T>(a: seq<T>, x: T, b: seq<T>)
    ensures a + ([x] + b) == (a + [x]) + b
  {
  }

  lemma CollectNull(row: Row, start: nat, i: nat, key: string, parts: seq<string>, args: seq<Value>, next: nat)
    requires i < |KeySeq(row.Keys)| && key == KeySeq(row.Keys)[i] && row[key].Null?
    requires Collected(row, start, i, parts, args, next)
    ensures Collected(row, start, i + 1, parts + [IsNullText(key)], args, next)
  {
    var keys := KeySeq(row.Keys);
    CondStep(keys, row, i, next);
    Shift(parts, IsNullText(key), PrintTerms(CondTerms(keys[i + 1..], row, next)));
  }

  lemma CollectValue(row: Row, start: nat, i: nat, key: string, parts: seq<string>, args: seq<Value>, next: nat)
    requires i < |KeySeq(row.Keys)| && key == KeySeq(row.Keys)[i] && row[key].Str?
    requires Collected(row, start, i, parts, args, next)
    ensures Collected(row, start, i + 1, parts + [EqualsText(key, next)], args + [row[key]], next + 1)
  {
    var keys := KeySeq(row.Keys);
    CondStep(keys, row, i, next);
    Shift(parts, EqualsText(key, next), PrintTerms(CondTerms(keys[i + 1..], row, next + 1)));
    Shift(args, row[key], CondArgs(keys[i + 1..], row));
  }

  lemma CollectEnd(row: Row, start: nat, parts: seq<string>, args: seq<Value>, next: nat)
    requires Collected(row, start, |KeySeq(row.Keys)|, parts, args, next)
    ensures parts == PrintTerms(WhereTerms(row, start)) && args == WhereArgs(row)
  {
    assert KeySeq(row.Keys)[|KeySeq(row.Keys)|..] == [];
    assert parts + [] == parts && args + [] == args;
  }

  method BuildWhereClause(predicateRow: Row, startParam: nat) returns (r: Result<Query, BuildError>)
    ensures
      var keys := KeySeq(predicateRow.Keys);
      match FirstUnsafe(keys)
      case Some(bad) => r == Failure(InvalidColumn(bad))
      case None => r == Success(Query(
        PrintConds(WhereTerms(predicateRow, startParam)), WhereArgs(predicateRow)))
  {
    var keys := SortedKeys(predicateRow);
    var parts: seq<string>, args: seq<Value>, next: nat := [], [], startParam;
    CollectStart(predicateRow, startParam);
    assert keys[0..] == keys;
    for i := 0 to |keys|
      invariant Collected(predicateRow, startParam, i, parts, args, next)
      invariant Scanned(keys, i)
    {
      var key := keys[i];
      ScanStep(keys, i);
      if !SafeIdentifier(key) { return Failure(InvalidColumn(key)); }
      var value := predicateRow[key];
      if value == Null {
        CollectNull(predicateRow, startParam, i, key, parts, args, next);
        parts := parts + [IsNullText(key)];
      } else {
        CollectValue(predicateRow, startParam, i, key, parts, args, next);
        parts := parts + [EqualsText(key, next)];
        args := args + [value];
        next := next + 1;
      }
    }
    CollectEnd(predicateRow, startParam, parts, args, next);
    assert keys[|keys|..] == [];
    r := Success(Query(Join(parts, " AND "), args));
  }

  lemma UpdateRendered(name: seq<string>, newRow: Row, p: Row, clauses: seq<string>, args: seq<Value>)
    requires clauses == PrintTerms(SetTerms(KeySeq(newRow.Keys)))
    requires args == RowArgs(KeySeq(newRow.Keys), newRow)
    ensures Rendered(Success(UpdateBound(name, newRow, p))) == Success(Query(
      UpdateText(PrintTable(name), clauses, PrintConds(WhereTerms(p, |KeySeq(newRow.Keys)| + 1))),
      args + WhereArgs(p)))
  {
  }

  method BuildUpdateSQL(table: string, newRow: Row, predicateRow: Row, ghost name: seq<string>)
    returns (r: Result<Query, BuildError>)
    requires table == PrintTable(name)
    ensures r == Rendered(CompileUpdate(name, newRow, predicateRow))
  {
    if |newRow| == 0 { return Failure(MissingNewRow); }
    if |predicateRow| == 0 { return Failure(MissingPredicate); }
    var setKeys := SortedKeys(newRow);
    var setClauses: seq<string>, args: seq<Value>, nextParam: nat := [], [], 1;
    assert setKeys[0..] == setKeys;
    for i := 0 to |setKeys|
      invariant Assigned(setKeys, newRow, i, setClauses, args)
      invariant nextParam == i + 1
      invariant Scanned(setKeys, i)
    {
      var key := setKeys[i];
      ScanStep(setKeys, i);
      if !SafeIdentifier(key) { return Failure(InvalidColumn(key)); }
      AssignStep(setKeys, newRow, i, setClauses, args);
      setClauses := setClauses + [EqualsText(key, nextParam)];
      args := args + [newRow[key]];
      nextParam := nextParam + 1;
    }
    AssignEnd(setKeys, newRow, setClauses, args);
    assert setKeys[|setKeys|..] == [];
    var whereClause := BuildWhereClause(predicateRow, nextParam);
    match whereClause
    case Failure(error) => r := Failure(error);
    case Success(w) =>
      UpdateRendered(name, newRow, predicateRow, setClauses, args);
      r := Success(Query(UpdateText(table, setClauses, w.text), args + w.args));
  }

  method BuildDeleteSQL(table: string, predicateRow: Row, ghost name: seq<string>)
    returns (r: Result<Query, BuildError>)
    requires table == PrintTable(name)
    ensures r == Rendered(CompileDelete(name, predicateRow))
  {
    if |predicateRow| == 0 { return Failure(MissingPredicate); }
    var whereClause := BuildWhereClause(predicateRow, 1);
    match whereClause
    case Failure(error) => r := Failure(error);
    case Success(w) => r := Success(Query(DeleteText(table, w.text), w.args));
  }

  /** The text and arguments built by the loops are those of the compiled statement. */
  method BuildDML(e: ChangeEvent) returns (r: Result<Query, BuildError>)
    ensures r == Rendered(Compile(e))
  {
    var quoted := QuoteQualifiedTable(e.table);
    if quoted.Failure? { return Failure(quoted.error); }
    var table := quoted.value;
    ghost var name := NameParts(e.table).value;
    match e.op
    case InsertOp => r := BuildInsertSQL(table, e.newRow, name);
    case UpdateOp => r := BuildUpdateSQL(table, e.newRow, PredicateRow(e), name);
    case DeleteOp => r := BuildDeleteSQL(table, PredicateRow(e), name);
    case OtherOp(_) => r := Failure(UnsupportedOperation);
  }
}
