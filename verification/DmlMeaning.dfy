/** The text sent for a change event means the change, on every database. */
module DmlMeaning {
  import opened Wrappers
  import opened Text
  import opened Ranges
  import opened Rows
  import opened SqlSyntax
  import opened SqlExec
  import opened DmlBuilder

  // ----- which events compile -----

  lemma {:induction false} AllSafe(keys: seq<string>)
    ensures FirstUnsafe(keys).None? <==> forall k :: k in keys ==> SafeIdentifier(k)
  {
    if keys != [] {
      AllSafe(keys[1..]);
      assert keys == [keys[0]] + keys[1..];
    }
  }

  lemma SafeRow(row: Row)
    ensures FirstUnsafe(KeySeq(row.Keys)).None? <==> SafeColumns(row)
  {
    AllSafe(KeySeq(row.Keys));
  }

  lemma CompileOutcomes(name: seq<string>, row: Row, p: Row)
    ensures CompileInsert(name, row).Success? <==> row != map[] && SafeColumns(row)
    ensures CompileDelete(name, p).Success? <==> p != map[] && SafeColumns(p)
    ensures CompileUpdate(name, row, p).Success?
            <==> row != map[] && SafeColumns(row) && p != map[] && SafeColumns(p)
  {
    SafeRow(row);
    SafeRow(p);
  }

  /** An event compiles exactly when it is publishable. */
  lemma {:induction false} CompilesIff(e: ChangeEvent)
    ensures Compile(e).Success? <==> Publishable(e)
  {
    hide CompileInsert, CompileUpdate, CompileDelete, SafeColumns, NameParts;
    if NameParts(e.table).Some? {
      CompileOutcomes(NameParts(e.table).value, e.newRow, PredicateRow(e));
    }
  }

  /** A compiled event is one of the three statements. */
  lemma CompiledShape(e: ChangeEvent)
    requires Compile(e).Success?
    ensures NameParts(e.table).Some?
    ensures
      var name := NameParts(e.table).value;
      Compile(e).value == match e.op
        case InsertOp => InsertBound(name, e.newRow)
        case UpdateOp => UpdateBound(name, e.newRow, PredicateRow(e))
        case DeleteOp => DeleteBound(name, PredicateRow(e))
        case OtherOp(_) => Compile(e).value
    ensures e.op.InsertOp? || e.op.UpdateOp? || e.op.DeleteOp?
  {
  }

  // ----- placeholders -----

  lemma {:induction false} CondParams(keys: seq<string>, row: Row, next: nat)
    requires forall k :: k in keys ==> k in row
    ensures TermParams(CondTerms(keys, row, next)) == Iota(next, |CondArgs(keys, row)|)
  {
    if keys != [] {
      var next' := if row[keys[0]].Null? then next else next + 1;
      CondParams(keys[1..], row, next');
      var ts := CondTerms(keys, row, next);
      assert ts[1..] == CondTerms(keys[1..], row, next');
      IotaSplit(next, 1, |CondArgs(keys[1..], row)|);
      assert Iota(next, 1) == [next];
    }
  }

  lemma {:induction false} SingleParams(ts: seq<Term>, start: nat)
    requires forall i :: 0 <= i < |ts| ==> (ts[i].Param? || ts[i].Equals?) && ts[i].index == start + i
    ensures TermParams(ts) == Iota(start, |ts|)
  {
    if ts != [] {
      SingleParams(ts[1..], start + 1);
      IotaSplit(start, 1, |ts| - 1);
      assert Iota(start, 1) == [start];
    }
  }

  lemma {:induction false} ColumnParams(ts: seq<Term>)
    requires forall i :: 0 <= i < |ts| ==> ts[i].Column?
    ensures TermParams(ts) == []
  {
    if ts != [] { ColumnParams(ts[1..]); }
  }

  lemma SetParams(keys: seq<string>)
    ensures TermParams(SetTerms(keys)) == Iota(1, |keys|)
  {
    SingleParams(SetTerms(keys), 1);
  }

  lemma WhereParams(p: Row, start: nat)
    ensures TermParams(WhereTerms(p, start)) == Iota(start, |WhereArgs(p)|)
  {
    CondParams(KeySeq(p.Keys), p, start);
  }

  lemma InsertPlaceholders(name: seq<string>, row: Row)
    ensures Placeholders(InsertBound(name, row).stmt) == Iota(1, |InsertBound(name, row).args|)
  {
    var keys := KeySeq(row.Keys);
    ColumnParams(ColumnTerms(keys));
    SingleParams(ParamTerms(|keys|), 1);
  }

  lemma {:induction false} UpdatePlaceholders(name: seq<string>, row: Row, p: Row)
    ensures Placeholders(UpdateBound(name, row, p).stmt) == Iota(1, |UpdateBound(name, row, p).args|)
  {
    hide SetTerms, WhereTerms, WhereArgs, TermParams, Iota, KeySeq;
    var setKeys := KeySeq(row.Keys);
    SetParams(setKeys);
    WhereParams(p, |setKeys| + 1);
    IotaSplit(1, |setKeys|, |WhereArgs(p)|);
  }

  /** Read left to right, the placeholders are $1, $2, … one for each argument, NULLs skipped. */
  lemma PlaceholdersInOrder(e: ChangeEvent)
    requires Compile(e).Success?
    ensures var b := Compile(e).value; Placeholders(b.stmt) == Iota(1, |b.args|)
  {
    CompiledShape(e);
    var name := NameParts(e.table).value;
    match e.op
    case InsertOp => InsertPlaceholders(name, e.newRow);
    case UpdateOp => UpdatePlaceholders(name, e.newRow, PredicateRow(e));
    case DeleteOp => WhereParams(PredicateRow(e), 1);
    case OtherOp(_) =>
  }

  lemma {:induction false} MaxOfIota(start: nat, n: nat)
    requires start >= 1 && n > 0
    ensures MaxParam(Iota(start, n)) == start + n - 1
    decreases n
  {
    assert Iota(start, n)[1..] == Iota(start + 1, n - 1);
    if n > 1 { MaxOfIota(start + 1, n - 1); }
  }

  lemma ParamCount(e: ChangeEvent)
    requires Compile(e).Success?
    ensures var b := Compile(e).value; MaxParam(Placeholders(b.stmt)) == |b.args|
  {
    PlaceholdersInOrder(e);
    var n := |Compile(e).value.args|;
    if n > 0 { MaxOfIota(1, n); }
  }

  // ----- WHERE: three-valued evaluation is agreement, NULL matching NULL -----

  lemma {:induction false} CondsMeaning(keys: seq<string>, p: Row, r: Row, next: nat, args: seq<Value>)
    requires next >= 1
    requires forall k :: k in keys ==> k in p && k in r
    requires next - 1 + |CondArgs(keys, p)| <= |args|
    requires args[next - 1..next - 1 + |CondArgs(keys, p)|] == CondArgs(keys, p)
    ensures Selects(CondTerms(keys, p, next), r, args) <==> forall k :: k in keys ==> r[k] == p[k]
  {
    if keys != [] {
      var k := keys[0];
      var ts := CondTerms(keys, p, next);
      var rest := keys[1..];
      var next' := if p[k].Null? then next else next + 1;
      assert ts[1..] == CondTerms(rest, p, next');
      var n := |CondArgs(keys, p)|;
      var window := args[next - 1..next - 1 + n];
      if !p[k].Null? {
        assert window[0] == p[k] && window[1..] == CondArgs(rest, p);
        assert window[1..] == args[next..next - 1 + n];
      }
      CondsMeaning(rest, p, r, next', args);
      assert EvalCond(ts[0], r, args).True? <==> r[k] == p[k];
      SplitKeys(keys);
    }
  }

  lemma SplitKeys(keys: seq<string>)
    requires keys != []
    ensures forall x :: x in keys <==> x == keys[0] || x in keys[1..]
  {
    assert keys == [keys[0]] + keys[1..];
  }

  /** The WHERE clause of a predicate row selects exactly the rows that agree with it. */
  lemma WhereMeaning(p: Row, r: Row, before: seq<Value>)
    requires p.Keys <= r.Keys
    ensures Selects(WhereTerms(p, |before| + 1), r, before + WhereArgs(p)) <==> Agrees(r, p)
  {
    var keys := KeySeq(p.Keys);
    var args := before + WhereArgs(p);
    assert args[|before|..|before| + |WhereArgs(p)|] == WhereArgs(p);
    CondsMeaning(keys, p, r, |before| + 1, args);
  }

  lemma {:induction false} UpdateRowsMeaning(rows: seq<Row>, p: Row, patch: Row, before: seq<Value>)
    requires forall r :: r in rows ==> p.Keys <= r.Keys
    ensures UpdateRows(rows, WhereTerms(p, |before| + 1), patch, before + WhereArgs(p)) == Overwrite(rows, p, patch)
  {
    if rows != [] {
      hide WhereTerms, WhereArgs, Agrees, Selects;
      assert rows[0] in rows;
      WhereMeaning(p, rows[0], before);
      UpdateRowsMeaning(rows[1..], p, patch, before);
      OverwriteSplit(rows, p, patch);
    }
  }

  lemma {:induction false} OverwriteSplit(rows: seq<Row>, p: Row, patch: Row)
    requires rows != []
    ensures Overwrite(rows, p, patch)
            == [if Agrees(rows[0], p) then rows[0] + patch else rows[0]] + Overwrite(rows[1..], p, patch)
  {
    hide Agrees;
  }

  lemma {:induction false} DeleteRowsMeaning(rows: seq<Row>, p: Row)
    requires forall r :: r in rows ==> p.Keys <= r.Keys
    ensures DeleteRows(rows, WhereTerms(p, 1), WhereArgs(p)) == Remove(rows, p)
  {
    if rows != [] {
      hide WhereTerms, WhereArgs, Agrees, Selects, DeleteRows, Remove;
      assert rows[0] in rows;
      WhereAlone(p, rows[0]);
      DeleteRowsMeaning(rows[1..], p);
      DeleteSplit(rows, p);
    }
  }

  lemma {:induction false} WhereAlone(p: Row, r: Row)
    requires p.Keys <= r.Keys
    ensures Selects(WhereTerms(p, 1), r, WhereArgs(p)) <==> Agrees(r, p)
  {
    hide WhereTerms, WhereArgs, Agrees, Selects;
    var none: seq<Value> := [];
    WhereMeaning(p, r, none);
    assert none + WhereArgs(p) == WhereArgs(p);
  }

  lemma {:induction false} DeleteSplit(rows: seq<Row>, p: Row)
    requires rows != []
    ensures DeleteRows(rows, WhereTerms(p, 1), WhereArgs(p))
            == (if Selects(WhereTerms(p, 1), rows[0], WhereArgs(p)) then [] else [rows[0]])
               + DeleteRows(rows[1..], WhereTerms(p, 1), WhereArgs(p))
    ensures Remove(rows, p) == (if Agrees(rows[0], p) then [] else [rows[0]]) + Remove(rows[1..], p)
  {
    hide WhereTerms, WhereArgs, Agrees, Selects;
  }

  // ----- SET and VALUES: the bound row is the new row -----

  /** The part of a row that some of its keys spell out, one key at a time. */
  lemma PartOfRow(keys: seq<string>, i: nat, row: Row)
    requires i < |keys| && forall k :: k in keys ==> k in row
    ensures (map k | k in keys[i..] :: row[k])
            == map[keys[i] := row[keys[i]]] + (map k | k in keys[i + 1..] :: row[k])
  {
    assert keys[i..] == [keys[i]] + keys[i + 1..];
  }

  lemma {:induction false} InsertedMeaning(keys: seq<string>, i: nat, row: Row)
    requires i <= |keys| && Distinct(keys) && forall k :: k in keys ==> k in row
    ensures
      var columns, values := ColumnTerms(keys)[i..], ParamTerms(|keys|)[i..];
      InsertedRow(columns, values, RowArgs(keys, row)) == map k | k in keys[i..] :: row[k]
    decreases |keys| - i
  {
    if i < |keys| {
      InsertedMeaning(keys, i + 1, row);
      var columns, values := ColumnTerms(keys)[i..], ParamTerms(|keys|)[i..];
      assert columns[1..] == ColumnTerms(keys)[i + 1..] && values[1..] == ParamTerms(|keys|)[i + 1..];
      assert columns[0] == Column(keys[i]) && values[0] == Param(i + 1);
      PartOfRow(keys, i, row);
    }
  }

  lemma {:induction false} AssignedMeaning(keys: seq<string>, i: nat, row: Row, args: seq<Value>)
    requires i <= |keys| && Distinct(keys) && forall k :: k in keys ==> k in row
    requires RowArgs(keys, row) <= args
    ensures AssignedRow(SetTerms(keys)[i..], args) == map k | k in keys[i..] :: row[k]
    decreases |keys| - i
  {
    if i < |keys| {
      AssignedMeaning(keys, i + 1, row, args);
      var sets := SetTerms(keys)[i..];
      assert sets[1..] == SetTerms(keys)[i + 1..];
      assert sets[0] == Equals(keys[i], i + 1);
      assert args[i] == RowArgs(keys, row)[i];
      PartOfRow(keys, i, row);
    }
  }

  lemma KeySeqDistinct(names: set<string>)
    ensures Distinct(KeySeq(names))
  {
    var keys := KeySeq(names);
    forall i, j | 0 <= i < j < |keys| ensures keys[i] != keys[j] {
      LessTotal(keys[i], keys[j]);
      assert Less(keys[i], keys[j]);
    }
  }

  lemma {:induction false} CondListShape(keys: seq<string>, p: Row, next: nat, columns: set<string>, count: nat)
    requires next >= 1 && forall k :: k in keys ==> k in p
    requires next - 1 + |CondArgs(keys, p)| <= count
    ensures CondList(CondTerms(keys, p, next), columns, count) <==> forall k :: k in keys ==> k in columns
  {
    if keys != [] {
      var next' := if p[keys[0]].Null? then next else next + 1;
      var ts := CondTerms(keys, p, next);
      CondListShape(keys[1..], p, next', columns, count);
      assert ts[1..] == CondTerms(keys[1..], p, next');
      CondListSplit(ts, columns, count);
      SplitKeys(keys);
    }
  }

  lemma CondListSplit(ts: seq<Term>, columns: set<string>, count: nat)
    requires ts != []
    ensures CondList(ts, columns, count) <==> CondList(ts[..1], columns, count) && CondList(ts[1..], columns, count)
  {
    if CondList(ts[..1], columns, count) && CondList(ts[1..], columns, count) {
      assert ts == ts[..1] + ts[1..];
    }
  }

  lemma WhereShape(p: Row, start: nat, columns: set<string>, count: nat)
    requires start >= 1 && start - 1 + |WhereArgs(p)| <= count
    ensures CondList(WhereTerms(p, start), columns, count) <==> p.Keys <= columns
  {
    CondListShape(KeySeq(p.Keys), p, start, columns, count);
  }

  lemma ColumnListShape(keys: seq<string>, columns: set<string>)
    requires Distinct(keys)
    ensures ColumnList(ColumnTerms(keys), columns) <==> forall k :: k in keys ==> k in columns
  {
    var ts := ColumnTerms(keys);
    assert forall i :: 0 <= i < |keys| ==> ts[i] == Column(keys[i]);
    if ColumnList(ts, columns) {
      forall k | k in keys ensures k in columns {
        var i :| 0 <= i < |keys| && keys[i] == k;
        assert ts[i].name in columns;
      }
    }
  }

  lemma SetListShape(keys: seq<string>, columns: set<string>, count: nat)
    requires Distinct(keys) && |keys| <= count
    ensures SetList(SetTerms(keys), columns, count) <==> forall k :: k in keys ==> k in columns
  {
    var sets := SetTerms(keys);
    assert forall i :: 0 <= i < |keys| ==> sets[i] == Equals(keys[i], i + 1);
    if SetList(sets, columns, count) {
      forall k | k in keys ensures k in columns {
        var i :| 0 <= i < |keys| && keys[i] == k;
        assert sets[i].name in columns;
      }
    }
  }

  lemma ValuesMeaning(keys: seq<string>, row: Row)
    requires Distinct(keys) && forall k :: k in keys <==> k in row.Keys
    ensures ValueList(ParamTerms(|keys|), |RowArgs(keys, row)|)
    ensures InsertedRow(ColumnTerms(keys), ParamTerms(|keys|), RowArgs(keys, row)) == row
  {
    InsertedMeaning(keys, 0, row);
    assert ColumnTerms(keys)[0..] == ColumnTerms(keys) && ParamTerms(|keys|)[0..] == ParamTerms(|keys|);
    assert (map k | k in keys[0..] :: row[k]) == row;
  }

  lemma {:induction false} InsertMeaning(name: seq<string>, row: Row, t: Table)
    ensures
      var b := InsertBound(name, row);
      NewRows(b.stmt, b.args, t)
      == if row.Keys <= t.columns then Some(t.rows + [Defaults(t.columns) + row]) else None
  {
    hide ColumnList, InsertedRow, KeySeq;
    var keys := KeySeq(row.Keys);
    KeySeqDistinct(row.Keys);
    ColumnListShape(keys, t.columns);
    ValuesMeaning(keys, row);
    assert row.Keys <= t.columns <==> forall k :: k in keys ==> k in t.columns;
  }

  lemma SetMeaning(row: Row, args: seq<Value>)
    requires RowArgs(KeySeq(row.Keys), row) <= args
    ensures AssignedRow(SetTerms(KeySeq(row.Keys)), args) == row
  {
    var keys := KeySeq(row.Keys);
    KeySeqDistinct(row.Keys);
    AssignedMeaning(keys, 0, row, args);
    assert SetTerms(keys)[0..] == SetTerms(keys);
    assert (map k | k in keys[0..] :: row[k]) == row;
  }

  lemma {:induction false} UpdateMeaning(name: seq<string>, row: Row, p: Row, t: Table)
    requires forall r :: r in t.rows ==> r.Keys == t.columns
    ensures
      var b := UpdateBound(name, row, p);
      NewRows(b.stmt, b.args, t)
      == if row.Keys + p.Keys <= t.columns then Some(Overwrite(t.rows, p, row)) else None
  {
    hide SetList, CondList, AssignedRow, UpdateRows, Overwrite, SetTerms, WhereTerms, WhereArgs, KeySeq;
    var setKeys := KeySeq(row.Keys);
    var before := RowArgs(setKeys, row);
    var args := before + WhereArgs(p);
    KeySeqDistinct(row.Keys);
    SetListShape(setKeys, t.columns, |args|);
    WhereShape(p, |setKeys| + 1, t.columns, |args|);
    if row.Keys + p.Keys <= t.columns {
      SetMeaning(row, args);
      UpdateRowsMeaning(t.rows, p, row, before);
    }
  }

  lemma DeleteMeaning(name: seq<string>, p: Row, t: Table)
    requires forall r :: r in t.rows ==> r.Keys == t.columns
    ensures
      var b := DeleteBound(name, p);
      NewRows(b.stmt, b.args, t) == if p.Keys <= t.columns then Some(Remove(t.rows, p)) else None
  {
    WhereShape(p, 1, t.columns, |WhereArgs(p)|);
    if p.Keys <= t.columns {
      DeleteRowsMeaning(t.rows, p);
    }
  }

  /** The compiled statement with its arguments has the effect of the change on every database. */
  lemma {:induction false} CompiledMeaning(e: ChangeEvent, db: Db)
    requires Compile(e).Success? && Shaped(db)
    ensures var b := Compile(e).value; Exec(b.stmt, b.args, db) == Apply(e, db)
  {
    hide Compile, NewRows, Placeholders, MaxParam, Admissible, Publishable, PredicateRow, Overwrite, Remove, NameParts;
    hide ColumnTerms, ParamTerms, SetTerms, WhereTerms, WhereArgs, RowArgs, KeySeq;
    CompilesIff(e);
    ParamCount(e);
    CompiledShape(e);
    var name := NameParts(e.table).value;
    if name in db {
      match e.op
      case InsertOp => InsertMeaning(name, e.newRow, db[name]);
      case UpdateOp => UpdateMeaning(name, e.newRow, PredicateRow(e), db[name]);
      case DeleteOp => DeleteMeaning(name, PredicateRow(e), db[name]);
      case OtherOp(_) =>
    }
  }

  lemma {:induction false} CompiledWellFormed(e: ChangeEvent)
    requires Compile(e).Success?
    ensures WellFormed(Compile(e).value.stmt)
  {
    hide Compile, NameParts, WhereTerms, WhereArgs;
    CompilesIff(e);
    CompiledShape(e);
    var newKeys := KeySeq(e.newRow.Keys);
    if e.newRow != map[] {
      var k :| k in e.newRow;
      assert k in newKeys;
    }
  }

  /** The text that is sent, read back by the server with its arguments, has the effect of the change. */
  lemma TextMeaning(e: ChangeEvent, db: Db)
    requires Shaped(db)
    ensures match Rendered(Compile(e))
            case Success(q) => ExecText(q, db) == Apply(e, db)
            case Failure(_) => Apply(e, db) == None
  {
    CompilesIff(e);
    if Compile(e).Success? {
      CompiledWellFormed(e);
      PrintParse(Compile(e).value.stmt);
      CompiledMeaning(e, db);
    }
  }
}
