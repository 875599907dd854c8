/** Consequences of the compilation: when texts coincide, and which changes are lost. */
module DmlFacts {
  import opened Wrappers
  import opened Text
  import opened Rows
  import opened SqlSyntax
  import opened DmlBuilder
  import opened DmlMeaning

  // ----- same text -----

  lemma {:induction false} CondTermAt(keys: seq<string>, row: Row, next: nat, i: nat)
    requires i < |keys| && forall k :: k in keys ==> k in row
    ensures
      var t := CondTerms(keys, row, next)[i];
      (t.IsNull? || t.Equals?) && t.name == keys[i] && (t.IsNull? <==> row[keys[i]].Null?)
  {
    if i > 0 {
      CondTermAt(keys[1..], row, if row[keys[0]].Null? then next else next + 1, i - 1);
    }
  }

  /** The same columns, NULL in the same places. */
  predicate SamePattern(p: Row, q: Row) {
    p.Keys == q.Keys && forall c :: c in p ==> (p[c].Null? <==> q[c].Null?)
  }

  lemma {:induction false} PatternTerms(keys: seq<string>, p: Row, q: Row, next: nat)
    requires SamePattern(p, q) && forall k :: k in keys ==> k in p
    ensures CondTerms(keys, p, next) == CondTerms(keys, q, next)
  {
    if keys != [] {
      PatternTerms(keys[1..], p, q, if p[keys[0]].Null? then next else next + 1);
    }
  }

  lemma TermsPattern(p: Row, q: Row, start: nat)
    requires WhereTerms(p, start) == WhereTerms(q, start)
    ensures SamePattern(p, q)
  {
    var ks, ls := KeySeq(p.Keys), KeySeq(q.Keys);
    assert |ks| == |WhereTerms(p, start)| == |ls|;
    forall i | 0 <= i < |ks| ensures ks[i] == ls[i] && (p[ks[i]].Null? <==> q[ls[i]].Null?) {
      CondTermAt(ks, p, start, i);
      CondTermAt(ls, q, start, i);
    }
    assert ks == ls;
    forall c ensures c in p.Keys <==> c in q.Keys {
      assert c in ks <==> c in ls;
    }
    forall c | c in p ensures p[c].Null? <==> q[c].Null? {
      assert c in ks;
      var i :| 0 <= i < |ks| && ks[i] == c;
    }
  }

  lemma WherePattern(p: Row, q: Row, start: nat)
    ensures WhereTerms(p, start) == WhereTerms(q, start) <==> SamePattern(p, q)
  {
    if SamePattern(p, q) {
      PatternTerms(KeySeq(p.Keys), p, q, start);
    } else if WhereTerms(p, start) == WhereTerms(q, start) {
      TermsPattern(p, q, start);
    }
  }

  lemma ColumnTermsKeys(a: set<string>, b: set<string>)
    requires ColumnTerms(KeySeq(a)) == ColumnTerms(KeySeq(b)) || SetTerms(KeySeq(a)) == SetTerms(KeySeq(b))
    ensures a == b
  {
    var ks, ls := KeySeq(a), KeySeq(b);
    assert |ks| == |ls| by {
      assert |ColumnTerms(ks)| == |ks| && |ColumnTerms(ls)| == |ls|;
      assert |SetTerms(ks)| == |ks| && |SetTerms(ls)| == |ls|;
    }
    forall i | 0 <= i < |ks| ensures ks[i] == ls[i] {
      if ColumnTerms(ks) == ColumnTerms(ls) {
        assert ColumnTerms(ks)[i] == ColumnTerms(ls)[i];
      } else {
        assert SetTerms(ks)[i] == SetTerms(ls)[i];
      }
    }
    assert ks == ls;
    forall c ensures c in a <==> c in b {
      assert c in ks <==> c in ls;
    }
  }

  /** What a text depends on: operation, table, assigned columns, predicate columns and their NULLs. */
  predicate SameForm(a: ChangeEvent, b: ChangeEvent) {
    && a.op == b.op && a.table == b.table
    && (!a.op.DeleteOp? ==> a.newRow.Keys == b.newRow.Keys)
    && (!a.op.InsertOp? ==> SamePattern(PredicateRow(a), PredicateRow(b)))
  }

  lemma {:induction false} SameStatementForm(a: ChangeEvent, b: ChangeEvent)
    ensures (&& Compile(a).Success? && Compile(b).Success? && a.table == b.table
             && Compile(a).value.stmt == Compile(b).value.stmt) ==> SameForm(a, b)
  {
    hide Compile, ColumnTerms, SetTerms, WhereTerms, WhereArgs, RowArgs, ParamTerms, SamePattern, NameParts, PredicateRow, KeySeq;
    if Compile(a).Failure? || Compile(b).Failure? || a.table != b.table { return; }
    if Compile(a).value.stmt != Compile(b).value.stmt { return; }
    CompiledShape(a);
    CompiledShape(b);
    var p, q := PredicateRow(a), PredicateRow(b);
    match a.op
    case InsertOp => ColumnTermsKeys(a.newRow.Keys, b.newRow.Keys);
    case UpdateOp =>
      ColumnTermsKeys(a.newRow.Keys, b.newRow.Keys);
      WherePattern(p, q, |KeySeq(a.newRow.Keys)| + 1);
    case DeleteOp => WherePattern(p, q, 1);
    case OtherOp(_) =>
  }

  lemma SameUpdate(name: seq<string>, r1: Row, p1: Row, r2: Row, p2: Row)
    requires r1.Keys == r2.Keys && SamePattern(p1, p2)
    ensures UpdateBound(name, r1, p1).stmt == UpdateBound(name, r2, p2).stmt
  {
    WherePattern(p1, p2, |KeySeq(r1.Keys)| + 1);
  }

  lemma SameFormStatement(a: ChangeEvent, b: ChangeEvent)
    requires Compile(a).Success? && Compile(b).Success? && SameForm(a, b)
    ensures Compile(a).value.stmt == Compile(b).value.stmt
  {
    CompiledShape(a);
    CompiledShape(b);
    match a.op
    case InsertOp =>
    case UpdateOp => SameUpdate(NameParts(a.table).value, a.newRow, PredicateRow(a), b.newRow, PredicateRow(b));
    case DeleteOp => WherePattern(PredicateRow(a), PredicateRow(b), 1);
    case OtherOp(_) =>
  }

  /** Two compiled events have the same text exactly when they have the same form. */
  lemma {:induction false} SameTextIff(a: ChangeEvent, b: ChangeEvent)
    ensures Compile(a).Success? && Compile(b).Success? ==>
      (Print(Compile(a).value.stmt) == Print(Compile(b).value.stmt) <==> SameForm(a, b))
  {
    hide Compile, Print, NameParts;
    if Compile(a).Failure? || Compile(b).Failure? { return; }
    var s, t := Compile(a).value.stmt, Compile(b).value.stmt;
    if SameForm(a, b) { SameFormStatement(a, b); }
    if Print(s) == Print(t) {
      CompiledWellFormed(a);
      CompiledWellFormed(b);
      PrintInjective(s, t);
      TableOfStatement(a);
      TableOfStatement(b);
      NamePartsInjective(a.table, b.table);
      SameStatementForm(a, b);
    }
  }

  lemma TableOfStatement(e: ChangeEvent)
    requires Compile(e).Success?
    ensures NameParts(e.table) == Some(Compile(e).value.stmt.table)
  {
    CompiledShape(e);
  }

  // ----- changes that are lost -----

  /** An update that carries no old row selects the rows that already are as it wants them:
      it never changes any table. */
  lemma UpdateWithoutOldRowChangesNothing(e: ChangeEvent, db: Db)
    requires e.op.UpdateOp? && e.oldRow == map[]
    requires Shaped(db) && Apply(e, db).Some?
    ensures Apply(e, db) == Some(db)
  {
    var name := NameParts(e.table).value;
    var rows := db[name].rows;
    forall i | 0 <= i < |rows| ensures Changed(e, db[name])[i] == rows[i] {
      if Agrees(rows[i], e.newRow) {
        assert rows[i] + e.newRow == rows[i];
      }
    }
    assert Changed(e, db[name]) == rows;
    assert db[name := db[name]] == db;
  }

  /** A row reduced to its key, as replica identity DEFAULT sends it: other columns are NULL. */
  function KeyOnly(r: Row, key: set<string>): Row {
    map c | c in r :: if c in key then r[c] else Null
  }

  /** A delete that names a row by its key alone removes that row exactly when
      all its other columns are NULL; it touches no other row. */
  lemma KeyOnlyDelete(e: ChangeEvent, db: Db, r: Row)
    requires e.op.DeleteOp? && Shaped(db) && Apply(e, db).Some?
    requires
      var t := db[NameParts(e.table).value];
      && t.key != {} && t.key <= t.columns && Admissible(t) && r in t.rows && e.oldRow == KeyOnly(r, t.key)
    ensures
      var name := NameParts(e.table).value;
      var t, rows' := db[name], Apply(e, db).value[name].rows;
      && (r !in rows' <==> forall c :: c in t.columns - t.key ==> r[c].Null?)
      && (forall x :: x in t.rows && x != r ==> x in rows')
  {
    var t := db[NameParts(e.table).value];
    assert e.oldRow != map[] by {
      var c :| c in t.key;
      assert c in e.oldRow;
    }
    assert Agrees(r, e.oldRow) <==> forall c :: c in t.columns - t.key ==> r[c].Null?;
    forall x | x in t.rows && x != r ensures !Agrees(x, e.oldRow) {
      OtherKey(t, x, r);
      if Agrees(x, e.oldRow) { KeyOnlyAgreement(t.key, x, r); }
    }
  }

  lemma OtherKey(t: Table, x: Row, r: Row)
    requires t.key != {} && Admissible(t) && x in t.rows && r in t.rows && x != r
    ensures KeyOf(t.key, x) != KeyOf(t.key, r)
  {
    var i :| 0 <= i < |t.rows| && t.rows[i] == x;
    var j :| 0 <= j < |t.rows| && t.rows[j] == r;
    if i < j {
      assert KeyOf(t.key, t.rows[i]) != KeyOf(t.key, t.rows[j]);
    } else {
      assert KeyOf(t.key, t.rows[j]) != KeyOf(t.key, t.rows[i]);
    }
  }

  lemma KeyOnlyAgreement(key: set<string>, x: Row, r: Row)
    requires key <= r.Keys && Agrees(x, KeyOnly(r, key))
    ensures KeyOf(key, x) == KeyOf(key, r)
  {
    forall c | c in key ensures c in x && x[c] == r[c] {
      assert c in KeyOnly(r, key);
    }
  }
}
