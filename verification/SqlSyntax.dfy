/** The SQL statements the publisher sends: syntax tree, text, and a reader for the text. */
module SqlSyntax {
  import opened Wrappers
  import opened Text

  /** One element of a column list, a value list, a SET list or a WHERE conjunction. */
  datatype Term =
    | Column(name: string)              // "name"
    | Param(index: nat)                 // $index
    | Equals(name: string, index: nat)  // "name" = $index
    | IsNull(name: string)              // "name" IS NULL

  datatype Stmt =
    | Insert(table: seq<string>, columns: seq<Term>, values: seq<Term>)
    | Update(table: seq<string>, sets: seq<Term>, conds: seq<Term>)
    | Delete(table: seq<string>, conds: seq<Term>)

  /** What the grammar demands: one or two name parts and no empty list. Identifiers are arbitrary. */
  predicate WellFormed(s: Stmt) {
    && 1 <= |s.table| <= 2
    && match s
       case Insert(_, columns, values) => columns != [] && values != []
       case Update(_, sets, conds) => sets != [] && conds != []
       case Delete(_, conds) => conds != []
  }

  // ----- text -----

  function Escape(id: string): string {
    if id == "" then ""
    else (if id[0] == '"' then "\"\"" else [id[0]]) + Escape(id[1..])
  }

  function Quote(id: string): string { "\"" + Escape(id) + "\"" }

  function QuoteAll(names: seq<string>): (r: seq<string>)
    ensures |r| == |names|
  {
    seq(|names|, i requires 0 <= i < |names| => Quote(names[i]))
  }

  function PrintTable(parts: seq<string>): string { Join(QuoteAll(parts), ".") }

  function ParamText(k: nat): string { "$" + Itoa(k) }

  function EqualsText(name: string, k: nat): string { Quote(name) + " = $" + Itoa(k) }

  function IsNullText(name: string): string { Quote(name) + " IS NULL" }

  function PrintTerm(t: Term): string {
    match t
    case Column(name) => Quote(name)
    case Param(k) => ParamText(k)
    case Equals(name, k) => EqualsText(name, k)
    case IsNull(name) => IsNullText(name)
  }

  function PrintTerms(ts: seq<Term>): (r: seq<string>)
    ensures |r| == |ts|
  {
    if ts == [] then [] else [PrintTerm(ts[0])] + PrintTerms(ts[1..])
  }

  function InsertText(table: string, columns: seq<string>, values: seq<string>): string {
    "INSERT INTO " + table + " (" + Join(columns, ", ") + ") VALUES (" + Join(values, ", ") + ")"
  }

  function UpdateText(table: string, sets: seq<string>, condition: string): string {
    "UPDATE " + table + " SET " + Join(sets, ", ") + " WHERE " + condition
  }

  function DeleteText(table: string, condition: string): string {
    "DELETE FROM " + table + " WHERE " + condition
  }

  function PrintConds(conds: seq<Term>): string { Join(PrintTerms(conds), " AND ") }

  function Print(s: Stmt): string {
    match s
    case Insert(table, columns, values) => InsertText(PrintTable(table), PrintTerms(columns), PrintTerms(values))
    case Update(table, sets, conds) => UpdateText(PrintTable(table), PrintTerms(sets), PrintConds(conds))
    case Delete(table, conds) => DeleteText(PrintTable(table), PrintConds(conds))
  }

  // ----- reader -----

  datatype Read<+T> = Got(value: T, rest: string) | Stuck

  function After(lit: string, s: string): (r: Option<string>)
    ensures r.Some? ==> s == lit + r.value
  {
    if lit <= s then Some(s[|lit|..]) else None
  }

  /** Reads the inside of a quoted identifier up to its closing quote; `""` stands for one quote. */
  function ReadBody(s: string): (r: Read<string>)
    ensures r.Got? ==> |r.rest| < |s|
  {
    if s == "" then Stuck
    else if s[0] == '"' then
      if |s| > 1 && s[1] == '"' then
        match ReadBody(s[2..])
        case Got(id, rest) => Got("\"" + id, rest)
        case Stuck => Stuck
      else Got("", s[1..])
    else
      match ReadBody(s[1..])
      case Got(id, rest) => Got([s[0]] + id, rest)
      case Stuck => Stuck
  }

  function ReadIdent(s: string): (r: Read<string>)
    ensures r.Got? ==> |r.rest| < |s|
  {
    if s != "" && s[0] == '"' then ReadBody(s[1..]) else Stuck
  }

  function ReadTable(s: string): (r: Read<seq<string>>)
    ensures r.Got? ==> |r.rest| < |s|
  {
    match ReadIdent(s)
    case Stuck => Stuck
    case Got(first, rest) =>
      if rest != "" && rest[0] == '.' then
        match ReadIdent(rest[1..])
        case Stuck => Stuck
        case Got(second, rest') => Got([first, second], rest')
      else Got([first], rest)
  }

  function ReadNumber(s: string): (r: Read<nat>)
    ensures r.Got? ==> |r.rest| < |s|
  {
    if s != "" && IsDigit(s[0]) then
      var (n, rest) := Atoi(s, 0);
      AtoiShrinks(s, 0);
      Got(n, rest)
    else Stuck
  }

  lemma {:induction false} AtoiShrinks(s: string, acc: nat)
    ensures |Atoi(s, acc).1| <= |s|
    ensures s != "" && IsDigit(s[0]) ==> |Atoi(s, acc).1| < |s|
  {
    if s != "" && IsDigit(s[0]) {
      AtoiShrinks(s[1..], acc * 10 + (s[0] as int - '0' as int));
    }
  }

  function ReadTerm(s: string): (r: Read<Term>)
    ensures r.Got? ==> |r.rest| < |s|
  {
    if s != "" && s[0] == '$' then
      match ReadNumber(s[1..])
      case Got(k, rest) => Got(Param(k), rest)
      case Stuck => Stuck
    else
      match ReadIdent(s)
      case Stuck => Stuck
      case Got(name, rest) =>
        match After(" = $", rest)
        case Some(tail) =>
          (match ReadNumber(tail)
           case Got(k, rest') => Got(Equals(name, k), rest')
           case Stuck => Stuck)
        case None =>
          match After(" IS NULL", rest)
          case Some(tail) => Got(IsNull(name), tail)
          case None => Got(Column(name), rest)
  }

  function ReadTerms(sep: string, s: string): (r: Read<seq<Term>>)
    ensures r.Got? ==> |r.rest| < |s|
    decreases |s|
  {
    match ReadTerm(s)
    case Stuck => Stuck
    case Got(t, rest) =>
      match After(sep, rest)
      case None => Got([t], rest)
      case Some(tail) =>
        match ReadTerms(sep, tail)
        case Stuck => Stuck
        case Got(ts, rest') => Got([t] + ts, rest')
  }

  function ReadConds(s: string): Option<seq<Term>> {
    match ReadTerms(" AND ", s)
    case Got(conds, rest) => if rest == "" then Some(conds) else None
    case Stuck => None
  }

  function ParseInsert(s: string): Option<Stmt> {
    match ReadTable(s)
    case Stuck => None
    case Got(table, rest) =>
      match After(" (", rest)
      case None => None
      case Some(s1) =>
        match ReadTerms(", ", s1)
        case Stuck => None
        case Got(columns, rest1) =>
          match After(") VALUES (", rest1)
          case None => None
          case Some(s2) =>
            match ReadTerms(", ", s2)
            case Stuck => None
            case Got(values, rest2) => if rest2 == ")" then Some(Insert(table, columns, values)) else None
  }

  function ParseUpdate(s: string): Option<Stmt> {
    match ReadTable(s)
    case Stuck => None
    case Got(table, rest) =>
      match After(" SET ", rest)
      case None => None
      case Some(s1) =>
        match ReadTerms(", ", s1)
        case Stuck => None
        case Got(sets, rest1) =>
          match After(" WHERE ", rest1)
          case None => None
          case Some(s2) =>
            match ReadConds(s2)
            case None => None
            case Some(conds) => Some(Update(table, sets, conds))
  }

  function ParseDelete(s: string): Option<Stmt> {
    match ReadTable(s)
    case Stuck => None
    case Got(table, rest) =>
      match After(" WHERE ", rest)
      case None => None
      case Some(s1) =>
        match ReadConds(s1)
        case None => None
        case Some(conds) => Some(Delete(table, conds))
  }

  function Parse(s: string): Option<Stmt> {
    match After("INSERT INTO ", s)
    case Some(rest) => ParseInsert(rest)
    case None =>
      match After("UPDATE ", s)
      case Some(rest) => ParseUpdate(rest)
      case None =>
        match After("DELETE FROM ", s)
        case Some(rest) => ParseDelete(rest)
        case None => None
  }

  // ----- round trip -----

  lemma AfterLiteral(lit: string, rest: string)
    ensures After(lit, lit + rest) == Some(rest)
  {
    assert lit <= lit + rest;
    assert (lit + rest)[|lit|..] == rest;
  }

  lemma {:induction false} BodyRoundTrip(id: string, rest: string)
    requires rest == "" || rest[0] != '"'
    ensures ReadBody(Escape(id) + "\"" + rest) == Got(id, rest)
  {
    var s := Escape(id) + "\"" + rest;
    if id == "" {
      assert s == "\"" + rest;
      assert s[1..] == rest;
    } else {
      BodyRoundTrip(id[1..], rest);
      var tail := Escape(id[1..]) + "\"" + rest;
      assert id == [id[0]] + id[1..];
      if id[0] == '"' {
        assert s == "\"\"" + tail;
        assert s[2..] == tail;
      } else {
        assert s == [id[0]] + tail;
        assert s[1..] == tail;
      }
    }
  }

  lemma IdentRoundTrip(id: string, rest: string)
    requires rest == "" || rest[0] != '"'
    ensures ReadIdent(Quote(id) + rest) == Got(id, rest)
  {
    BodyRoundTrip(id, rest);
    assert (Quote(id) + rest)[1..] == Escape(id) + "\"" + rest;
  }

  lemma Reassociate(a: string, b: string, c: string, d: string)
    ensures a + b + c + d == a + (b + (c + d))
    ensures b + c + d == b + (c + d)
    ensures a + b + d == a + (b + d)
  {
  }

  /** The text of a list statement, regrouped so that each piece is followed by all that comes after it. */
  lemma Regroup(a: string, t: string, b: string, c: string, d: string, v: string, e: string)
    ensures a + t + b + c + d + v + e == a + (t + (b + (c + (d + (v + e)))))
  {
    Reassociate(a + t + b + c, d, v, e);
    Reassociate(a + t, b, c, d + (v + e));
    Reassociate("", a, t, b + (c + (d + (v + e))));
  }

  lemma TableRoundTrip(parts: seq<string>, rest: string)
    requires 1 <= |parts| <= 2
    requires rest != "" && rest[0] == ' '
    ensures ReadTable(PrintTable(parts) + rest) == Got(parts, rest)
  {
    if |parts| == 1 {
      assert PrintTable(parts) == Quote(parts[0]);
      assert parts == [parts[0]];
      IdentRoundTrip(parts[0], rest);
    } else {
      var tail := "." + (Quote(parts[1]) + rest);
      var quoted := QuoteAll(parts);
      assert quoted[0] == Quote(parts[0]) && quoted[1..] == [Quote(parts[1])];
      assert Join([Quote(parts[1])], ".") == Quote(parts[1]);
      Reassociate(Quote(parts[0]), ".", Quote(parts[1]), rest);
      IdentRoundTrip(parts[0], tail);
      assert tail[1..] == Quote(parts[1]) + rest;
      IdentRoundTrip(parts[1], rest);
      assert parts == [parts[0], parts[1]];
    }
  }

  /** What may follow a term: its reading cannot run past its end. */
  predicate Stops(rest: string) {
    && (rest == "" || rest[0] in {' ', ',', ')'})
    && After(" = $", rest).None?
    && After(" IS NULL", rest).None?
  }

  lemma NumberRoundTrip(k: nat, rest: string)
    requires rest == "" || !IsDigit(rest[0])
    ensures ReadNumber(Itoa(k) + rest) == Got(k, rest)
  {
    AtoiItoa(k, rest);
  }

  lemma EqualsRoundTrip(name: string, k: nat, rest: string)
    requires rest == "" || !IsDigit(rest[0])
    ensures ReadTerm(Quote(name) + (" = $" + (Itoa(k) + rest))) == Got(Equals(name, k), rest)
  {
    var tail := " = $" + (Itoa(k) + rest);
    IdentRoundTrip(name, tail);
    AfterLiteral(" = $", Itoa(k) + rest);
    NumberRoundTrip(k, rest);
  }

  lemma IsNullRoundTrip(name: string, rest: string)
    ensures ReadTerm(Quote(name) + (" IS NULL" + rest)) == Got(IsNull(name), rest)
  {
    var tail := " IS NULL" + rest;
    IdentRoundTrip(name, tail);
    AfterLiteral(" IS NULL", rest);
    assert tail[1] == 'I';
  }

  lemma ParamRoundTrip(k: nat, rest: string)
    requires rest == "" || !IsDigit(rest[0])
    ensures ReadTerm("$" + (Itoa(k) + rest)) == Got(Param(k), rest)
  {
    assert ("$" + (Itoa(k) + rest))[1..] == Itoa(k) + rest;
    NumberRoundTrip(k, rest);
  }

  lemma TermRoundTrip(t: Term, rest: string)
    requires Stops(rest)
    ensures ReadTerm(PrintTerm(t) + rest) == Got(t, rest)
  {
    match t
    case Column(name) =>
      IdentRoundTrip(name, rest);
    case Param(k) =>
      Reassociate("", "$", Itoa(k), rest);
      ParamRoundTrip(k, rest);
    case Equals(name, k) =>
      Reassociate(Quote(name), " = $", Itoa(k), rest);
      EqualsRoundTrip(name, k, rest);
    case IsNull(name) =>
      Reassociate(Quote(name), " IS NULL", "", rest);
      IsNullRoundTrip(name, rest);
  }

  lemma JoinTerms(sep: string, ts: seq<Term>, rest: string)
    requires |ts| > 1
    ensures Join(PrintTerms(ts), sep) + rest
            == PrintTerm(ts[0]) + (sep + (Join(PrintTerms(ts[1..]), sep) + rest))
  {
    assert PrintTerms(ts)[1..] == PrintTerms(ts[1..]);
    assert Join(PrintTerms(ts), sep) == PrintTerm(ts[0]) + sep + Join(PrintTerms(ts[1..]), sep);
  }

  lemma SeparatorStops(sep: string, tail: string)
    requires sep == ", " || sep == " AND "
    ensures Stops(sep + tail)
  {
    assert (sep + tail)[0] == sep[0] && (sep + tail)[1] == sep[1];
  }

  lemma {:induction false} TermsRoundTrip(sep: string, ts: seq<Term>, rest: string)
    requires ts != []
    requires sep == ", " || sep == " AND "
    requires Stops(rest) && After(sep, rest).None?
    ensures ReadTerms(sep, Join(PrintTerms(ts), sep) + rest) == Got(ts, rest)
  {
    if |ts| == 1 {
      assert Join(PrintTerms(ts), sep) == PrintTerm(ts[0]);
      TermRoundTrip(ts[0], rest);
      assert ts == [ts[0]];
    } else {
      var tail := Join(PrintTerms(ts[1..]), sep) + rest;
      JoinTerms(sep, ts, rest);
      SeparatorStops(sep, tail);
      TermRoundTrip(ts[0], sep + tail);
      AfterLiteral(sep, tail);
      TermsRoundTrip(sep, ts[1..], rest);
      assert ts == [ts[0]] + ts[1..];
    }
  }

  lemma InsertRoundTrip(s: Stmt)
    requires WellFormed(s) && s.Insert?
    ensures ParseInsert(Print(s)[|"INSERT INTO "|..]) == Some(s)
    ensures After("INSERT INTO ", Print(s)).Some?
  {
    var valuesText := Join(PrintTerms(s.values), ", ") + ")";
    var columnsText := Join(PrintTerms(s.columns), ", ") + (") VALUES (" + valuesText);
    var tableText := PrintTable(s.table) + (" (" + columnsText);
    Regroup("INSERT INTO ", PrintTable(s.table), " (", Join(PrintTerms(s.columns), ", "), ") VALUES (",
            Join(PrintTerms(s.values), ", "), ")");
    AfterLiteral("INSERT INTO ", tableText);
    assert Print(s)[|"INSERT INTO "|..] == tableText;
    TableRoundTrip(s.table, " (" + columnsText);
    AfterLiteral(" (", columnsText);
    TermsRoundTrip(", ", s.columns, ") VALUES (" + valuesText);
    AfterLiteral(") VALUES (", valuesText);
    TermsRoundTrip(", ", s.values, ")");
  }

  lemma UpdateRoundTrip(s: Stmt)
    requires WellFormed(s) && s.Update?
    ensures ParseUpdate(Print(s)[|"UPDATE "|..]) == Some(s)
    ensures After("UPDATE ", Print(s)).Some?
  {
    var condsText := Join(PrintTerms(s.conds), " AND ");
    var setsText := Join(PrintTerms(s.sets), ", ") + (" WHERE " + condsText);
    var tableText := PrintTable(s.table) + (" SET " + setsText);
    Regroup("UPDATE ", PrintTable(s.table), " SET ", Join(PrintTerms(s.sets), ", "), " WHERE ", condsText, "");
    assert condsText + "" == condsText;
    assert Print(s) + "" == Print(s);
    AfterLiteral("UPDATE ", tableText);
    assert Print(s)[|"UPDATE "|..] == tableText;
    TableRoundTrip(s.table, " SET " + setsText);
    AfterLiteral(" SET ", setsText);
    var rest := " WHERE " + condsText;
    assert rest[1] == 'W';
    TermsRoundTrip(", ", s.sets, rest);
    AfterLiteral(" WHERE ", condsText);
    TermsRoundTrip(" AND ", s.conds, "");
  }

  lemma DeleteRoundTrip(s: Stmt)
    requires WellFormed(s) && s.Delete?
    ensures ParseDelete(Print(s)[|"DELETE FROM "|..]) == Some(s)
    ensures After("DELETE FROM ", Print(s)).Some?
  {
    var condsText := Join(PrintTerms(s.conds), " AND ");
    var tableText := PrintTable(s.table) + (" WHERE " + condsText);
    assert Print(s) == "DELETE FROM " + tableText;
    AfterLiteral("DELETE FROM ", tableText);
    assert Print(s)[|"DELETE FROM "|..] == tableText;
    TableRoundTrip(s.table, " WHERE " + condsText);
    AfterLiteral(" WHERE ", condsText);
    TermsRoundTrip(" AND ", s.conds, "");
    assert condsText + "" == condsText;
  }

  /** Reading the text of a statement gives the statement back, whatever characters its names hold. */
  lemma PrintParse(s: Stmt)
    requires WellFormed(s)
    ensures Parse(Print(s)) == Some(s)
  {
    var text := Print(s);
    match s
    case Insert(_, _, _) =>
      InsertRoundTrip(s);
    case Update(_, _, _) =>
      UpdateRoundTrip(s);
      assert text[0] == 'U';
    case Delete(_, _) =>
      DeleteRoundTrip(s);
      assert text[0] == 'D';
  }

  /** Two statements with the same text are the same statement. */
  lemma PrintInjective(a: Stmt, b: Stmt)
    requires WellFormed(a) && WellFormed(b)
    requires Print(a) == Print(b)
    ensures a == b
  {
    PrintParse(a);
    PrintParse(b);
  }

  /** The parameter numbers of a term list, read left to right. */
  function TermParams(ts: seq<Term>): seq<nat> {
    if ts == [] then []
    else (if ts[0].Param? || ts[0].Equals? then [ts[0].index] else []) + TermParams(ts[1..])
  }

  /** The parameter numbers of a statement in the order of its text. */
  function Placeholders(s: Stmt): seq<nat> {
    match s
    case Insert(_, columns, values) => TermParams(columns) + TermParams(values)
    case Update(_, sets, conds) => TermParams(sets) + TermParams(conds)
    case Delete(_, conds) => TermParams(conds)
  }
}
