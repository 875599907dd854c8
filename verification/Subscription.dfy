/** Decoding the logical replication stream into change events. */
module Subscription {
  import opened Wrappers
  import opened Text
  import opened Rows

  /** One column of a tuple message: absent, NULL, unchanged TOAST, or text. */
  datatype Column = Missing | NullColumn | Unchanged | Data(text: string)

  type Tuple = seq<Column>

  datatype Message =
    | Keepalive(replyRequested: bool)
    | BeginMessage(finalLsn: nat, commitTime: nat)
    | RelationMessage(id: nat, namespace: string, name: string, columns: seq<Option<string>>)
    | InsertMessage(id: nat, tuple: Option<Tuple>)
    | UpdateMessage(id: nat, oldTuple: Option<Tuple>, newTuple: Option<Tuple>)
    | DeleteMessage(id: nat, oldTuple: Option<Tuple>)
    | CommitMessage(commitLsn: nat)
    | OtherMessage

  datatype RelationInfo = RelationInfo(table: string, columns: seq<string>)

  /** The column names of a relation message: a column that is nil or has no name gets the empty name. */
  function ColumnNames(columns: seq<Option<string>>): (r: seq<string>)
    ensures |r| == |columns|
  {
    seq(|columns|, i requires 0 <= i < |columns| => match columns[i] case None => "" case Some(name) => name)
  }

  const UNCHANGED_TOAST := "unchanged_toast"

  /** Go's unicode.IsSpace. */
  predicate IsSpace(c: char) {
    || c in {'\t', '\n', '\r', ' ', '\U{000B}', '\U{000C}', '\U{0085}', '\U{00A0}'}
    || c in {'\U{1680}', '\U{2028}', '\U{2029}', '\U{202F}', '\U{205F}', '\U{3000}'}
    || '\U{2000}' <= c <= '\U{200A}'
  }

  predicate Blank(s: string) { forall i :: 0 <= i < |s| ==> IsSpace(s[i]) }

  // ----- tuples -----

  function ColumnName(columns: seq<string>, i: nat): string {
    if i < |columns| && !Blank(columns[i]) then columns[i] else "col_" + Itoa(i + 1)
  }

  function ColumnValue(c: Column): Value {
    match c
    case Data(text) => Str(text)
    case Unchanged => Str(UNCHANGED_TOAST)
    case _ => Null
  }

  /** The row of the first `n` columns; a later column of the same name wins. */
  function RowUpTo(columns: seq<string>, tuple: Tuple, n: nat): Row
    requires n <= |tuple|
  {
    if n == 0 then map[]
    else if tuple[n - 1].Missing? then RowUpTo(columns, tuple, n - 1)
    else RowUpTo(columns, tuple, n - 1)[ColumnName(columns, n - 1) := ColumnValue(tuple[n - 1])]
  }

  function TupleRow(columns: seq<string>, tuple: Option<Tuple>): Row {
    if tuple.None? then map[] else RowUpTo(columns, tuple.value, |tuple.value|)
  }

  method ExtractTuple(tuple: Option<Tuple>, columns: seq<string>) returns (row: Row)
    ensures row == TupleRow(columns, tuple)
  {
    row := map[];
    if tuple.None? { return; }
    for i := 0 to |tuple.value|
      invariant row == RowUpTo(columns, tuple.value, i)
    {
      var columnValue := tuple.value[i];
      if columnValue.Missing? { continue; }
      var columnName := "col_" + Itoa(i + 1);
      if i < |columns| && !Blank(columns[i]) {
        columnName := columns[i];
      }
      match columnValue
      case NullColumn => row := row[columnName := Null];
      case Unchanged => row := row[columnName := Str(UNCHANGED_TOAST)];
      case Data(text) => row := row[columnName := Str(text)];
    }
  }

  /** A tuple whose columns have no names, or whose relation is not known, keeps all its columns apart: the i-th one
      is `col_i`. */
  lemma {:induction false} UnnamedColumns(columns: seq<string>, tuple: Tuple, n: nat, i: nat)
    requires forall k :: 0 <= k < |columns| ==> Blank(columns[k])
    requires i < n <= |tuple| && forall k :: 0 <= k < |tuple| ==> !tuple[k].Missing?
    ensures
      var row := RowUpTo(columns, tuple, n);
      "col_" + Itoa(i + 1) in row && row["col_" + Itoa(i + 1)] == ColumnValue(tuple[i])
    decreases n
  {
    if i < n - 1 {
      UnnamedColumns(columns, tuple, n - 1, i);
      if Itoa(i + 1) == Itoa(n) { ItoaInjective(i + 1, n); }
      assert ("col_" + Itoa(i + 1))[4..] == Itoa(i + 1) && ("col_" + Itoa(n))[4..] == Itoa(n);
    }
  }

  lemma ItoaInjective(a: nat, b: nat)
    requires Itoa(a) == Itoa(b)
    ensures a == b
  {
    AtoiItoa(a, "");
    AtoiItoa(b, "");
  }

  // ----- the stream -----

  datatype Decoder = Decoder(
    txLsn: nat, txTime: nat, relations: map<nat, RelationInfo>, out: seq<ChangeEvent>)

  function RelationTable(d: Decoder, id: nat): string {
    if id in d.relations then d.relations[id].table else ""
  }

  function RelationColumns(d: Decoder, id: nat): seq<string> {
    if id in d.relations then d.relations[id].columns else []
  }

  /** The event a change message stands for in the decoder's state. */
  function EventOf(d: Decoder, id: nat, op: Operation, oldTuple: Option<Tuple>, newTuple: Option<Tuple>): ChangeEvent {
    ChangeEvent(d.txLsn, d.txTime, RelationTable(d, id), op,
                TupleRow(RelationColumns(d, id), oldTuple), TupleRow(RelationColumns(d, id), newTuple))
  }

  function Decode(d: Decoder, m: Message): Decoder {
    match m
    case BeginMessage(lsn, time) => d.(txLsn := lsn, txTime := time)
    case RelationMessage(id, namespace, name, columns) =>
      d.(relations := d.relations[id := RelationInfo(namespace + "." + name, ColumnNames(columns))])
    case InsertMessage(id, tuple) => d.(out := d.out + [EventOf(d, id, InsertOp, None, tuple)])
    case UpdateMessage(id, oldTuple, newTuple) => d.(out := d.out + [EventOf(d, id, UpdateOp, oldTuple, newTuple)])
    case DeleteMessage(id, oldTuple) => d.(out := d.out + [EventOf(d, id, DeleteOp, oldTuple, None)])
    case CommitMessage(lsn) => d.(txLsn := lsn)
    case _ => d
  }

  function DecodeAll(d: Decoder, ms: seq<Message>): Decoder
    decreases |ms|
  {
    if ms == [] then d else Decode(DecodeAll(d, ms[..|ms| - 1]), ms[|ms| - 1])
  }

  /** What is acknowledged after a stream whose status updates went out as `sent` tells. */
  function AckedAfter(ms: seq<Message>, sent: seq<bool>, floor: nat): nat
    requires |sent| == |ms|
    decreases |ms|
  {
    if ms == [] then floor
    else
      var n := |ms| - 1;
      var before := AckedAfter(ms[..n], sent[..n], floor);
      if ms[n].CommitMessage? && sent[n] && ms[n].commitLsn > before then ms[n].commitLsn else before
  }

  lemma AckedStep(ms: seq<Message>, i: nat, sent: seq<bool>, b: bool, floor: nat)
    requires i < |ms| && |sent| == i
    ensures
      var before := AckedAfter(ms[..i], sent, floor);
      AckedAfter(ms[..i + 1], sent + [b], floor)
      == if ms[i].CommitMessage? && b && ms[i].commitLsn > before then ms[i].commitLsn else before
  {
    assert ms[..i + 1][..i] == ms[..i] && (sent + [b])[..i] == sent;
  }

  /** The acknowledged position is the highest commit whose update went out, or the one before the stream. */
  lemma {:induction false} AckedIsHighest(ms: seq<Message>, sent: seq<bool>, floor: nat)
    requires |sent| == |ms|
    ensures
      var a := AckedAfter(ms, sent, floor);
      && floor <= a
      && (forall i :: 0 <= i < |ms| && ms[i].CommitMessage? && sent[i] ==> ms[i].commitLsn <= a)
      && (a == floor || exists i :: 0 <= i < |ms| && ms[i].CommitMessage? && sent[i] && ms[i].commitLsn == a)
    decreases |ms|
  {
    if ms != [] {
      var n := |ms| - 1;
      AckedIsHighest(ms[..n], sent[..n], floor);
      var b := AckedAfter(ms[..n], sent[..n], floor);
      if b != floor {
        var i :| 0 <= i < n && ms[..n][i].CommitMessage? && sent[..n][i] && ms[..n][i].commitLsn == b;
        assert ms[i].CommitMessage? && sent[i] && ms[i].commitLsn == b;
      }
      forall i | 0 <= i < |ms| && ms[i].CommitMessage? && sent[i] ensures ms[i].commitLsn <= AckedAfter(ms, sent, floor) {
        if i < n { assert ms[..n][i].CommitMessage? && sent[..n][i]; }
      }
    }
  }

  /** The messages that the stream answers with a status update: commits, and keepalives that ask for a reply. */
  predicate AsksForStatus(m: Message) { m.CommitMessage? || (m.Keepalive? && m.replyRequested) }

  /** The subscriber with its connection: unless that is reliable, any request may fail. */
  class Subscriber {
    const reliable: bool
    var connected: bool
    var streaming: bool
    var relationByID: map<nat, RelationInfo>
    var lastAckedLSN: nat

    constructor (reliable: bool)
      ensures this.reliable == reliable
      ensures !connected && !streaming && relationByID == map[] && lastAckedLSN == 0
    {
      this.reliable := reliable;
      connected, streaming, relationByID, lastAckedLSN := false, false, map[], 0;
    }

    /** Forgets relations and the acknowledged position; nothing changes on failure. */
    method Connect() returns (ok: bool)
      modifies this
      ensures streaming == old(streaming)
      ensures ok ==> !old(connected) && connected && relationByID == map[] && lastAckedLSN == 0
      ensures !ok ==> connected == old(connected) && relationByID == old(relationByID)
                      && lastAckedLSN == old(lastAckedLSN)
      ensures reliable ==> ok == !old(connected)
    {
      if connected { return false; }
      ok := *;
      ok := ok || reliable;
      if !ok { return; }
      connected, relationByID, lastAckedLSN := true, map[], 0;
    }

    /** Starts the stream at the acknowledged position, which is 0 after Connect, whatever was saved. */
    method Subscribe(slotName: string, configured: string) returns (start: Option<nat>)
      modifies this`streaming
      ensures start.Some? ==> connected && !old(streaming) && streaming && start.value == lastAckedLSN
      ensures start.Some? ==> !Blank(slotName) || !Blank(configured)
      ensures start.None? ==> streaming == old(streaming)
      ensures reliable ==> (start.Some? <==> connected && !old(streaming) && (!Blank(slotName) || !Blank(configured)))
    {
      if !connected || streaming { return None; }
      if Blank(slotName) && Blank(configured) { return None; }
      var published: bool := *;
      var started: bool := *;
      if !reliable && (!published || !started) { return None; }
      streaming := true;
      start := Some(lastAckedLSN);
    }

    method Close() returns (ok: bool)
      modifies this`connected, this`streaming
      ensures !connected && !streaming && (!old(connected) || reliable ==> ok)
    {
      ok := *;
      ok := ok || !connected || reliable;
      connected, streaming := false, false;
    }

    /** Sends a status update, which may fail; the acknowledged position never goes back. */
    method Acknowledge(lsn: nat) returns (ok: bool)
      modifies this`lastAckedLSN
      ensures ok ==> connected
      ensures lastAckedLSN == if ok && lsn > old(lastAckedLSN) then lsn else old(lastAckedLSN)
      ensures reliable ==> ok == connected
    {
      if !connected { return false; }
      var sent: bool := *;
      if !sent && !reliable { return false; }
      if lsn > lastAckedLSN { lastAckedLSN := lsn; }
      ok := true;
    }

    method StoreRelation(id: nat, namespace: string, name: string, columnsField: seq<Option<string>>)
      modifies this`relationByID
      ensures relationByID == old(relationByID)[id := RelationInfo(namespace + "." + name, ColumnNames(columnsField))]
    {
      var columns: seq<string> := [];
      for i := 0 to |columnsField|
        invariant columns == ColumnNames(columnsField[..i])
      {
        match columnsField[i]
        case None => columns := columns + [""];
        case Some(columnName) => columns := columns + [columnName];
      }
      assert columnsField[..|columnsField|] == columnsField;
      relationByID := relationByID[id := RelationInfo(namespace + "." + name, columns)];
    }

    ghost function State(txLsn: nat, txTime: nat, out: seq<ChangeEvent>): Decoder
      reads this
    {
      Decoder(txLsn, txTime, relationByID, out)
    }

    /** One turn of the stream's loop: what a message does to the transaction's LSN and time and what it emits. A
        commit is acknowledged as soon as it is seen, a keepalive answered with what is acknowledged already. */
    method Handle(m: Message, lsn: nat, time: nat, emitted: seq<ChangeEvent>)
      returns (txLSN: nat, txTime: nat, out: seq<ChangeEvent>, answered: bool)
      modifies this`relationByID, this`lastAckedLSN
      ensures State(txLSN, txTime, out) == Decode(old(State(lsn, time, emitted)), m)
      ensures lastAckedLSN == if m.CommitMessage? && answered && m.commitLsn > old(lastAckedLSN) then m.commitLsn
                              else old(lastAckedLSN)
      ensures answered ==> connected && AsksForStatus(m)
      ensures reliable && connected ==> answered == AsksForStatus(m)
    {
      txLSN, txTime, out, answered := lsn, time, emitted, false;
      match m
      case Keepalive(replyRequested) =>
        if replyRequested { answered := Acknowledge(lastAckedLSN); }
      case BeginMessage(finalLsn, commitTime) =>
        txLSN, txTime := finalLsn, commitTime;
      case RelationMessage(id, namespace, name, columns) =>
        StoreRelation(id, namespace, name, columns);
      case InsertMessage(id, tuple) =>
        var newRow := ExtractTuple(tuple, Columns(id));
        out := out + [ChangeEvent(txLSN, txTime, RelationName(id), InsertOp, map[], newRow)];
      case UpdateMessage(id, oldTuple, newTuple) =>
        var oldRow := ExtractTuple(oldTuple, Columns(id));
        var newRow := ExtractTuple(newTuple, Columns(id));
        out := out + [ChangeEvent(txLSN, txTime, RelationName(id), UpdateOp, oldRow, newRow)];
      case DeleteMessage(id, oldTuple) =>
        var oldRow := ExtractTuple(oldTuple, Columns(id));
        out := out + [ChangeEvent(txLSN, txTime, RelationName(id), DeleteOp, oldRow, map[])];
      case CommitMessage(commitLsn) =>
        txLSN := commitLsn;
        answered := Acknowledge(txLSN);
      case OtherMessage =>
    }

    /** Consumes the messages received before the stream ends and emits their events. `sent` tells which of them
        were answered with a status update that went out. */
    method ConsumeStream(messages: seq<Message>) returns (out: seq<ChangeEvent>, ghost sent: seq<bool>)
      modifies this`relationByID, this`lastAckedLSN
      ensures
        var d := DecodeAll(Decoder(0, 0, old(relationByID), []), messages);
        out == d.out && relationByID == d.relations
      ensures |sent| == |messages| && lastAckedLSN == AckedAfter(messages, sent, old(lastAckedLSN))
      ensures forall i :: 0 <= i < |sent| && sent[i] ==> connected && AsksForStatus(messages[i])
      ensures reliable && connected ==> forall i :: 0 <= i < |sent| ==> sent[i] == AsksForStatus(messages[i])
    {
      hide Decode, TupleRow;
      var txLSN: nat, txTime: nat := 0, 0;
      out, sent := [], [];
      for i := 0 to |messages|
        invariant State(txLSN, txTime, out) == DecodeAll(Decoder(0, 0, old(relationByID), []), messages[..i])
        invariant |sent| == i
        invariant lastAckedLSN == AckedAfter(messages[..i], sent, old(lastAckedLSN))
        invariant forall k :: 0 <= k < i && sent[k] ==> connected && AsksForStatus(messages[k])
        invariant reliable && connected ==> forall k :: 0 <= k < i ==> sent[k] == AsksForStatus(messages[k])
      {
        assert messages[..i + 1][..i] == messages[..i];
        var answered;
        txLSN, txTime, out, answered := Handle(messages[i], txLSN, txTime, out);
        AckedStep(messages, i, sent, answered, old(lastAckedLSN));
        sent := sent + [answered];
      }
      assert messages[..|messages|] == messages;
    }

    function RelationName(id: nat): string
      reads this
    {
      if id in relationByID then relationByID[id].table else ""
    }

    function Columns(id: nat): seq<string>
      reads this
    {
      if id in relationByID then relationByID[id].columns else []
    }
  }

  // ----- events the publisher cannot use -----

  predicate Present(tuple: Tuple, i: nat) { i < |tuple| && !tuple[i].Missing? }

  lemma {:induction false} RowColumns(columns: seq<string>, tuple: Tuple, n: nat, c: string)
    requires n <= |tuple|
    ensures c in RowUpTo(columns, tuple, n) <==> exists i :: 0 <= i < n && Present(tuple, i) && ColumnName(columns, i) == c
  {
    hide ColumnName, ColumnValue;
    if n > 0 {
      RowColumns(columns, tuple, n - 1, c);
      if Present(tuple, n - 1) && ColumnName(columns, n - 1) == c { assert c in RowUpTo(columns, tuple, n); }
    }
  }

  /** The tuple carries a column. */
  ghost predicate HasColumn(tuple: Option<Tuple>) { tuple.Some? && exists i :: Present(tuple.value, i) }

  /** Every column that the tuple carries has a safe name. */
  ghost predicate SafeTuple(columns: seq<string>, tuple: Option<Tuple>) {
    tuple.Some? ==> forall i :: Present(tuple.value, i) ==> SafeIdentifier(ColumnName(columns, i))
  }

  lemma {:induction false} TupleFacts(columns: seq<string>, tuple: Option<Tuple>)
    ensures TupleRow(columns, tuple) != map[] <==> HasColumn(tuple)
    ensures SafeColumns(TupleRow(columns, tuple)) <==> SafeTuple(columns, tuple)
  {
    hide ColumnName, SafeIdentifier;
    if tuple.Some? {
      var row := RowUpTo(columns, tuple.value, |tuple.value|);
      forall c
        ensures c in row
                <==> exists i :: 0 <= i < |tuple.value| && Present(tuple.value, i) && ColumnName(columns, i) == c
      {
        RowColumns(columns, tuple.value, |tuple.value|, c);
      }
      forall i: nat | Present(tuple.value, i) ensures ColumnName(columns, i) in row {
        assert 0 <= i < |tuple.value|;
      }
      if row != map[] {
        var c :| c in row;
        assert HasColumn(tuple);
      }
    }
  }

  /** The change message can become SQL: its relation's name is safe, the tuple it needs carries a column, and all
      its columns have safe names. */
  ghost predicate Usable(d: Decoder, m: Message) {
    && IsChange(m) && NameParts(RelationTable(d, m.id)).Some?
    && var columns := RelationColumns(d, m.id);
       match m
       case InsertMessage(_, tuple) => HasColumn(tuple) && SafeTuple(columns, tuple)
       case UpdateMessage(_, oldTuple, newTuple) =>
         HasColumn(newTuple) && SafeTuple(columns, newTuple) && SafeTuple(columns, oldTuple)
       case DeleteMessage(_, oldTuple) => HasColumn(oldTuple) && SafeTuple(columns, oldTuple)
       case _ => false
  }

  /** A change message becomes an event that the publisher can use exactly when it is usable. */
  lemma {:induction false} PublishableIff(d: Decoder, m: Message)
    requires IsChange(m)
    ensures |Decode(d, m).out| == |d.out| + 1 && d.out <= Decode(d, m).out
    ensures Publishable(Decode(d, m).out[|d.out|]) <==> Usable(d, m)
  {
    hide TupleRow, HasColumn, SafeTuple, NameParts, SafeColumns;
    var columns := RelationColumns(d, m.id);
    NoTuple(columns);
    match m
    case InsertMessage(_, tuple) => TupleFacts(columns, tuple);
    case UpdateMessage(_, oldTuple, newTuple) =>
      TupleFacts(columns, oldTuple);
      TupleFacts(columns, newTuple);
      if TupleRow(columns, oldTuple) == map[] { NothingUnsafe(TupleRow(columns, oldTuple)); }
    case DeleteMessage(_, oldTuple) => TupleFacts(columns, oldTuple);
  }

  lemma NoTuple(columns: seq<string>)
    ensures TupleRow(columns, None) == map[]
  {
  }

  lemma NothingUnsafe(row: Row)
    requires row == map[]
    ensures SafeColumns(row)
  {
  }

  /** A relation that was not announced has no usable name. */
  lemma UnannouncedName(d: Decoder, id: nat)
    requires id !in d.relations
    ensures NameParts(RelationTable(d, id)).None?
  {
    SplitPlain("");
  }

  lemma {:induction false} OutGrows(d: Decoder, ms: seq<Message>, n: nat)
    requires n <= |ms|
    ensures DecodeAll(d, ms[..n]).out <= DecodeAll(d, ms).out
    decreases |ms|
  {
    if n == |ms| {
      assert ms[..n] == ms;
    } else {
      assert ms[..n] == ms[..|ms| - 1][..n];
      OutGrows(d, ms[..|ms| - 1], n);
    }
  }

  // ----- LSN order -----

  /** Whether a transaction is open after the messages. */
  predicate InTransaction(ms: seq<Message>)
    decreases |ms|
  {
    ms != [] &&
    (ms[|ms| - 1].BeginMessage? || (!ms[|ms| - 1].CommitMessage? && InTransaction(ms[..|ms| - 1])))
  }

  predicate IsChange(m: Message) { m.InsertMessage? || m.UpdateMessage? || m.DeleteMessage? }

  /** Changes come inside transactions. */
  predicate Framed(ms: seq<Message>) {
    forall i :: 0 <= i < |ms| && IsChange(ms[i]) ==> InTransaction(ms[..i])
  }

  /** Transactions arrive with nondecreasing final LSNs. */
  predicate TransactionsOrdered(ms: seq<Message>) {
    forall i, j :: 0 <= i < j < |ms| && ms[i].BeginMessage? && ms[j].BeginMessage? ==>
      ms[i].finalLsn <= ms[j].finalLsn
  }

  function LastBegin(ms: seq<Message>): nat
    decreases |ms|
  {
    if ms == [] then 0
    else if ms[|ms| - 1].BeginMessage? then ms[|ms| - 1].finalLsn
    else LastBegin(ms[..|ms| - 1])
  }

  lemma {:induction false} LastBeginBound(ms: seq<Message>, k: nat, n: nat)
    requires TransactionsOrdered(ms) && k <= n < |ms| && ms[n].BeginMessage?
    ensures LastBegin(ms[..k]) <= ms[n].finalLsn
    decreases k
  {
    if k > 0 {
      assert ms[..k][..k - 1] == ms[..k - 1];
      LastBeginBound(ms, k - 1, n);
    }
  }

  predicate LsnBelow(es: seq<ChangeEvent>, bound: nat) {
    forall i :: 0 <= i < |es| ==> es[i].lsn <= bound
  }

  /** Emitted events carry nondecreasing LSNs. */
  lemma {:induction false} EmittedInOrder(ms: seq<Message>, n: nat, relations: map<nat, RelationInfo>)
    requires n <= |ms| && Framed(ms) && TransactionsOrdered(ms)
    ensures
      var d := DecodeAll(Decoder(0, 0, relations, []), ms[..n]);
      && LsnAscending(d.out)
      && LsnBelow(d.out, LastBegin(ms[..n]))
      && (InTransaction(ms[..n]) ==> d.txLsn == LastBegin(ms[..n]))
    decreases n
  {
    if n > 0 {
      EmittedInOrder(ms, n - 1, relations);
      assert ms[..n][..n - 1] == ms[..n - 1];
      assert ms[..n][n - 1] == ms[n - 1];
      if ms[n - 1].BeginMessage? { LastBeginBound(ms, n - 1, n - 1); }
      if IsChange(ms[n - 1]) {
        assert InTransaction(ms[..n - 1]);
        AppendAscending(ms[n - 1], DecodeAll(Decoder(0, 0, relations, []), ms[..n - 1]));
      }
    }
  }

  lemma AppendAscending(m: Message, d: Decoder)
    requires IsChange(m) && LsnAscending(d.out) && LsnBelow(d.out, d.txLsn)
    ensures LsnAscending(Decode(d, m).out) && LsnBelow(Decode(d, m).out, d.txLsn)
  {
  }
}
