/** From the source's history through messages, events and SQL text to the replica. */
module Rebuild {
  import opened Wrappers
  import opened Text
  import opened Rows
  import opened SqlExec
  import opened DmlBuilder
  import opened DmlMeaning
  import opened Source
  import opened Replay
  import opened Publishing
  import opened Subscription

  // ----- rows -----

  /** The tuple the source sends for a row; columns in `toasted` are sent as unchanged. */
  function EncodeRow(columns: seq<string>, row: Row, toasted: set<string>): (r: Tuple)
    requires forall i :: 0 <= i < |columns| ==> columns[i] in row
    ensures |r| == |columns|
  {
    seq(|columns|, i requires 0 <= i < |columns| =>
      if columns[i] in toasted then Unchanged
      else match row[columns[i]] case Null => NullColumn case Str(text) => Data(text))
  }

  /** The row with a marker text in place of each unchanged TOAST column. */
  function Marked(row: Row, toasted: set<string>): Row {
    map c | c in row :: if c in toasted then Str(UNCHANGED_TOAST) else row[c]
  }

  ghost predicate NamedColumns(columns: seq<string>) {
    Distinct(columns) && forall i :: 0 <= i < |columns| ==> !Blank(columns[i])
  }

  function Restricted(row: Row, names: seq<string>): Row { map c | c in row && c in names :: row[c] }

  lemma ColumnArrives(columns: seq<string>, row: Row, toasted: set<string>, i: nat)
    requires NamedColumns(columns) && i < |columns|
    requires forall k :: 0 <= k < |columns| ==> columns[k] in row
    ensures
      var c := EncodeRow(columns, row, toasted)[i];
      !c.Missing? && ColumnName(columns, i) == columns[i] && ColumnValue(c) == Marked(row, toasted)[columns[i]]
  {
  }

  lemma {:induction false} DecodeColumns(columns: seq<string>, row: Row, toasted: set<string>, n: nat)
    requires NamedColumns(columns) && n <= |columns|
    requires forall i :: 0 <= i < |columns| ==> columns[i] in row
    ensures RowUpTo(columns, EncodeRow(columns, row, toasted), n) == Restricted(Marked(row, toasted), columns[..n])
  {
    hide EncodeRow, NamedColumns, ColumnName, ColumnValue;
    if n > 0 {
      DecodeColumns(columns, row, toasted, n - 1);
      ColumnArrives(columns, row, toasted, n - 1);
      assert columns[..n] == columns[..n - 1] + [columns[n - 1]];
    }
  }

  /** Decoding the tuple of a full row gives the row, except for the marker in unchanged TOAST columns. */
  lemma {:induction false} DecodeEncode(columns: seq<string>, row: Row, toasted: set<string>)
    requires NamedColumns(columns) && row.Keys == set c | c in columns
    ensures TupleRow(columns, Some(EncodeRow(columns, row, toasted))) == Marked(row, toasted)
  {
    hide NamedColumns, RowUpTo, EncodeRow;
    DecodeColumns(columns, row, toasted, |columns|);
    assert columns[..|columns|] == columns;
    assert Restricted(Marked(row, toasted), columns) == Marked(row, toasted) by {
      forall c | c in row ensures c in columns { assert c in row.Keys; }
    }
  }

  /** A row arrives as it was exactly when every column sent as unchanged held the marker text. */
  lemma FaithfulIff(columns: seq<string>, row: Row, toasted: set<string>)
    requires NamedColumns(columns) && row.Keys == set c | c in columns
    ensures TupleRow(columns, Some(EncodeRow(columns, row, toasted))) == row
            <==> forall c :: c in toasted && c in row ==> row[c] == Str(UNCHANGED_TOAST)
  {
    DecodeEncode(columns, row, toasted);
    if Marked(row, toasted) == row {
      forall c | c in toasted && c in row ensures row[c] == Str(UNCHANGED_TOAST) {
        assert Marked(row, toasted)[c] == row[c];
      }
    }
  }

  // ----- histories -----

  datatype Relation = Relation(namespace: string, name: string, columns: seq<string>, key: set<string>)

  type Catalog = map<nat, Relation>

  /** What happens at the source, as its replication stream tells it. */
  datatype Item =
    | Begins(lsn: nat, time: nat)
    | Announce(id: nat)
    | Inserted(id: nat, newRow: Row)
    | Updated(id: nat, oldRow: Row, newRow: Row)
    | Deleted(id: nat, oldRow: Row)
    | Commits(lsn: nat)
    | Noise(message: Message)

  ghost predicate GoodCatalog(catalog: Catalog) {
    && (forall id :: id in catalog ==>
          && SafeIdentifier(catalog[id].namespace) && SafeIdentifier(catalog[id].name)
          && NamedColumns(catalog[id].columns)
          && (forall i :: 0 <= i < |catalog[id].columns| ==> SafeIdentifier(catalog[id].columns[i]))
          && catalog[id].key != {} && forall c :: c in catalog[id].key ==> c in catalog[id].columns)
  }

  function FullName(r: Relation): string { r.namespace + "." + r.name }

  predicate HasColumns(r: Relation, row: Row) { row.Keys == set c | c in r.columns }

  /** The item talks about a relation of the catalog in full rows. */
  predicate WellTyped(item: Item, catalog: Catalog) {
    match item
    case Announce(id) => id in catalog
    case Inserted(id, newRow) => id in catalog && HasColumns(catalog[id], newRow)
    case Updated(id, oldRow, newRow) => id in catalog && HasColumns(catalog[id], oldRow) && HasColumns(catalog[id], newRow)
    case Deleted(id, oldRow) => id in catalog && HasColumns(catalog[id], oldRow)
    case Noise(m) => m.Keepalive? || m.OtherMessage?
    case _ => true
  }

  /** The relations announced by the items. */
  function Announced(items: seq<Item>): set<nat>
    decreases |items|
  {
    if items == [] then {}
    else
      var last := items[|items| - 1];
      Announced(items[..|items| - 1]) + (if last.Announce? then {last.id} else {})
  }

  /** Changes mention relations announced before. */
  predicate AnnouncedFirst(items: seq<Item>) {
    forall i :: 0 <= i < |items| && (items[i].Inserted? || items[i].Updated? || items[i].Deleted?) ==>
      items[i].id in Announced(items[..i])
  }

  function Named(columns: seq<string>): (r: seq<Option<string>>)
    ensures ColumnNames(r) == columns
  {
    seq(|columns|, i requires 0 <= i < |columns| => Some(columns[i]))
  }

  function Encode(item: Item, catalog: Catalog): Message
    requires WellTyped(item, catalog)
  {
    match item
    case Begins(lsn, time) => BeginMessage(lsn, time)
    case Announce(id) => RelationMessage(id, catalog[id].namespace, catalog[id].name, Named(catalog[id].columns))
    case Inserted(id, newRow) => InsertMessage(id, Some(EncodeRow(catalog[id].columns, newRow, {})))
    case Updated(id, oldRow, newRow) =>
      UpdateMessage(id, Some(EncodeRow(catalog[id].columns, oldRow, {})), Some(EncodeRow(catalog[id].columns, newRow, {})))
    case Deleted(id, oldRow) => DeleteMessage(id, Some(EncodeRow(catalog[id].columns, oldRow, {})))
    case Commits(lsn) => CommitMessage(lsn)
    case Noise(m) => m
  }

  predicate AllWellTyped(items: seq<Item>, catalog: Catalog) {
    forall i :: 0 <= i < |items| ==> WellTyped(items[i], catalog)
  }

  function EncodeAll(items: seq<Item>, catalog: Catalog): (r: seq<Message>)
    requires AllWellTyped(items, catalog)
    ensures |r| == |items|
  {
    seq(|items|, i requires 0 <= i < |items| => Encode(items[i], catalog))
  }

  /** The LSN and time in force after the items. */
  function Stamp(items: seq<Item>): (nat, nat)
    decreases |items|
  {
    if items == [] then (0, 0)
    else
      match items[|items| - 1]
      case Begins(lsn, time) => (lsn, time)
      case Commits(lsn) => (lsn, Stamp(items[..|items| - 1]).1)
      case _ => Stamp(items[..|items| - 1])
  }

  /** The changes of the source in order, stamped with their transactions. */
  function Changes(items: seq<Item>, catalog: Catalog): seq<ChangeEvent>
    requires AllWellTyped(items, catalog)
    decreases |items|
  {
    if items == [] then []
    else
      var before := items[..|items| - 1];
      var (lsn, time) := Stamp(before);
      Changes(before, catalog) +
      match items[|items| - 1]
      case Inserted(id, newRow) => [ChangeEvent(lsn, time, FullName(catalog[id]), InsertOp, map[], newRow)]
      case Updated(id, oldRow, newRow) => [ChangeEvent(lsn, time, FullName(catalog[id]), UpdateOp, oldRow, newRow)]
      case Deleted(id, oldRow) => [ChangeEvent(lsn, time, FullName(catalog[id]), DeleteOp, oldRow, map[])]
      case _ => []
  }

  /** What the decoder must know after the items. */
  ghost predicate InStep(d: Decoder, items: seq<Item>, catalog: Catalog)
    requires AllWellTyped(items, catalog)
  {
    && (d.txLsn, d.txTime) == Stamp(items)
    && d.out == Changes(items, catalog)
    && forall id :: id in Announced(items) ==>
      id in catalog && id in d.relations && d.relations[id] == RelationInfo(FullName(catalog[id]), catalog[id].columns)
  }

  lemma Unmarked(columns: seq<string>, row: Row)
    requires NamedColumns(columns) && row.Keys == set c | c in columns
    ensures TupleRow(columns, Some(EncodeRow(columns, row, {}))) == row
  {
    FaithfulIff(columns, row, {});
  }

  lemma {:induction false} DecodeStep(d: Decoder, items: seq<Item>, catalog: Catalog)
    requires items != [] && AllWellTyped(items, catalog) && GoodCatalog(catalog) && AnnouncedFirst(items)
    requires InStep(d, items[..|items| - 1], catalog)
    ensures InStep(Decode(d, Encode(items[|items| - 1], catalog)), items, catalog)
  {
    hide TupleRow, EncodeRow, HasColumns, Blank, SafeIdentifier;
    var last := items[|items| - 1];
    match last
    case Inserted(id, newRow) => UnmarkedIn(catalog, id, newRow); NoTuple(catalog[id].columns);
    case Updated(id, oldRow, newRow) => UnmarkedIn(catalog, id, oldRow); UnmarkedIn(catalog, id, newRow);
    case Deleted(id, oldRow) => UnmarkedIn(catalog, id, oldRow); NoTuple(catalog[id].columns);
    case _ =>
  }

  lemma UnmarkedIn(catalog: Catalog, id: nat, row: Row)
    requires GoodCatalog(catalog) && id in catalog && HasColumns(catalog[id], row)
    ensures TupleRow(catalog[id].columns, Some(EncodeRow(catalog[id].columns, row, {}))) == row
  {
    Unmarked(catalog[id].columns, row);
  }

  /** Decoding the encoded history gives the source's changes in order. */
  lemma {:induction false} DecodedHistory(items: seq<Item>, n: nat, catalog: Catalog)
    requires n <= |items| && AllWellTyped(items, catalog) && GoodCatalog(catalog) && AnnouncedFirst(items)
    ensures InStep(DecodeAll(Decoder(0, 0, map[], []), EncodeAll(items[..n], catalog)), items[..n], catalog)
    decreases n
  {
    hide InStep, Encode, WellTyped, GoodCatalog, Decode;
    if n == 0 {
      NothingDecoded(catalog);
      assert items[..0] == [];
    } else {
      DecodedHistory(items, n - 1, catalog);
      var upTo := items[..n];
      assert upTo[..n - 1] == items[..n - 1];
      assert EncodeAll(upTo, catalog)[..n - 1] == EncodeAll(items[..n - 1], catalog);
      assert AnnouncedFirst(upTo) by {
        forall i | 0 <= i < n && (upTo[i].Inserted? || upTo[i].Updated? || upTo[i].Deleted?)
          ensures upTo[i].id in Announced(upTo[..i])
        {
          assert upTo[..i] == items[..i];
        }
      }
      DecodeStep(DecodeAll(Decoder(0, 0, map[], []), EncodeAll(items[..n - 1], catalog)), upTo, catalog);
    }
  }

  lemma NothingDecoded(catalog: Catalog)
    ensures InStep(DecodeAll(Decoder(0, 0, map[], []), EncodeAll([], catalog)), [], catalog)
  {
  }

  // ----- end to end -----

  /** Sends the events one after the other as SQL text; None when the publisher or the server refuses one. */
  ghost function Replicate(es: seq<ChangeEvent>, db: Db): Option<Db>
    decreases |es|
  {
    if es == [] then Some(db)
    else
      match Replicate(es[..|es| - 1], db)
      case None => None
      case Some(db') =>
        match Rendered(Compile(es[|es| - 1]))
        case Failure(_) => None
        case Success(q) => ExecText(q, db')
  }

  lemma {:induction false} ReplicateIsApply(es: seq<ChangeEvent>, db: Db)
    requires Shaped(db)
    ensures Replicate(es, db) == ApplyAll(es, db)
    decreases |es|
  {
    hide Apply, Shaped, Compile, Rendered, ExecText;
    if es != [] {
      var before := es[..|es| - 1];
      ReplicateIsApply(before, db);
      if ApplyAll(before, db).Some? {
        ApplyAllShaped(before, db);
        TextMeaning(es[|es| - 1], ApplyAll(before, db).value);
      }
    }
  }

  /** Any history the source accepted, sent as messages, decoded, compiled to SQL text and executed in
      order on a replica equal to the source's start, rebuilds the source exactly. */
  lemma {:induction false} EndToEnd(items: seq<Item>, catalog: Catalog, db: Db, schema: Schema)
    requires AllWellTyped(items, catalog) && GoodCatalog(catalog) && AnnouncedFirst(items)
    requires KeyedSchema(schema) && Conforms(db, schema)
    requires LegalHistory(ImageOf(db), Changes(items, catalog), schema)
    ensures
      var events := DecodeAll(Decoder(0, 0, map[], []), EncodeAll(items, catalog)).out;
      && Replicate(events, db).Some?
      && ImageOf(Replicate(events, db).value)
         == SourceAt(ImageOf(db), Changes(items, catalog), |Changes(items, catalog)|)
  {
    hide Conforms, LegalHistory, KeyedSchema, ImageOf, Replicate, ApplyAll, SourceAt, GoodCatalog;
    DecodedHistory(items, |items|, catalog);
    assert items[..|items|] == items;
    var events := Changes(items, catalog);
    assert Shaped(db) by { ConformingShaped(db, schema); }
    ReplicateIsApply(events, db);
    assert events[..|events|] == events;
    InOrderRebuild(db, events, |events|, schema);
  }

  lemma ConformingShaped(db: Db, schema: Schema)
    requires Conforms(db, schema)
    ensures Shaped(db)
  {
  }
}
