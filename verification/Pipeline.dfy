/** The whole pipeline: source history, messages, decoder, engine with failures, replica. */
module Pipeline {
  import opened Wrappers
  import opened Rows
  import opened Source
  import opened Replay
  import opened Subscription
  import opened Rebuild
  import opened EngineModel
  import opened EngineOrder
  import opened EngineCloud
  import Engine

  /** The events the decoder emits for a history of the source. */
  ghost function Stream(items: seq<Item>, catalog: Catalog): seq<ChangeEvent>
    requires AllWellTyped(items, catalog)
  {
    DecodeAll(Decoder(0, 0, map[], []), EncodeAll(items, catalog)).out
  }

  lemma {:induction false} StreamIsHistory(items: seq<Item>, catalog: Catalog)
    requires AllWellTyped(items, catalog) && GoodCatalog(catalog) && AnnouncedFirst(items)
    ensures Stream(items, catalog) == Changes(items, catalog)
  {
    hide GoodCatalog, EncodeAll, Changes;
    DecodedHistory(items, |items|, catalog);
    assert items[..|items|] == items;
  }

  /** An engine fed by the decoder: at the end of every successful flush the replica is the source as of
      the last flushed change, whatever failures, partial commits and retries came before. */
  lemma {:induction false} FlushedReplica(items: seq<Item>, catalog: Catalog, w: World, steps: seq<Step>,
      schema: Schema)
    requires AllWellTyped(items, catalog) && GoodCatalog(catalog) && AnnouncedFirst(items)
    requires Initial(w) && CanRun(w, steps) && Conforms(w.cloud, schema)
    requires Run(w, steps).received <= Stream(items, catalog)
    requires Accepted(ImageOf(w.cloud), Changes(items, catalog), schema)
    requires WindowsSafe(w, steps, ImageOf(w.cloud), Changes(items, catalog), schema)
    requires steps != [] && steps[|steps| - 1].Succeed?
    ensures
      var w' := Run(w, steps);
      && w'.flushed <= |Changes(items, catalog)|
      && ImageOf(w'.cloud) == SourceAt(ImageOf(w.cloud), Changes(items, catalog), w'.flushed)
  {
    hide GoodCatalog, Conforms, Accepted, WindowsSafe, ImageOf, SourceAt, Run, CanRun, Initial;
    StreamIsHistory(items, catalog);
    ReplicaEqualsSource(w, steps, Changes(items, catalog), schema);
  }

  /** An engine that is idle with nothing buffered, as after a successful flush or shutdown, has a
      replica equal to the source after everything the engine received. */
  lemma {:induction false} DrainedReplica(e: Engine.Engine, hist: seq<ChangeEvent>, schema: Schema)
    requires e.Valid() && e.world.phase.Idle? && e.buffer == []
    requires Conforms(e.begin.cloud, schema) && e.world.received <= hist
    requires Accepted(ImageOf(e.begin.cloud), hist, schema)
    requires WindowsSafe(e.begin, e.steps, ImageOf(e.begin.cloud), hist, schema)
    ensures ImageOf(e.publisher.pool.db) == SourceAt(ImageOf(e.begin.cloud), hist, |e.world.received|)
  {
    hide Conforms, KeyedSchema, WindowsSafe, Lagging, ImageOf, SourceAt, Run, CanRun, Initial, LegalHistory;
    var w := e.world;
    CloudInvariant(e.begin, e.steps, hist, schema);
    Conservation(e.begin, e.steps);
    assert w.flushed == |w.received|;
    LaggingByNothing(ImageOf(w.cloud), ImageOf(e.begin.cloud), hist, w.flushed, schema);
  }

  lemma PrefixAscending(es: seq<ChangeEvent>, more: seq<ChangeEvent>)
    requires LsnAscending(more) && es <= more
    ensures LsnAscending(es)
  {
    forall i, j | 0 <= i <= j < |es| ensures es[i].lsn <= es[j].lsn {
      assert es[i] == more[i] && es[j] == more[j];
    }
  }

  /** Transactions that arrive with nondecreasing final LSNs give the engine its LSN accounting: what is
      flushed has an LSN up to LastLSN, what is strictly below LastLSN the cloud has executed. */
  lemma {:induction false} OrderedAccounting(messages: seq<Message>, relations: map<nat, RelationInfo>, w: World,
      steps: seq<Step>, i: nat)
    requires Framed(messages) && TransactionsOrdered(messages)
    requires Initial(w) && CanRun(w, steps)
    requires Run(w, steps).received <= DecodeAll(Decoder(0, 0, relations, []), messages).out
    requires Run(w, steps).flushed > 0 && i < |Run(w, steps).received|
    ensures
      var w' := Run(w, steps);
      && (i < w'.flushed ==> w'.received[i].lsn <= w'.mem.lastLsn)
      && (w'.received[i].lsn < w'.mem.lastLsn ==> i < w'.flushed && CommittedUpTo(w.cloud, w', i + 1))
  {
    hide LsnAscending, Run, CanRun, Initial, Framed, TransactionsOrdered, DecodeAll;
    EmittedInOrder(messages, |messages|, relations);
    assert messages[..|messages|] == messages;
    PrefixAscending(Run(w, steps).received, DecodeAll(Decoder(0, 0, relations, []), messages).out);
    LsnAccounting(w, steps, i);
  }

  /** A change message that cannot become SQL stops the engine: one for an unknown or unsafely named relation, with
      a column such as `created-at`, or without the tuple it needs. Whatever comes after it, its event and all
      later ones are never flushed. */
  lemma {:induction false} UnusableMessageStops(messages: seq<Message>, n: nat, w: World, steps: seq<Step>)
    requires Initial(w) && CanRun(w, steps) && n < |messages| && IsChange(messages[n])
    requires Run(w, steps).received <= DecodeAll(Decoder(0, 0, map[], []), messages).out
    requires !Usable(DecodeAll(Decoder(0, 0, map[], []), messages[..n]), messages[n])
    ensures Run(w, steps).flushed <= |DecodeAll(Decoder(0, 0, map[], []), messages[..n]).out|
  {
    hide Run, CanRun, Initial, Publishable, Usable, Decode, DecodeAll;
    var empty := Decoder(0, 0, map[], []);
    var d := DecodeAll(empty, messages[..n]);
    var i := |d.out|;
    PublishableIff(d, messages[n]);
    assert DecodeAll(empty, messages[..n + 1]) == Decode(d, messages[n]) by { OneMore(empty, messages, n); }
    OutGrows(empty, messages, n + 1);
    Conservation(w, steps);
    if |Run(w, steps).received| > i {
      UnpublishableBlocks(w, steps, i);
    }
  }

  lemma OneMore(d: Decoder, ms: seq<Message>, n: nat)
    requires n < |ms|
    ensures DecodeAll(d, ms[..n + 1]) == Decode(DecodeAll(d, ms[..n]), ms[n])
  {
    assert ms[..n + 1][..n] == ms[..n];
  }

  /** Such messages exist: an insert into a relation with a column `created-at`, and a delete without an old tuple. */
  lemma UnusableExamples()
    ensures
      var d := DecodeAll(Decoder(0, 0, map[], []), [RelationMessage(7, "public", "t", [Some("created-at")])]);
      !Usable(d, InsertMessage(7, Some([Data("now")]))) && !Usable(d, DeleteMessage(7, None))
  {
    var ms := [RelationMessage(7, "public", "t", [Some("created-at")])];
    var d := DecodeAll(Decoder(0, 0, map[], []), ms);
    assert ms[..0] == [];
    assert RelationColumns(d, 7) == ["created-at"];
    assert "created-at"[0] == 'c' && !IsSpace('c');
    assert ColumnName(["created-at"], 0) == "created-at";
    assert "created-at"[7] == '-' && !SafeChar('-');
    assert Present([Data("now")], 0);
  }
}
