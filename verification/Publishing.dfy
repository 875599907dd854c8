/** Publishing a batch to the cloud database in chunks, one transaction each. */
module Publishing {
  import opened Wrappers
  import opened Rows
  import opened SqlExec
  import opened DmlBuilder
  import opened DmlMeaning

  function Times(k: nat, chunk: nat): nat { k * chunk }

  /** `n` events are a whole number of chunks. */
  ghost predicate WholeChunks(n: nat, chunk: nat) {
    exists k: nat :: Times(k, chunk) == n
  }

  /** What one call of Publish may have done: it committed the first `n` events, whole chunks,
      each event with its effect; nil is returned only when all are committed. */
  ghost predicate Published(events: seq<ChangeEvent>, chunk: nat, db: Db, n: nat, ok: bool, db': Db) {
    && n <= |events|
    && (n == |events| || WholeChunks(n, chunk))
    && ApplyAll(events[..n], db) == Some(db')
    && (ok ==> n == |events|)
  }

  lemma {:induction false} ApplyShaped(e: ChangeEvent, db: Db)
    requires Shaped(db) && Apply(e, db).Some?
    ensures Shaped(Apply(e, db).value)
  {
    hide Admissible, SafeColumns;
    var name := NameParts(e.table).value;
    var t := db[name];
    forall r | r in Changed(e, t) ensures r.Keys == t.columns {
      match e.op
      case InsertOp => if r !in t.rows { assert r == Defaults(t.columns) + e.newRow; }
      case UpdateOp =>
        var i :| 0 <= i < |t.rows| && Changed(e, t)[i] == r;
        assert t.rows[i] in t.rows;
      case DeleteOp =>
      case OtherOp(_) =>
    }
  }

  lemma {:induction false} ApplyAllShaped(es: seq<ChangeEvent>, db: Db)
    requires Shaped(db) && ApplyAll(es, db).Some?
    ensures Shaped(ApplyAll(es, db).value)
    decreases |es|
  {
    hide Apply, Shaped;
    if es != [] {
      ApplyAllShaped(es[..|es| - 1], db);
      ApplyShaped(es[|es| - 1], ApplyAll(es[..|es| - 1], db).value);
    }
  }

  lemma {:induction false} AppendApplied(es: seq<ChangeEvent>, i: nat, j: nat, db: Db)
    requires i <= j < |es| && ApplyAll(es[i..j], db).Some?
    ensures ApplyAll(es[i..j + 1], db) == Apply(es[j], ApplyAll(es[i..j], db).value)
  {
    hide Apply;
    assert es[i..j + 1][..j - i] == es[i..j];
    assert es[i..j + 1][j - i] == es[j];
  }

  lemma NothingApplied(es: seq<ChangeEvent>, i: nat, db: Db)
    requires i <= |es|
    ensures ApplyAll(es[i..i], db) == Some(db)
  {
  }

  lemma NoChunks(chunk: nat)
    ensures WholeChunks(0, chunk)
  {
    assert Times(0, chunk) == 0;
  }

  lemma NextMultiple(a: nat, chunk: nat)
    requires WholeChunks(a, chunk)
    ensures WholeChunks(a + chunk, chunk)
  {
    var k: nat :| Times(k, chunk) == a;
    assert Times(k + 1, chunk) == a + chunk;
  }

  lemma {:induction false} AppendChunk(es: seq<ChangeEvent>, i: nat, j: nat, db: Db)
    requires i <= j <= |es| && ApplyAll(es[..i], db).Some?
    ensures ApplyAll(es[..j], db) == ApplyAll(es[i..j], ApplyAll(es[..i], db).value)
  {
    hide Apply, ApplyAll;
    ApplyAllConcat(es[..i], es[i..j], db);
    assert es[..i] + es[i..j] == es[..j];
  }

  /** A batch that cannot go beyond event `i` cannot be applied. */
  lemma {:induction false} RefusedInside(es: seq<ChangeEvent>, i: nat, j: nat, k: nat, db: Db)
    requires i <= j < k <= |es| && ApplyAll(es[i..j], db).Some?
    requires Apply(es[j], ApplyAll(es[i..j], db).value).None?
    ensures ApplyAll(es[i..k], db).None?
  {
    hide Apply, ApplyAll;
    AppendApplied(es, i, j, db);
    if ApplyAll(es[i..k], db).Some? {
      assert es[i..k][..j + 1 - i] == es[i..j + 1];
      ApplyAllPrefix(es[i..k], j + 1 - i, db);
    }
  }

  /** If the next chunk cannot be applied, neither can the batch. */
  lemma {:induction false} ChunkRefused(es: seq<ChangeEvent>, i: nat, j: nat, db: Db)
    requires i <= j <= |es| && ApplyAll(es[..i], db).Some?
    requires ApplyAll(es[i..j], ApplyAll(es[..i], db).value).None?
    ensures ApplyAll(es, db).None?
  {
    hide Apply, ApplyAll;
    AppendChunk(es, i, j, db);
    if ApplyAll(es, db).Some? { ApplyAllPrefix(es, j, db); }
  }

  /** The cloud database behind the connection pool. Unless it is reliable, any request may fail, and a commit
      that is reported as failed may have been applied. */
  class Cloud {
    var db: Db
    const reliable: bool

    constructor (db: Db, reliable: bool)
      requires Shaped(db)
      ensures this.db == db && this.reliable == reliable
    {
      this.db, this.reliable := db, reliable;
    }

    /** Whether the next request reaches the database and is answered. */
    method Answers() returns (yes: bool)
      ensures reliable ==> yes
    {
      yes := *;
      yes := yes || reliable;
    }
  }

  class Publisher {
    const pool: Cloud?
    const batchSize: nat

    constructor (pool: Cloud?, batchSize: int)
      ensures this.pool == pool
      ensures this.batchSize == if batchSize <= 0 then 100 else batchSize
    {
      this.pool := pool;
      this.batchSize := if batchSize <= 0 then 100 else batchSize;
    }

    /** One transaction over `events[first..last]`: the statements run on a private copy, and the
        copy is installed by the commit. */
    method PublishChunk(cloud: Cloud, events: seq<ChangeEvent>, first: nat, last: nat)
      returns (ok: bool, applied: bool)
      requires first <= last <= |events| && Shaped(cloud.db)
      modifies cloud
      ensures ok ==> applied
      ensures applied ==> ApplyAll(events[first..last], old(cloud.db)) == Some(cloud.db)
      ensures !applied ==> cloud.db == old(cloud.db)
      ensures cloud.reliable ==> (ok <==> ApplyAll(events[first..last], old(cloud.db)).Some?) && applied == ok
    {
      hide Apply, Shaped, ApplyAll, ExecText, Compile, Rendered;
      var begun := cloud.Answers();
      if !begun { return false, false; }
      var tx := cloud.db;
      NothingApplied(events, first, tx);
      for i := first to last
        invariant ApplyAll(events[first..i], old(cloud.db)) == Some(tx) && Shaped(tx)
        invariant cloud.db == old(cloud.db)
      {
        TextMeaning(events[i], tx);
        if Apply(events[i], tx).None? { RefusedInside(events, first, i, last, old(cloud.db)); }
        var built := BuildDML(events[i]);
        if built.Failure? { return false, false; }
        var reached := cloud.Answers();
        if !reached { return false, false; }
        var result := ExecText(built.value, tx);
        if result.None? { return false, false; }
        AppendApplied(events, first, i, old(cloud.db));
        ApplyShaped(events[i], tx);
        tx := result.value;
      }
      applied := *;
      ok := cloud.Answers();
      applied := applied || ok;
      if applied { cloud.db := tx; }
    }

    method Publish(events: seq<ChangeEvent>) returns (ok: bool, ghost n: nat)
      requires batchSize > 0
      requires pool != null ==> Shaped(pool.db)
      modifies if pool == null then {} else {pool}
      ensures pool == null ==> !ok
      ensures pool != null ==> Published(events, batchSize, old(pool.db), n, ok, pool.db) && Shaped(pool.db)
      ensures pool != null && pool.reliable ==> (ok <==> ApplyAll(events, old(pool.db)).Some?)
      ensures pool != null && pool.reliable && !ok ==>
        && WholeChunks(n, batchSize) && n < |events|
        && ApplyAll(events[n..if n + batchSize > |events| then |events| else n + batchSize], pool.db).None?
    {
      hide Apply, Shaped, ApplyAll, WholeChunks;
      if pool == null { return false, 0; }
      n := 0;
      NoChunks(batchSize);
      NothingApplied(events, 0, pool.db);
      assert events[0..0] == events[..0];
      assert |events| == 0 ==> events[..0] == events;
      if |events| == 0 { return true, 0; }
      var start := 0;
      while start < |events|
        invariant n == if start < |events| then start else |events|
        invariant WholeChunks(start, batchSize)
        invariant ApplyAll(events[..n], old(pool.db)) == Some(pool.db) && Shaped(pool.db)
      {
        var end := start + batchSize;
        if end > |events| { end := |events|; }
        ghost var before := pool.db;
        var chunkOk, applied := PublishChunk(pool, events, start, end);
        if applied {
          AppendChunk(events, start, end, old(pool.db));
          ApplyAllShaped(events[start..end], before);
          n := end;
        } else if ApplyAll(events[start..end], before).None? {
          ChunkRefused(events, start, end, old(pool.db));
        }
        NextMultiple(start, batchSize);
        if !chunkOk { return false, n; }
        start := start + batchSize;
      }
      assert events[..n] == events;
      ok := true;
    }
  }
}
