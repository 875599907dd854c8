/** When a replay is refused, and that a refusal stays: exactly when some change stores a row under a key which
    the replica fills with a row that no earlier change of the replay clears. */
module Refusals {
  import opened Wrappers
  import opened Rows
  import opened Source
  import opened Replay

  /** No update moves its row. */
  ghost predicate KeyKeeping(hist: seq<ChangeEvent>, schema: Schema) {
    forall i :: 0 <= i < |hist| ==> !Moves(hist[i], schema)
  }

  lemma {:induction false} KeyKeepingIsSafe(start: Image, hist: seq<ChangeEvent>, p: nat, q: nat, schema: Schema)
    requires KeyKeeping(hist, schema)
    ensures MoveSafe(start, hist, p, q, schema)
  {
    hide Moves, At, SourceAt, FullChange, TakesEffectAt;
  }

  /** Replaying the changes from `lo` to `hi` cannot lead astray: updates keep their keys, or every key is
      within its history and moves are safe. */
  ghost predicate Tame(image: Image, start: Image, hist: seq<ChangeEvent>, lo: nat, hi: nat, schema: Schema) {
    && lo <= hi <= |hist| && Accepted(start, hist, schema) && KeyedImage(image, schema)
    && (KeyKeeping(hist, schema) || (Lagging(image, start, hist, lo, hi, schema) && MoveSafe(start, hist, lo, hi, schema)))
  }

  // ----- parts of a replay -----

  lemma {:induction false} RunPart(image: Image, hist: seq<ChangeEvent>, p: nat, m: nat, q: nat, schema: Schema)
    requires p <= m <= q <= |hist| && FireRange(image, hist, p, q, schema).Some?
    ensures FireRange(image, hist, p, m, schema).Some?
    decreases q
  {
    hide Fire;
    if m < q { RunPart(image, hist, p, m, q - 1, schema); }
  }

  lemma {:induction false} RunSplit(image: Image, hist: seq<ChangeEvent>, p: nat, m: nat, q: nat, schema: Schema)
    requires p <= m <= q <= |hist| && FireRange(image, hist, p, m, schema).Some?
    ensures FireRange(image, hist, p, q, schema) == FireRange(FireRange(image, hist, p, m, schema).value, hist, m, q, schema)
    decreases q
  {
    hide Fire;
    if m < q { RunSplit(image, hist, p, m, q - 1, schema); }
  }

  /** The change at which a replay is refused. */
  lemma {:induction false} FirstRefusal(image: Image, hist: seq<ChangeEvent>, p: nat, q: nat, schema: Schema)
    returns (r: nat)
    requires p <= q <= |hist| && FireRange(image, hist, p, q, schema).None?
    ensures p <= r < q && FireRange(image, hist, p, r, schema).Some?
    ensures Fire(FireRange(image, hist, p, r, schema).value, hist[r], schema).None?
    decreases q
  {
    hide Fire;
    if FireRange(image, hist, p, q - 1, schema).Some? {
      r := q - 1;
    } else {
      r := FirstRefusal(image, hist, p, q - 1, schema);
    }
  }

  lemma {:induction false} TameRun(image: Image, start: Image, hist: seq<ChangeEvent>, p: nat, m: nat, q: nat,
      schema: Schema)
    requires p <= m <= q && Tame(image, start, hist, p, q, schema)
    requires FireRange(image, hist, p, m, schema).Some?
    ensures Tame(FireRange(image, hist, p, m, schema).value, start, hist, m, q, schema)
    ensures Tame(FireRange(image, hist, p, m, schema).value, start, hist, p, q, schema)
  {
    hide KeyedImage, Accepted, Lagging, MoveSafe, KeyKeeping, FireRange;
    RunKeeps(image, hist, p, m, schema);
    if !KeyKeeping(hist, schema) {
      ReplayAdvances(start, image, hist, p, m, q, schema);
      PartialReplay(start, image, hist, p, m, q, schema);
      MoveSafePart(start, hist, p, q, m, q, schema);
    }
  }

  // ----- keys that a replay leaves alone -----

  /** A key that is not level stays as it is: nothing that the source does matches its rows. */
  lemma {:induction false} UnmatchedStays(image: Image, source: Image, e: ChangeEvent, name: seq<string>, k: Row,
      schema: Schema)
    requires KeyedImage(image, schema) && KeyedImage(source, schema) && name in schema
    requires Legal(source, e, schema) && Fire(image, e, schema).Some?
    requires At(image, name, k, schema) != At(source, name, k, schema)
    ensures At(Fire(image, e, schema).value, name, k, schema) == At(image, name, k, schema)
  {
    hide KeyedImage, KeyTaken, OneRowPerKey;
    FireKeepsKeys(source, e, schema);
    if name != TableOf(e, schema) {
      OtherTableAt(image, e, name, k, schema);
    } else {
      match e.op
      case InsertOp =>
        InsertAt(image, e, k, schema);
        InsertAt(source, e, k, schema);
      case UpdateOp =>
        if e.oldRow in image[name] {
          UpdateAt(image, e, k, schema);
          UpdateAt(source, e, k, schema);
          SingleAt(image, name, e.oldRow, schema);
          SingleAt(source, name, e.oldRow, schema);
        }
      case DeleteOp =>
        DeleteAt(image, e, k, schema);
        if e.oldRow in image[name] {
          SingleAt(image, name, e.oldRow, schema);
          SingleAt(source, name, e.oldRow, schema);
        }
      case OtherOp(_) =>
    }
  }

  /** Each key has its rows from `image`, or its point has moved on with the replay to `m`. */
  ghost predicate Trailing(image: Image, image': Image, at: Points, m: nat, schema: Schema) {
    forall name, k :: name in schema ==> at(name, k) == m || At(image', name, k, schema) == At(image, name, k, schema)
  }

  lemma {:induction false} TrailingRun(image: Image, start: Image, hist: seq<ChangeEvent>, p: nat, m: nat, q: nat,
      schema: Schema) returns (at: Points)
    requires p <= m <= q && Accepted(start, hist, schema) && Lagging(image, start, hist, p, q, schema)
    requires MoveSafe(start, hist, p, q, schema) && FireRange(image, hist, p, m, schema).Some?
    ensures
      var image' := FireRange(image, hist, p, m, schema).value;
      && KeyedImage(image', schema) && q <= |hist| && Placed(image', at, start, hist, m, q, schema)
      && Coupled(at, hist, m, q, schema) && Trailing(image, image', at, m, schema)
    decreases m
  {
    hide KeyedImage, Accepted, Fire, MoveSafe, Placed, Coupled, At;
    if p == m {
      at :| Placed(image, at, start, hist, p, q, schema) && Coupled(at, hist, p, q, schema);
    } else {
      var before := TrailingRun(image, start, hist, p, m - 1, q, schema);
      var mid := FireRange(image, hist, p, m - 1, schema).value;
      MoveSafePart(start, hist, p, q, m - 1, q, schema);
      AdvancePoints(mid, before, start, hist, m - 1, q, schema);
      at := Advanced(before, mid, FireRange(image, hist, p, m, schema).value, m - 1, schema);
    }
  }

  /** After a replay each key has the rows it had, or those of the source. */
  lemma {:induction false} KeptOrLevel(image: Image, start: Image, hist: seq<ChangeEvent>, p: nat, m: nat, q: nat,
      name: seq<string>, k: Row, schema: Schema)
    requires p <= m <= q && Tame(image, start, hist, p, q, schema) && name in schema
    requires FireRange(image, hist, p, m, schema).Some?
    ensures
      var image' := FireRange(image, hist, p, m, schema).value;
      || At(image', name, k, schema) == At(image, name, k, schema)
      || At(image', name, k, schema) == At(SourceAt(start, hist, m), name, k, schema)
    decreases m
  {
    hide KeyedImage, Accepted, Lagging, MoveSafe, Fire, At, Legal, Moves, FullChange, Commit, Coupled;
    if !KeyKeeping(hist, schema) {
      var at := TrailingRun(image, start, hist, p, m, q, schema);
      assert at(name, k) == m || At(FireRange(image, hist, p, m, schema).value, name, k, schema) == At(image, name, k, schema);
    } else if p < m {
      KeptOrLevel(image, start, hist, p, m - 1, q, name, k, schema);
      AcceptedAt(start, hist, m - 1, schema);
      RunKeeps(image, hist, p, m - 1, schema);
      var mid, source := FireRange(image, hist, p, m - 1, schema).value, SourceAt(start, hist, m - 1);
      if At(mid, name, k, schema) == At(source, name, k, schema) {
        FireAt(mid, source, hist[m - 1], name, k, schema);
      } else {
        UnmatchedStays(mid, source, hist[m - 1], name, k, schema);
      }
    }
  }

  // ----- when a replay is refused -----

  /** The change stores a row under a key that was free. */
  predicate Stores(e: ChangeEvent, schema: Schema) {
    FullChange(e, schema) && (e.op.InsertOp? || Moves(e, schema))
  }

  /** Only a store into a filled key is refused; a moving row must be there. */
  lemma StepRefusedIff(image: Image, e: ChangeEvent, schema: Schema)
    requires KeyedImage(image, schema) && FullChange(e, schema)
    ensures Fire(image, e, schema).None?
            <==> Stores(e, schema) && At(image, TableOf(e, schema), NewKey(e, schema), schema) != {}
                 && (e.op.UpdateOp? ==> e.oldRow in image[TableOf(e, schema)])
  {
    var name := TableOf(e, schema);
    match e.op
    case InsertOp =>
      if KeyTaken(image[name], schema[name].key, e.newRow, {}) {
        var x :| x in image[name] && KeyOf(schema[name].key, x) == KeyOf(schema[name].key, e.newRow);
        assert x in At(image, name, NewKey(e, schema), schema);
      }
    case UpdateOp =>
      if e.oldRow in image[name] {
        if KeyTaken(image[name], schema[name].key, e.newRow, {e.oldRow}) {
          var x :| x in image[name] && x != e.oldRow && KeyOf(schema[name].key, x) == KeyOf(schema[name].key, e.newRow);
          assert x in At(image, name, NewKey(e, schema), schema);
        }
      }
    case _ =>
  }

  /** Where the source stores a row, it has none before. */
  lemma FreeAtSource(source: Image, e: ChangeEvent, schema: Schema)
    requires KeyedImage(source, schema) && Legal(source, e, schema) && Stores(e, schema)
    ensures At(source, TableOf(e, schema), NewKey(e, schema), schema) == {}
  {
    FireKeepsKeys(source, e, schema);
    if e.op.InsertOp? {
      InsertAt(source, e, NewKey(e, schema), schema);
    } else {
      UpdateAt(source, e, NewKey(e, schema), schema);
    }
  }

  /** The change takes away or alters the row that a filled key holds. */
  predicate Clears(e: ChangeEvent, rows: set<Row>, name: seq<string>, k: Row, schema: Schema)
    requires FullChange(e, schema)
  {
    && name == TableOf(e, schema) && !e.op.InsertOp? && k == OldKey(e, schema) && e.oldRow in rows
    && (e.op.UpdateOp? ==> e.newRow != e.oldRow)
  }

  lemma {:induction false} FilledStep(image: Image, e: ChangeEvent, name: seq<string>, k: Row, schema: Schema)
    requires KeyedImage(image, schema) && FullChange(e, schema) && Fire(image, e, schema).Some? && name in schema
    requires At(image, name, k, schema) != {}
    ensures At(Fire(image, e, schema).value, name, k, schema) != At(image, name, k, schema)
            <==> Clears(e, At(image, name, k, schema), name, k, schema)
  {
    hide KeyedImage, KeyTaken, OneRowPerKey;
    if name != TableOf(e, schema) {
      OtherTableAt(image, e, name, k, schema);
    } else {
      match e.op
      case InsertOp => InsertAt(image, e, k, schema);
      case UpdateOp =>
        if e.oldRow in image[name] {
          UpdateAt(image, e, k, schema);
          SingleAt(image, name, e.oldRow, schema);
          assert e.newRow in {e.newRow};
        }
      case DeleteOp =>
        DeleteAt(image, e, k, schema);
        if e.oldRow in image[name] { SingleAt(image, name, e.oldRow, schema); }
      case OtherOp(_) =>
    }
  }

  /** Change `i` stores a row under a key that the image fills with a row which no change from `p` on clears
      before it; if it moves a row, that row is there when the replay comes to it. */
  ghost predicate RefusedAt(image: Image, hist: seq<ChangeEvent>, p: nat, i: nat, schema: Schema)
    requires p <= i < |hist|
  {
    && Stores(hist[i], schema)
    && var name, k := TableOf(hist[i], schema), NewKey(hist[i], schema);
       && At(image, name, k, schema) != {}
       && (forall j :: p <= j < i && FullChange(hist[j], schema) ==>
             !Clears(hist[j], At(image, name, k, schema), name, k, schema))
       && (hist[i].op.UpdateOp? && FireRange(image, hist, p, i, schema).Some? ==>
             var mid := FireRange(image, hist, p, i, schema).value;
             name in mid && hist[i].oldRow in mid[name])
  }

  /** A filled key that nothing clears stays filled with its row. */
  lemma {:induction false} UnclearedStays(image: Image, start: Image, hist: seq<ChangeEvent>, p: nat, i: nat,
      name: seq<string>, k: Row, schema: Schema)
    requires p <= i <= |hist| && Accepted(start, hist, schema) && KeyedImage(image, schema) && name in schema
    requires FireRange(image, hist, p, i, schema).Some? && At(image, name, k, schema) != {}
    requires forall j :: p <= j < i && FullChange(hist[j], schema) ==>
               !Clears(hist[j], At(image, name, k, schema), name, k, schema)
    ensures At(FireRange(image, hist, p, i, schema).value, name, k, schema) == At(image, name, k, schema)
    decreases i
  {
    hide KeyedImage, Accepted, Fire, At, Legal, FullChange, Clears;
    if p < i {
      UnclearedStays(image, start, hist, p, i - 1, name, k, schema);
      RunKeeps(image, hist, p, i - 1, schema);
      AcceptedAt(start, hist, i - 1, schema);
      FilledStep(FireRange(image, hist, p, i - 1, schema).value, hist[i - 1], name, k, schema);
    }
  }

  /** A key that is filled but not level at `i` held the same row all along. */
  lemma {:induction false} HeldAllAlong(image: Image, start: Image, hist: seq<ChangeEvent>, p: nat, j: nat, i: nat,
      q: nat,
      name: seq<string>, k: Row, schema: Schema)
    requires p <= j <= i <= q && Tame(image, start, hist, p, q, schema) && name in schema
    requires FireRange(image, hist, p, i, schema).Some?
    requires At(FireRange(image, hist, p, i, schema).value, name, k, schema)
             != At(SourceAt(start, hist, i), name, k, schema)
    ensures FireRange(image, hist, p, j, schema).Some?
    ensures At(FireRange(image, hist, p, j, schema).value, name, k, schema)
            == At(FireRange(image, hist, p, i, schema).value, name, k, schema)
  {
    hide Tame, FireRange, At, SourceAt;
    TameBounds(image, start, hist, p, q, schema);
    RunPart(image, hist, p, j, i, schema);
    RunSplit(image, hist, p, j, i, schema);
    TameRun(image, start, hist, p, j, q, schema);
    KeptOrLevel(FireRange(image, hist, p, j, schema).value, start, hist, j, i, q, name, k, schema);
  }

  lemma TameBounds(image: Image, start: Image, hist: seq<ChangeEvent>, lo: nat, hi: nat, schema: Schema)
    requires Tame(image, start, hist, lo, hi, schema)
    ensures lo <= hi <= |hist| && Accepted(start, hist, schema) && KeyedImage(image, schema)
  {
  }

  /** What the change that is refused first finds. */
  lemma {:induction false} RefusalFinds(image: Image, start: Image, hist: seq<ChangeEvent>, p: nat, r: nat, q: nat,
      schema: Schema)
    requires p <= r < q && Tame(image, start, hist, p, q, schema) && FireRange(image, hist, p, r, schema).Some?
    requires Fire(FireRange(image, hist, p, r, schema).value, hist[r], schema).None?
    ensures
      var x := FireRange(image, hist, p, r, schema).value;
      && Stores(hist[r], schema) && TableOf(hist[r], schema) in schema
      && At(x, TableOf(hist[r], schema), NewKey(hist[r], schema), schema) != {}
      && At(SourceAt(start, hist, r), TableOf(hist[r], schema), NewKey(hist[r], schema), schema) == {}
      && (hist[r].op.UpdateOp? ==> hist[r].oldRow in x[TableOf(hist[r], schema)])
      && KeyedImage(x, schema)
  {
    hide KeyedImage, At, SourceAt, Fire, FireRange, Legal, KeyKeeping, Lagging, MoveSafe, Accepted, Moves;
    RunKeeps(image, hist, p, r, schema);
    AcceptedAt(start, hist, r, schema);
    StepRefusedIff(FireRange(image, hist, p, r, schema).value, hist[r], schema);
    FreeAtSource(SourceAt(start, hist, r), hist[r], schema);
  }

  lemma {:induction false} RefusalIsRefusedAt(image: Image, start: Image, hist: seq<ChangeEvent>, p: nat, r: nat,
      q: nat,
      schema: Schema)
    requires p <= r < q && Tame(image, start, hist, p, q, schema) && FireRange(image, hist, p, r, schema).Some?
    requires Fire(FireRange(image, hist, p, r, schema).value, hist[r], schema).None?
    ensures RefusedAt(image, hist, p, r, schema)
  {
    hide Tame, FireRange, Fire, At, SourceAt, Clears, Stores, FullChange, KeyedImage;
    TameBounds(image, start, hist, p, q, schema);
    RefusalFinds(image, start, hist, p, r, q, schema);
    var name, k := TableOf(hist[r], schema), NewKey(hist[r], schema);
    HeldAllAlong(image, start, hist, p, p, r, q, name, k, schema);
    assert FireRange(image, hist, p, p, schema) == Some(image) by { NoRun(image, hist, p, schema); }
    forall j | p <= j < r && FullChange(hist[j], schema)
      ensures !Clears(hist[j], At(image, name, k, schema), name, k, schema)
    {
      HeldAllAlong(image, start, hist, p, j, r, q, name, k, schema);
      HeldAllAlong(image, start, hist, p, j + 1, r, q, name, k, schema);
      OneStep(image, hist, p, j, schema);
      RunKeeps(image, hist, p, j, schema);
      FilledStep(FireRange(image, hist, p, j, schema).value, hist[j], name, k, schema);
    }
    TableInImage(FireRange(image, hist, p, r, schema).value, name, schema);
  }

  lemma TableInImage(image: Image, name: seq<string>, schema: Schema)
    requires KeyedImage(image, schema) && name in schema
    ensures name in image
  {
  }

  lemma NoRun(image: Image, hist: seq<ChangeEvent>, p: nat, schema: Schema)
    requires p <= |hist|
    ensures FireRange(image, hist, p, p, schema) == Some(image)
  {
  }

  lemma OneStep(image: Image, hist: seq<ChangeEvent>, p: nat, j: nat, schema: Schema)
    requires p <= j < |hist| && FireRange(image, hist, p, j + 1, schema).Some?
    ensures FireRange(image, hist, p, j, schema).Some?
    ensures Fire(FireRange(image, hist, p, j, schema).value, hist[j], schema) == FireRange(image, hist, p, j + 1, schema)
  {
  }

  /** A replay is refused exactly when some change of it stores a row under a key that the image fills with a
      row which no earlier change of the replay clears, the moving row being there if it moves one. */
  lemma {:induction false} RefusedIff(image: Image, start: Image, hist: seq<ChangeEvent>, p: nat, m: nat, q: nat,
      schema: Schema)
    requires p <= m <= q && Tame(image, start, hist, p, q, schema)
    ensures FireRange(image, hist, p, m, schema).None?
            <==> exists i :: p <= i < m && RefusedAt(image, hist, p, i, schema)
  {
    hide Tame, FireRange, Fire, At, Clears, FullChange, KeyedImage, RefusedAt;
    TameBounds(image, start, hist, p, q, schema);
    if FireRange(image, hist, p, m, schema).None? {
      var r := FirstRefusal(image, hist, p, m, schema);
      RefusalIsRefusedAt(image, start, hist, p, r, q, schema);
    } else if i :| p <= i < m && RefusedAt(image, hist, p, i, schema) {
      RunPart(image, hist, p, i + 1, m, schema);
      OneStep(image, hist, p, i, schema);
      RefusedAtRefuses(image, start, hist, p, i, schema);
      assert false;
    }
  }

  lemma {:induction false} RefusedAtRefuses(image: Image, start: Image, hist: seq<ChangeEvent>, p: nat, i: nat,
      schema: Schema)
    requires p <= i < |hist| && Accepted(start, hist, schema) && KeyedImage(image, schema)
    requires FireRange(image, hist, p, i, schema).Some? && RefusedAt(image, hist, p, i, schema)
    ensures Fire(FireRange(image, hist, p, i, schema).value, hist[i], schema).None?
  {
    hide KeyedImage, Accepted, Fire, At, Clears, FireRange, Moves;
    var name, k := TableOf(hist[i], schema), NewKey(hist[i], schema);
    RunKeeps(image, hist, p, i, schema);
    UnclearedStays(image, start, hist, p, i, name, k, schema);
    StepRefusedIff(FireRange(image, hist, p, i, schema).value, hist[i], schema);
  }

  // ----- a refusal stays, whatever part of the batch is committed first -----

  /** A filled key fares the same in two images that agree on it. */
  lemma {:induction false} SameFilled(a: Image, b: Image, e: ChangeEvent, name: seq<string>, k: Row, schema: Schema)
    requires KeyedImage(a, schema) && KeyedImage(b, schema) && FullChange(e, schema) && name in schema
    requires Fire(a, e, schema).Some? && Fire(b, e, schema).Some?
    requires At(a, name, k, schema) == At(b, name, k, schema) != {}
    ensures At(Fire(a, e, schema).value, name, k, schema) == At(Fire(b, e, schema).value, name, k, schema)
  {
    hide KeyedImage, KeyTaken, OneRowPerKey;
    if name != TableOf(e, schema) {
      OtherTableAt(a, e, name, k, schema);
      OtherTableAt(b, e, name, k, schema);
    } else {
      match e.op
      case InsertOp => InsertAt(a, e, k, schema); InsertAt(b, e, k, schema);
      case UpdateOp => SameUpdated(a, b, e, k, schema);
      case DeleteOp => SameDeleted(a, b, e, k, schema);
      case OtherOp(_) =>
    }
  }

  lemma AtOldKey(image: Image, e: ChangeEvent, schema: Schema)
    requires KeyedImage(image, schema) && FullChange(e, schema)
    ensures TableOf(e, schema) in image
    ensures e.oldRow in image[TableOf(e, schema)]
            <==> e.oldRow in At(image, TableOf(e, schema), OldKey(e, schema), schema)
  {
  }

  lemma {:induction false} SameUpdated(a: Image, b: Image, e: ChangeEvent, k: Row, schema: Schema)
    requires KeyedImage(a, schema) && KeyedImage(b, schema) && FullChange(e, schema) && e.op.UpdateOp?
    requires Fire(a, e, schema).Some? && Fire(b, e, schema).Some?
    requires At(a, TableOf(e, schema), k, schema) == At(b, TableOf(e, schema), k, schema) != {}
    ensures At(Fire(a, e, schema).value, TableOf(e, schema), k, schema)
            == At(Fire(b, e, schema).value, TableOf(e, schema), k, schema)
  {
    hide KeyedImage, KeyTaken, OneRowPerKey;
    var name := TableOf(e, schema);
    if e.oldRow in a[name] {
      UpdateAt(a, e, k, schema);
      SingleAt(a, name, e.oldRow, schema);
    }
    if e.oldRow in b[name] {
      UpdateAt(b, e, k, schema);
      SingleAt(b, name, e.oldRow, schema);
    }
    AtOldKey(a, e, schema);
    AtOldKey(b, e, schema);
  }

  lemma {:induction false} SameDeleted(a: Image, b: Image, e: ChangeEvent, k: Row, schema: Schema)
    requires KeyedImage(a, schema) && KeyedImage(b, schema) && FullChange(e, schema) && e.op.DeleteOp?
    requires At(a, TableOf(e, schema), k, schema) == At(b, TableOf(e, schema), k, schema)
    ensures At(Commit(a, e), TableOf(e, schema), k, schema) == At(Commit(b, e), TableOf(e, schema), k, schema)
  {
    hide KeyedImage;
    var name := TableOf(e, schema);
    DeleteAt(a, e, k, schema);
    DeleteAt(b, e, k, schema);
    AtOldKey(a, e, schema);
    AtOldKey(b, e, schema);
  }

  /** `image` after `m` changes, sent again from `p`: a key filled but not level at `r` is filled with the same
      row when the second replay comes to `r`. */
  lemma {:induction false} FilledAgain(image: Image, start: Image, hist: seq<ChangeEvent>, p: nat, m: nat, j: nat,
      r: nat,
      q: nat, name: seq<string>, k: Row, schema: Schema)
    requires p <= m <= r <= q && p <= j <= r && Tame(image, start, hist, p, q, schema) && name in schema
    requires FireRange(image, hist, p, r, schema).Some? && FireRange(image, hist, p, m, schema).Some?
    requires FireRange(FireRange(image, hist, p, m, schema).value, hist, p, j, schema).Some?
    requires At(FireRange(image, hist, p, r, schema).value, name, k, schema) != {}
    requires At(SourceAt(start, hist, r), name, k, schema) == {}
    ensures At(FireRange(FireRange(image, hist, p, m, schema).value, hist, p, j, schema).value, name, k, schema)
            == At(FireRange(image, hist, p, r, schema).value, name, k, schema)
    decreases j
  {
    hide Tame, Fire, At, SourceAt, Accepted, KeyedImage, FullChange, Legal;
    TameBounds(image, start, hist, p, q, schema);
    var again := FireRange(image, hist, p, m, schema).value;
    if j == p {
      HeldAllAlong(image, start, hist, p, m, r, q, name, k, schema);
    } else {
      FilledAgain(image, start, hist, p, m, j - 1, r, q, name, k, schema);
      HeldAllAlong(image, start, hist, p, j - 1, r, q, name, k, schema);
      HeldAllAlong(image, start, hist, p, j, r, q, name, k, schema);
      RunKeeps(image, hist, p, j - 1, schema);
      RunKeeps(image, hist, p, m, schema);
      RunKeeps(again, hist, p, j - 1, schema);
      AcceptedAt(start, hist, j - 1, schema);
      SameFilled(FireRange(image, hist, p, j - 1, schema).value, FireRange(again, hist, p, j - 1, schema).value,
                 hist[j - 1], name, k, schema);
    }
  }

  /** One more change of the replay `x` and of its repetition `y`: a key level in `x` is level in `y`. `before` is
      what both start from. */
  lemma {:induction false} LevelStep(before: Image, x: Image, y: Image, source: Image, e: ChangeEvent,
      name: seq<string>, k: Row, schema: Schema)
    requires KeyedImage(x, schema) && KeyedImage(y, schema) && KeyedImage(source, schema) && name in schema
    requires Legal(source, e, schema) && Fire(x, e, schema).Some? && Fire(y, e, schema).Some?
    requires forall k' :: At(x, name, k', schema) == At(source, name, k', schema) ==>
               At(y, name, k', schema) == At(source, name, k', schema)
    requires At(x, name, k, schema) == At(before, name, k, schema) || At(x, name, k, schema) == At(source, name, k, schema)
    requires
      var y', source' := Fire(y, e, schema).value, Commit(source, e);
      || At(y', name, k, schema) == At(before, name, k, schema)
      || At(y', name, k, schema) == At(source', name, k, schema)
    ensures
      var x', y', source' := Fire(x, e, schema).value, Fire(y, e, schema).value, Commit(source, e);
      At(x', name, k, schema) == At(source', name, k, schema) ==> At(y', name, k, schema) == At(source', name, k, schema)
  {
    hide KeyedImage, Fire, Legal, At, Commit;
    var x', source' := Fire(x, e, schema).value, Commit(source, e);
    if At(x', name, k, schema) == At(source', name, k, schema) {
      if At(x, name, k, schema) == At(source, name, k, schema) {
        if Moves(e, schema) && name == TableOf(e, schema) && k == NewKey(e, schema) {
          MovedRowWasThere(x, source, e, schema);
          RowAtKey(x, y, source, e, schema);
        }
        FireAt(y, source, e, name, k, schema);
      } else {
        UnmatchedStays(x, source, e, name, k, schema);
      }
    }
  }

  lemma {:induction false} MovedRowWasThere(x: Image, source: Image, e: ChangeEvent, schema: Schema)
    requires KeyedImage(x, schema) && KeyedImage(source, schema) && Legal(source, e, schema) && Moves(e, schema)
    requires Fire(x, e, schema).Some?
    requires
      var name, k := TableOf(e, schema), NewKey(e, schema);
      && At(x, name, k, schema) == At(source, name, k, schema)
      && At(Fire(x, e, schema).value, name, k, schema) == At(Commit(source, e), name, k, schema)
    ensures e.oldRow in x[TableOf(e, schema)]
  {
    hide KeyedImage, KeyTaken, OneRowPerKey, At;
    FireKeepsKeys(source, e, schema);
    UpdateAt(source, e, NewKey(e, schema), schema);
    assert e.newRow in {e.newRow};
  }

  /** The row to be moved is there in `y` when it is in `x`, if `y` is level wherever `x` is. */
  lemma {:induction false} RowAtKey(x: Image, y: Image, source: Image, e: ChangeEvent, schema: Schema)
    requires KeyedImage(x, schema) && KeyedImage(y, schema) && KeyedImage(source, schema)
    requires Legal(source, e, schema) && e.op.UpdateOp? && e.oldRow in x[TableOf(e, schema)]
    requires
      var name, k := TableOf(e, schema), OldKey(e, schema);
      At(x, name, k, schema) == At(source, name, k, schema) ==> At(y, name, k, schema) == At(source, name, k, schema)
    ensures e.oldRow in y[TableOf(e, schema)]
  {
    SingleAt(x, TableOf(e, schema), e.oldRow, schema);
    SingleAt(source, TableOf(e, schema), e.oldRow, schema);
    OldRowPresent(y, source, e, OldKey(e, schema), schema);
  }

  /** What part `m` of a replay has left, sent again from `p`: from `m` on, every key that is level when the first
      replay comes to `j` is level when the second does. */
  lemma {:induction false} LevelAgain(image: Image, start: Image, hist: seq<ChangeEvent>, p: nat, m: nat, j: nat,
      q: nat,
      name: seq<string>, k: Row, schema: Schema)
    requires p <= m <= j <= q && Tame(image, start, hist, p, q, schema) && name in schema
    requires FireRange(image, hist, p, m, schema).Some? && FireRange(image, hist, p, j, schema).Some?
    requires FireRange(FireRange(image, hist, p, m, schema).value, hist, p, j, schema).Some?
    ensures
      var x, again := FireRange(image, hist, p, j, schema).value, FireRange(image, hist, p, m, schema).value;
      At(x, name, k, schema) == At(SourceAt(start, hist, j), name, k, schema) ==>
        At(FireRange(again, hist, p, j, schema).value, name, k, schema) == At(SourceAt(start, hist, j), name, k, schema)
    decreases j, 1
  {
    hide Tame, Fire, At, Accepted, KeyedImage, Legal, FireRange, Commit;
    TameBounds(image, start, hist, p, q, schema);
    var again := FireRange(image, hist, p, m, schema).value;
    TameRun(image, start, hist, p, m, q, schema);
    KeptOrLevel(again, start, hist, p, j, q, name, k, schema);
    if j > m { LevelAgainStep(image, start, hist, p, m, j, q, name, k, schema); }
  }

  lemma {:induction false} LevelAgainStep(image: Image, start: Image, hist: seq<ChangeEvent>, p: nat, m: nat, j: nat,
      q: nat,
      name: seq<string>, k: Row, schema: Schema)
    requires p <= m < j <= q && Tame(image, start, hist, p, q, schema) && name in schema
    requires FireRange(image, hist, p, m, schema).Some? && FireRange(image, hist, p, j, schema).Some?
    requires FireRange(FireRange(image, hist, p, m, schema).value, hist, p, j, schema).Some?
    ensures
      var x, again := FireRange(image, hist, p, j, schema).value, FireRange(image, hist, p, m, schema).value;
      At(x, name, k, schema) == At(SourceAt(start, hist, j), name, k, schema) ==>
        At(FireRange(again, hist, p, j, schema).value, name, k, schema) == At(SourceAt(start, hist, j), name, k, schema)
    decreases j, 0
  {
    hide Tame, Fire, At, Accepted, KeyedImage, Legal, FireRange, Commit;
    TameBounds(image, start, hist, p, q, schema);
    var again := FireRange(image, hist, p, m, schema).value;
    OneStep(image, hist, p, j - 1, schema);
    OneStep(again, hist, p, j - 1, schema);
    var x, y := FireRange(image, hist, p, j - 1, schema).value, FireRange(again, hist, p, j - 1, schema).value;
    var source := SourceAt(start, hist, j - 1);
    forall k' ensures At(x, name, k', schema) == At(source, name, k', schema) ==>
                        At(y, name, k', schema) == At(source, name, k', schema)
    {
      LevelAgain(image, start, hist, p, m, j - 1, q, name, k', schema);
    }
    TameRun(image, start, hist, p, m, q, schema);
    RunSplit(image, hist, p, m, j - 1, schema);
    KeptOrLevel(again, start, hist, m, j - 1, q, name, k, schema);
    KeptOrLevel(again, start, hist, p, j, q, name, k, schema);
    RunKeeps(image, hist, p, j - 1, schema);
    RunKeeps(image, hist, p, m, schema);
    RunKeeps(again, hist, p, j - 1, schema);
    AcceptedAt(start, hist, j - 1, schema);
    LevelStep(again, x, y, source, hist[j - 1], name, k, schema);
  }

  /** A replay that is refused is refused again after any part of it has been committed. */
  lemma {:induction false} RefusalStays(image: Image, start: Image, hist: seq<ChangeEvent>, p: nat, m: nat, q: nat,
      schema: Schema)
    requires p <= m <= q && Tame(image, start, hist, p, q, schema)
    ensures FireRange(image, hist, p, m, schema).Some? && FireRange(image, hist, p, q, schema).None? ==>
              FireRange(FireRange(image, hist, p, m, schema).value, hist, p, q, schema).None?
  {
    hide Tame, Fire, At, Accepted, KeyedImage, Legal, FireRange, SourceAt, FullChange, Stores;
    TameBounds(image, start, hist, p, q, schema);
    if FireRange(image, hist, p, m, schema).None? || FireRange(image, hist, p, q, schema).Some? { return; }
    var again := FireRange(image, hist, p, m, schema).value;
    var r := FirstRefusal(image, hist, p, q, schema);
    if m > r {
      RunPart(image, hist, p, r + 1, m, schema);
      OneStep(image, hist, p, r, schema);
    }
    RefusalFinds(image, start, hist, p, r, q, schema);
    if FireRange(again, hist, p, q, schema).Some? {
      RunPart(again, hist, p, r + 1, q, schema);
      OneStep(again, hist, p, r, schema);
      RunKeeps(image, hist, p, m, schema);
      RunKeeps(again, hist, p, r, schema);
      AcceptedAt(start, hist, r, schema);
      var name, x, y := TableOf(hist[r], schema), FireRange(image, hist, p, r, schema).value,
                        FireRange(again, hist, p, r, schema).value;
      FilledAgain(image, start, hist, p, m, r, r, q, name, NewKey(hist[r], schema), schema);
      if hist[r].op.UpdateOp? {
        LevelAgain(image, start, hist, p, m, r, q, name, OldKey(hist[r], schema), schema);
        RowAtKey(x, y, SourceAt(start, hist, r), hist[r], schema);
      }
      StepRefusedIff(y, hist[r], schema);
      assert false;
    }
  }
}
