/** What the source sends again after the engine dies: the replication slot remembers acknowledged positions,
    the engine acknowledges a commit when it sees it and a batch when it has flushed it. */
module Redelivery {
  import opened Wrappers
  import opened Rows
  import opened Subscription
  import opened EngineModel

  /** A relation as the server describes it. */
  datatype Rel = Rel(id: nat, namespace: string, name: string, columns: seq<Option<string>>)

  /** A change with its relation as it is at that moment. */
  datatype Change =
    | Inserts(rel: Rel, newTuple: Option<Tuple>)
    | Updates(rel: Rel, oldTuple: Option<Tuple>, newTuple: Option<Tuple>)
    | Deletes(rel: Rel, oldTuple: Option<Tuple>)

  datatype Txn = Txn(lsn: nat, time: nat, body: seq<Change>)

  const FRESH_DECODER := Decoder(0, 0, map[], [])

  // ----- the stream of a session -----

  function Announcement(r: Rel): Message { RelationMessage(r.id, r.namespace, r.name, r.columns) }

  function ChangeMessage(c: Change): Message {
    match c
    case Inserts(r, newTuple) => InsertMessage(r.id, newTuple)
    case Updates(r, oldTuple, newTuple) => UpdateMessage(r.id, oldTuple, newTuple)
    case Deletes(r, oldTuple) => DeleteMessage(r.id, oldTuple)
  }

  /** The relations a session has announced. */
  type Known = map<nat, Rel>

  /** A relation is announced before its first change of the session, and again when it has changed. */
  function WireChange(known: Known, c: Change): seq<Message> {
    if c.rel.id in known && known[c.rel.id] == c.rel then [ChangeMessage(c)]
    else [Announcement(c.rel), ChangeMessage(c)]
  }

  function KnownAfter(known: Known, body: seq<Change>): Known
    decreases |body|
  {
    if body == [] then known
    else KnownAfter(known, body[..|body| - 1])[body[|body| - 1].rel.id := body[|body| - 1].rel]
  }

  function WireBody(known: Known, body: seq<Change>): seq<Message>
    decreases |body|
  {
    if body == [] then []
    else
      var before := body[..|body| - 1];
      WireBody(known, before) + WireChange(KnownAfter(known, before), body[|body| - 1])
  }

  function Wire(known: Known, t: Txn): seq<Message> {
    [BeginMessage(t.lsn, t.time)] + WireBody(known, t.body) + [CommitMessage(t.lsn)]
  }

  function KnownAll(ts: seq<Txn>): Known
    decreases |ts|
  {
    if ts == [] then map[] else KnownAfter(KnownAll(ts[..|ts| - 1]), ts[|ts| - 1].body)
  }

  /** All that a session sends for the transactions `ts`. */
  function WireAll(ts: seq<Txn>): seq<Message>
    decreases |ts|
  {
    if ts == [] then []
    else
      var before := ts[..|ts| - 1];
      WireAll(before) + Wire(KnownAll(before), ts[|ts| - 1])
  }

  // ----- the events of the transactions -----

  /** The event a change stands for, whatever session brings it. */
  function EventFor(t: Txn, c: Change): ChangeEvent {
    var columns := ColumnNames(c.rel.columns);
    var table := c.rel.namespace + "." + c.rel.name;
    match c
    case Inserts(_, newTuple) =>
      ChangeEvent(t.lsn, t.time, table, InsertOp, map[], TupleRow(columns, newTuple))
    case Updates(_, oldTuple, newTuple) =>
      ChangeEvent(t.lsn, t.time, table, UpdateOp, TupleRow(columns, oldTuple), TupleRow(columns, newTuple))
    case Deletes(_, oldTuple) =>
      ChangeEvent(t.lsn, t.time, table, DeleteOp, TupleRow(columns, oldTuple), map[])
  }

  function Events(t: Txn): (r: seq<ChangeEvent>)
    ensures forall e :: e in r ==> e.lsn == t.lsn
  {
    seq(|t.body|, i requires 0 <= i < |t.body| => EventFor(t, t.body[i]))
  }

  function EventsAll(ts: seq<Txn>): seq<ChangeEvent>
    decreases |ts|
  {
    if ts == [] then [] else EventsAll(ts[..|ts| - 1]) + Events(ts[|ts| - 1])
  }

  /** Transactions in commit order. */
  predicate GoodLog(log: seq<Txn>) {
    && (forall i :: 0 <= i < |log| ==> log[i].lsn > 0)
    && (forall i, j :: 0 <= i < j < |log| ==> log[i].lsn < log[j].lsn)
  }

  // ----- decoding a session -----

  lemma {:induction false} DecodeConcat(d: Decoder, a: seq<Message>, b: seq<Message>)
    ensures DecodeAll(d, a + b) == DecodeAll(DecodeAll(d, a), b)
    decreases |b|
  {
    hide Decode;
    if b == [] {
      assert a + b == a;
    } else {
      assert (a + b)[..|a + b| - 1] == a + b[..|b| - 1];
      DecodeConcat(d, a, b[..|b| - 1]);
    }
  }

  lemma DecodeOne(d: Decoder, m: Message)
    ensures DecodeAll(d, [m]) == Decode(d, m)
  {
    assert [m][..0] == [];
    assert DecodeAll(d, [m][..0]) == d;
  }

  /** The decoder knows the relations that the session has announced. */
  ghost predicate Knows(d: Decoder, known: Known) {
    forall id :: id in known ==>
      && known[id].id == id && id in d.relations
      && d.relations[id] == RelationInfo(known[id].namespace + "." + known[id].name, ColumnNames(known[id].columns))
  }

  lemma {:induction false} DecodeChange(d: Decoder, known: Known, t: Txn, c: Change)
    requires Knows(d, known) && d.txLsn == t.lsn && d.txTime == t.time
    ensures
      var d' := DecodeAll(d, WireChange(known, c));
      && Knows(d', known[c.rel.id := c.rel]) && d'.txLsn == t.lsn && d'.txTime == t.time
      && d'.out == d.out + [EventFor(t, c)]
  {
    hide DecodeAll, RowUpTo, ColumnNames;
    DecodeOne(d, ChangeMessage(c));
    DecodeOne(d, Announcement(c.rel));
    DecodeOne(Decode(d, Announcement(c.rel)), ChangeMessage(c));
    DecodeConcat(d, [Announcement(c.rel)], [ChangeMessage(c)]);
    assert [Announcement(c.rel)] + [ChangeMessage(c)] == [Announcement(c.rel), ChangeMessage(c)];
  }

  lemma {:induction false} DecodeBody(d: Decoder, known: Known, t: Txn, n: nat)
    requires n <= |t.body| && Knows(d, known) && d.txLsn == t.lsn && d.txTime == t.time
    ensures
      var d' := DecodeAll(d, WireBody(known, t.body[..n]));
      && Knows(d', KnownAfter(known, t.body[..n])) && d'.txLsn == t.lsn && d'.txTime == t.time
      && d'.out == d.out + Events(t)[..n]
    decreases n
  {
    hide DecodeAll, Decode, Knows, WireChange, EventFor;
    if n == 0 {
      NothingOnWire(d, known);
      assert t.body[..0] == [] && Events(t)[..0] == [];
    } else {
      DecodeBody(d, known, t, n - 1);
      assert t.body[..n][..n - 1] == t.body[..n - 1];
      var before := WireBody(known, t.body[..n - 1]);
      var next := WireChange(KnownAfter(known, t.body[..n - 1]), t.body[n - 1]);
      DecodeConcat(d, before, next);
      DecodeChange(DecodeAll(d, before), KnownAfter(known, t.body[..n - 1]), t, t.body[n - 1]);
      assert Events(t)[..n] == Events(t)[..n - 1] + [EventFor(t, t.body[n - 1])];
    }
  }

  lemma NothingOnWire(d: Decoder, known: Known)
    ensures DecodeAll(d, WireBody(known, [])) == d && KnownAfter(known, []) == known
  {
  }

  /** A decoder that knows the session's relations emits exactly the events of the next transaction. */
  lemma {:induction false} DecodeTxn(d: Decoder, known: Known, t: Txn)
    requires Knows(d, known)
    ensures
      var d' := DecodeAll(d, Wire(known, t));
      Knows(d', KnownAfter(known, t.body)) && d'.out == d.out + Events(t)
  {
    hide DecodeAll, WireBody, KnownAfter, Events;
    var begin, commit := BeginMessage(t.lsn, t.time), CommitMessage(t.lsn);
    DecodeConcat(d, [begin], WireBody(known, t.body));
    DecodeConcat(d, [begin] + WireBody(known, t.body), [commit]);
    DecodeOne(d, begin);
    DecodeBody(Decode(d, begin), known, t, |t.body|);
    assert t.body[..|t.body|] == t.body && Events(t)[..|t.body|] == Events(t) by { AllEvents(t); }
    DecodeOne(DecodeAll(d, [begin] + WireBody(known, t.body)), commit);
  }

  lemma AllEvents(t: Txn)
    ensures |Events(t)| == |t.body|
  {
  }

  /** A session that sends whole transactions delivers exactly their events, whichever session it is and wherever
      in the log it starts. */
  lemma {:induction false} DecodeTxns(ts: seq<Txn>)
    ensures DecodeAll(FRESH_DECODER, WireAll(ts)).out == EventsAll(ts)
    ensures Knows(DecodeAll(FRESH_DECODER, WireAll(ts)), KnownAll(ts))
    decreases |ts|
  {
    hide Wire, Events, Decode, KnownAfter;
    if ts != [] {
      var before := ts[..|ts| - 1];
      DecodeTxns(before);
      DecodeConcat(FRESH_DECODER, WireAll(before), Wire(KnownAll(before), ts[|ts| - 1]));
      DecodeTxn(DecodeAll(FRESH_DECODER, WireAll(before)), KnownAll(before), ts[|ts| - 1]);
    }
  }

  lemma {:induction false} EventsOf(ts: seq<Txn>, e: ChangeEvent)
    ensures e in EventsAll(ts) <==> exists i :: 0 <= i < |ts| && e in Events(ts[i])
    decreases |ts|
  {
    hide Events;
    if ts != [] {
      var before := ts[..|ts| - 1];
      EventsOf(before, e);
      if i :| 0 <= i < |ts| && e in Events(ts[i]) {
        if i < |before| { assert before[i] == ts[i]; }
      }
    }
  }

  // ----- the slot -----

  /** A position the slot has confirmed covers a transaction that committed before it. Whether it covers the
      one that committed right at it is up to the server: `again` says that this one is sent again. */
  predicate Covers(position: nat, lsn: nat, again: bool) { lsn < position || (lsn == position && !again) }

  /** The transactions a session sends: those that the confirmed position does not cover. */
  function Pending(log: seq<Txn>, confirmed: nat, again: bool): seq<Txn>
    decreases |log|
  {
    if log == [] then []
    else
      var t := log[|log| - 1];
      Pending(log[..|log| - 1], confirmed, again) + (if Covers(confirmed, t.lsn, again) then [] else [t])
  }

  lemma {:induction false} PendingIs(log: seq<Txn>, confirmed: nat, again: bool, t: Txn)
    ensures t in Pending(log, confirmed, again) <==> t in log && !Covers(confirmed, t.lsn, again)
    decreases |log|
  {
    if log != [] {
      PendingIs(log[..|log| - 1], confirmed, again, t);
      assert log == log[..|log| - 1] + [log[|log| - 1]];
    }
  }

  // ----- sessions, crashes and restarts -----

  /** The slot with all that the source ever commits, and the engine's side of the session in progress: the
      stream being sent, how much of it has arrived, how many of its events are flushed. */
  datatype Link = Link(log: seq<Txn>, again: bool, confirmed: nat,
                       session: seq<Message>, seen: nat, flushed: nat, acked: nat)

  /** A status update may reach the server although the client sees an error. */
  datatype LinkStep =
    | Restart                                    // the process dies, starts and connects
    | Deliver(reached: bool, ok: bool)           // the next message; a commit is acknowledged
    | Flush(count: nat, reached: bool, ok: bool) // the next events are flushed and acknowledged

  function Received(w: Link): seq<ChangeEvent> {
    if w.seen <= |w.session| then DecodeAll(FRESH_DECODER, w.session[..w.seen]).out else []
  }

  predicate CanStep(w: Link, s: LinkStep) {
    match s
    case Restart => true
    case Deliver(reached, ok) => w.seen < |w.session| && (ok ==> reached)
    case Flush(n, reached, ok) => w.flushed + n <= |Received(w)| && (ok ==> reached)
  }

  /** The position a step acknowledges, when its status update reaches the server. */
  function Acknowledged(w: Link, s: LinkStep): Option<nat> {
    if !CanStep(w, s) then None
    else
      match s
      case Restart => None
      case Deliver(reached, _) =>
        if reached && w.session[w.seen].CommitMessage? then Some(w.session[w.seen].commitLsn) else None
      case Flush(n, reached, _) =>
        var m := MaxLsn(Received(w)[w.flushed..w.flushed + n]);
        if reached && m > 0 then Some(m) else None
  }

  function Raise(a: nat, b: Option<nat>): nat { if b.Some? && b.value > a then b.value else a }

  function AfterLink(w: Link, s: LinkStep): Link {
    var ack := Acknowledged(w, s);
    match s
    case Restart => w.(session := WireAll(Pending(w.log, w.confirmed, w.again)), seen := 0, flushed := 0, acked := 0)
    case Deliver(_, ok) =>
      w.(seen := w.seen + 1, confirmed := Raise(w.confirmed, ack), acked := if ok then Raise(w.acked, ack) else w.acked)
    case Flush(n, _, ok) =>
      w.(flushed := w.flushed + n, confirmed := Raise(w.confirmed, ack),
         acked := if ok then Raise(w.acked, ack) else w.acked)
  }

  function LinkAt(w: Link, steps: seq<LinkStep>, n: nat): Link
    requires n <= |steps|
  {
    if n == 0 then w else AfterLink(LinkAt(w, steps, n - 1), steps[n - 1])
  }

  predicate CanLink(w: Link, steps: seq<LinkStep>) {
    forall i :: 0 <= i < |steps| ==> CanStep(LinkAt(w, steps, i), steps[i])
  }

  /** Only received events are flushed, and the client never acknowledges more than the slot has confirmed, so
      that a keepalive reply, which repeats the acknowledged position, confirms nothing new. */
  predicate LinkOk(w: Link) { w.seen <= |w.session| && w.flushed <= |Received(w)| && w.acked <= w.confirmed }

  lemma {:induction false} LinkStaysOk(w: Link, s: LinkStep)
    requires LinkOk(w) && CanStep(w, s)
    ensures LinkOk(AfterLink(w, s))
  {
    hide DecodeAll, Decode, WireAll, Pending, MaxLsn;
    if s.Deliver? {
      var next := w.session[..w.seen + 1];
      assert next[..w.seen] == w.session[..w.seen];
      OutGrows(FRESH_DECODER, next, w.seen);
    }
  }

  /** A new slot, nothing sent. */
  function NewLink(log: seq<Txn>, again: bool): Link { Link(log, again, 0, [], 0, 0, 0) }

  lemma {:induction false} LinkAlwaysOk(log: seq<Txn>, again: bool, steps: seq<LinkStep>, n: nat)
    requires n <= |steps| && CanLink(NewLink(log, again), steps)
    ensures LinkOk(LinkAt(NewLink(log, again), steps, n))
  {
    hide LinkOk, CanStep, AfterLink;
    if n > 0 {
      LinkAlwaysOk(log, again, steps, n - 1);
      LinkStaysOk(LinkAt(NewLink(log, again), steps, n - 1), steps[n - 1]);
    } else {
      NewIsOk(log, again);
    }
  }

  lemma NewIsOk(log: seq<Txn>, again: bool)
    ensures LinkOk(NewLink(log, again))
  {
  }

  /** Step `i` acknowledges a position that covers `lsn`. */
  ghost predicate Acks(log: seq<Txn>, again: bool, steps: seq<LinkStep>, i: nat, lsn: nat)
    requires i < |steps|
  {
    var ack := Acknowledged(LinkAt(NewLink(log, again), steps, i), steps[i]);
    ack.Some? && Covers(ack.value, lsn, again)
  }

  lemma ConfirmedStep(w: Link, s: LinkStep, lsn: nat)
    ensures
      var w', ack := AfterLink(w, s), Acknowledged(w, s);
      && w'.log == w.log && w'.again == w.again
      && (Covers(w'.confirmed, lsn, w.again)
          <==> Covers(w.confirmed, lsn, w.again) || (ack.Some? && Covers(ack.value, lsn, w.again)))
  {
  }

  /** The log stays; the confirmed position covers a transaction exactly when an acknowledgement did. */
  lemma {:induction false} ConfirmedIs(log: seq<Txn>, again: bool, steps: seq<LinkStep>, n: nat, lsn: nat)
    requires n <= |steps| && lsn > 0
    ensures
      var w := LinkAt(NewLink(log, again), steps, n);
      && w.log == log && w.again == again
      && (Covers(w.confirmed, lsn, again) <==> exists i :: 0 <= i < n && Acks(log, again, steps, i, lsn))
    decreases n
  {
    hide Acknowledged, AfterLink, Covers;
    if n > 0 {
      hide Acks;
      ConfirmedIs(log, again, steps, n - 1, lsn);
      ConfirmedStep(LinkAt(NewLink(log, again), steps, n - 1), steps[n - 1], lsn);
      AcksIs(log, again, steps, n - 1, lsn);
      if Acks(log, again, steps, n - 1, lsn) {
        assert exists i :: 0 <= i < n && Acks(log, again, steps, i, lsn);
      }
    } else {
      NothingCovered(lsn, again);
    }
  }

  lemma NothingCovered(lsn: nat, again: bool)
    requires lsn > 0
    ensures !Covers(0, lsn, again)
  {
  }

  lemma AcksIs(log: seq<Txn>, again: bool, steps: seq<LinkStep>, i: nat, lsn: nat)
    requires i < |steps|
    ensures
      var ack := Acknowledged(LinkAt(NewLink(log, again), steps, i), steps[i]);
      Acks(log, again, steps, i, lsn) <==> ack.Some? && Covers(ack.value, lsn, again)
  {
  }

  /** All events that the session after a restart can deliver. */
  function Next(w: Link): seq<ChangeEvent> { DecodeAll(FRESH_DECODER, AfterLink(w, Restart).session).out }

  lemma {:induction false} NextIff(w: Link, j: nat, e: ChangeEvent)
    requires GoodLog(w.log) && j < |w.log| && e in Events(w.log[j])
    ensures e in Next(w) <==> !Covers(w.confirmed, w.log[j].lsn, w.again)
  {
    hide WireAll, Wire, DecodeAll, EventFor;
    var ts := Pending(w.log, w.confirmed, w.again);
    DecodeTxns(ts);
    EventsOf(ts, e);
    PendingIs(w.log, w.confirmed, w.again, w.log[j]);
    if i :| 0 <= i < |ts| && e in Events(ts[i]) {
      assert ts[i] in ts;
      PendingIs(w.log, w.confirmed, w.again, ts[i]);
      var k :| 0 <= k < |w.log| && w.log[k] == ts[i];
      assert k == j;
    }
  }

  /** After a crash at any moment, an event comes again exactly when no acknowledgement that reached the server,
      of a commit that was seen or of a batch that was flushed, covers its transaction. Whether the event
      itself had been flushed plays no part. */
  lemma {:induction false} ComesAgainIff(log: seq<Txn>, again: bool, steps: seq<LinkStep>, j: nat, e: ChangeEvent)
    requires GoodLog(log) && CanLink(NewLink(log, again), steps)
    requires j < |log| && e in Events(log[j])
    ensures e in Next(LinkAt(NewLink(log, again), steps, |steps|))
            <==> !exists i :: 0 <= i < |steps| && Acks(log, again, steps, i, log[j].lsn)
  {
    hide Events, Next, Acks, LinkAt, CanLink, GoodLog;
    assert log[j].lsn > 0 by { PositiveLsn(log, j); }
    ConfirmedIs(log, again, steps, |steps|, log[j].lsn);
    NextIff(LinkAt(NewLink(log, again), steps, |steps|), j, e);
  }

  lemma PositiveLsn(log: seq<Txn>, j: nat)
    requires GoodLog(log) && j < |log|
    ensures log[j].lsn > 0
  {
  }

  /** What one crash no longer brings back, no later one does. */
  lemma {:induction false} NeverAgain(log: seq<Txn>, again: bool, steps: seq<LinkStep>, n: nat, j: nat, e: ChangeEvent)
    requires GoodLog(log) && CanLink(NewLink(log, again), steps) && n <= |steps|
    requires j < |log| && e in Events(log[j])
    ensures e !in Next(LinkAt(NewLink(log, again), steps, n)) ==>
              e !in Next(LinkAt(NewLink(log, again), steps, |steps|))
  {
    hide Events, Next, Acks, LinkAt, CanLink, GoodLog;
    assert log[j].lsn > 0 by { PositiveLsn(log, j); }
    ConfirmedIs(log, again, steps, n, log[j].lsn);
    ConfirmedIs(log, again, steps, |steps|, log[j].lsn);
    NextIff(LinkAt(NewLink(log, again), steps, n), j, e);
    NextIff(LinkAt(NewLink(log, again), steps, |steps|), j, e);
  }

  // ----- a crash before the flush -----

  /** The whole session arrives, every commit is acknowledged, nothing is flushed. */
  function Deliveries(n: nat): (r: seq<LinkStep>)
    ensures |r| == n + 1
  {
    [Restart] + seq(n, i requires 0 <= i < n => Deliver(true, true))
  }

  lemma {:induction false} DeliveriesRun(log: seq<Txn>, again: bool, n: nat, k: nat)
    requires n <= |WireAll(log)| && k <= n && GoodLog(log)
    ensures
      var w := LinkAt(NewLink(log, again), Deliveries(n), k + 1);
      && LinkOk(w) && w.log == log && w.again == again && w.session == WireAll(log) && w.seen == k && w.flushed == 0
      && forall i :: 0 <= i < k && WireAll(log)[i].CommitMessage? ==> WireAll(log)[i].commitLsn <= w.confirmed
    decreases k
  {
    hide WireAll, Received, Pending, GoodLog;
    if k == 0 {
      NothingConfirmed(log, again);
      assert LinkAt(NewLink(log, again), Deliveries(n), 0) == NewLink(log, again);
      assert Deliveries(n)[0] == Restart;
    } else {
      DeliveriesRun(log, again, n, k - 1);
      assert Deliveries(n)[k] == Deliver(true, true);
    }
  }

  lemma {:induction false} NothingConfirmed(log: seq<Txn>, again: bool)
    requires GoodLog(log)
    ensures Pending(log, 0, again) == log
    decreases |log|
  {
    if log != [] {
      NothingConfirmed(log[..|log| - 1], again);
      assert log[|log| - 1].lsn > 0;
    }
  }

  lemma {:induction false} CommitOnWire(log: seq<Txn>, j: nat)
    requires j < |log|
    ensures exists i :: 0 <= i < |WireAll(log)| && WireAll(log)[i] == CommitMessage(log[j].lsn)
    decreases |log|
  {
    var before, last := WireAll(log[..|log| - 1]), log[|log| - 1];
    if j == |log| - 1 {
      var i := |before| + |Wire(KnownAll(log[..|log| - 1]), last)| - 1;
      assert WireAll(log)[i] == CommitMessage(last.lsn);
    } else {
      CommitOnWire(log[..|log| - 1], j);
      var i :| 0 <= i < |before| && before[i] == CommitMessage(log[j].lsn);
      assert WireAll(log)[i] == CommitMessage(log[j].lsn);
    }
  }

  /** The engine's state when all of the log has arrived and nothing is flushed. */
  function Arrived(log: seq<Txn>, again: bool): Link {
    LinkAt(NewLink(log, again), Deliveries(|WireAll(log)|), |WireAll(log)| + 1)
  }

  lemma {:induction false} AllArrived(log: seq<Txn>, again: bool)
    requires GoodLog(log)
    ensures
      var w := Arrived(log, again);
      && w.log == log && w.again == again && w.flushed == 0 && Received(w) == EventsAll(log)
      && (log != [] ==> log[|log| - 1].lsn <= w.confirmed)
  {
    hide WireAll, Wire, DecodeAll, LinkAt, LinkOk;
    var n := |WireAll(log)|;
    DeliveriesRun(log, again, n, n);
    assert WireAll(log)[..n] == WireAll(log);
    DecodeTxns(log);
    if log != [] { CommitOnWire(log, |log| - 1); }
  }

  /** For every log: a run in which the engine receives all events, acknowledges their commits and dies
      before it flushes any. No event of any transaction but the last ever comes again, over every
      continuation; nor any of the last, unless the server sends it again. */
  lemma {:induction false} UnflushedAreLost(log: seq<Txn>, again: bool, more: seq<LinkStep>, j: nat, e: ChangeEvent)
    requires GoodLog(log) && j < |log| && (j + 1 < |log| || !again) && e in Events(log[j])
    requires CanLink(NewLink(log, again), Deliveries(|WireAll(log)|) + more)
    ensures e in Received(Arrived(log, again)) && Arrived(log, again).flushed == 0
    ensures
      var steps := Deliveries(|WireAll(log)|) + more;
      e !in Next(LinkAt(NewLink(log, again), steps, |steps|))
  {
    hide Events, Next, WireAll, CanLink, Received, LinkAt, Deliveries, EventsAll;
    var first := Deliveries(|WireAll(log)|);
    AllArrived(log, again);
    EventsOf(log, e);
    var w := Arrived(log, again);
    assert Covers(w.confirmed, log[j].lsn, again) by {
      if j + 1 < |log| { assert log[j].lsn < log[|log| - 1].lsn; }
    }
    NextIff(w, j, e);
    SameStart(NewLink(log, again), first, first + more, |first|);
    NeverAgain(log, again, first + more, |first|, j, e);
  }

  lemma {:induction false} SameStart(w: Link, a: seq<LinkStep>, b: seq<LinkStep>, n: nat)
    requires n <= |a| && a <= b
    ensures LinkAt(w, a, n) == LinkAt(w, b, n)
  {
    hide AfterLink;
    if n > 0 { SameStart(w, a, b, n - 1); }
  }

  /** That run can be taken. */
  lemma {:induction false} DeliveriesCanRun(log: seq<Txn>, again: bool)
    requires GoodLog(log)
    ensures CanLink(NewLink(log, again), Deliveries(|WireAll(log)|))
  {
    hide WireAll, GoodLog, Received, LinkAt;
    var n := |WireAll(log)|;
    forall i | 0 <= i < n + 1 ensures CanStep(LinkAt(NewLink(log, again), Deliveries(n), i), Deliveries(n)[i]) {
      if i == 0 {
        StartOk(log, again, Deliveries(n));
      } else {
        DeliveriesRun(log, again, n, i - 1);
      }
    }
  }

  lemma StartOk(log: seq<Txn>, again: bool, steps: seq<LinkStep>)
    requires steps != [] && steps[0] == Restart
    ensures CanStep(LinkAt(NewLink(log, again), steps, 0), steps[0])
  {
  }
}
