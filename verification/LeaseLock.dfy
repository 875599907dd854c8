/** The distributed lock: one object in a bucket that is created if absent, read, overwritten and
    deleted. Here each operation runs by itself; LockInterleaving lets single requests interleave. */
module LeaseLock {
  import opened Wrappers

  // ----- the stored object -----

  /** Nanoseconds in a second. */
  const SECOND: int := 1_000_000_000

  /** A time as RFC 3339 text (section 5.6) without fractional seconds, or text that is no time. */
  datatype Stamp = Second(s: int) | NoTime(text: string)

  /** Formatting drops the fraction of the second. */
  function Format(t: int): Stamp { Second(t / SECOND) }

  function ParseTime(s: Stamp): Option<int> {
    match s
    case Second(n) => Some(n * SECOND)
    case NoTime(_) => None
  }

  /** The object's content: the lock's metadata, or bytes that are not such metadata. */
  datatype Stored = Meta(holder: string, acquired: Stamp, expires: Stamp) | Garbled

  type Object = Option<Stored>

  function Lease(node: string, ttl: int, t: int): Stored { Meta(node, Format(t), Format(t + ttl)) }

  /** An expiry that cannot be read never passes. */
  predicate Expired(o: Stored, t: int) {
    o.Meta? && ParseTime(o.expires).Some? && ParseTime(o.expires).value <= t
  }

  predicate Free(o: Object, t: int) { o.None? || Expired(o.value, t) }

  predicate HeldBy(o: Object, node: string) { o.Some? && o.value.Meta? && o.value.holder == node }

  // ----- operations as steps on the shared object and a shared clock -----

  datatype LockError = NotLockHolder | LockNotFound | RequestFailed

  datatype Call =
    | Acquire(ttl: int, tried: int, checked: int, retried: int, outcome: Result<bool, LockError>)
    | Renew(ttl: int, at: int, error: Option<LockError>)
    | Release(error: Option<LockError>)
    | GetHolder(found: Result<string, LockError>)

  /** A node's call, with its clock readings, what it returned, and what it left behind. */
  datatype LockStep = LockStep(node: string, call: Call, end: int, after: Object)

  datatype LockWorld = LockWorld(obj: Object, now: int)

  predicate Taken(o: Object, s: LockStep, ttl: int, tried: int, retried: int) {
    || s.after == Some(Lease(s.node, ttl, retried))
    || (o.None? && s.after == Some(Lease(s.node, ttl, tried)))
  }

  predicate Renewed(o: Object, s: LockStep, ttl: int, at: int) {
    HeldBy(o, s.node) && s.after == Some(o.value.(expires := Format(at + ttl)))
  }

  /** What a call may do and say when any of its requests may fail, before or after it took effect. */
  predicate Permitted(w: LockWorld, s: LockStep) {
    match s.call
    case Acquire(ttl, tried, checked, retried, outcome) =>
      && w.now <= tried <= checked <= retried <= s.end
      && (outcome == Success(true) ==> Free(w.obj, checked) && Taken(w.obj, s, ttl, tried, retried))
      && (s.after != w.obj ==>
            Free(w.obj, checked) && (s.after.None? || Taken(w.obj, s, ttl, tried, retried)))
      && outcome != Failure(NotLockHolder) && outcome != Failure(LockNotFound)
    case Renew(ttl, at, error) =>
      && w.now <= at <= s.end
      && (error.None? || s.after != w.obj ==> Renewed(w.obj, s, ttl, at))
      && (error == Some(LockNotFound) ==> w.obj.None?)
      && (error == Some(NotLockHolder) ==> w.obj.Some? && w.obj.value.Meta? && w.obj.value.holder != s.node)
    case Release(error) =>
      && w.now <= s.end
      && (error.None? ==> s.after.None? && (w.obj.None? || HeldBy(w.obj, s.node)))
      && (s.after != w.obj ==> s.after.None? && HeldBy(w.obj, s.node))
      && (error == Some(NotLockHolder) ==> w.obj.Some? && w.obj.value.Meta? && w.obj.value.holder != s.node)
      && error != Some(LockNotFound)
    case GetHolder(found) =>
      && w.now <= s.end && s.after == w.obj
      && (found.Success? ==> HeldBy(w.obj, found.value))
      && (found == Failure(LockNotFound) ==> w.obj.None?)
      && found != Failure(NotLockHolder)
  }

  function After(s: LockStep): LockWorld { LockWorld(s.after, s.end) }

  /** The world after the first `n` steps. */
  function WorldAt(w: LockWorld, steps: seq<LockStep>, n: nat): LockWorld
    requires n <= |steps|
  {
    if n == 0 then w else After(steps[n - 1])
  }

  predicate LockRun(w: LockWorld, steps: seq<LockStep>) {
    forall i :: 0 <= i < |steps| ==> Permitted(WorldAt(w, steps, i), steps[i])
  }

  // ----- the lease guarantee -----

  /** The step that gives its node a lease: a granted Acquire or a successful Renew. */
  predicate Leases(s: LockStep) {
    match s.call
    case Acquire(_, _, _, _, outcome) => outcome == Success(true)
    case Renew(_, _, error) => error.None?
    case _ => false
  }

  function Ttl(s: LockStep): int
    requires Leases(s)
  {
    s.call.ttl
  }

  /** The clock reading that a lease is counted from. */
  function LeasedAt(o: Object, s: LockStep): int
    requires Leases(s)
  {
    match s.call
    case Acquire(ttl, tried, _, retried, _) =>
      if s.after == Some(Lease(s.node, ttl, retried)) then retried else tried
    case Renew(_, at, _) => at
  }

  /** The whole second in which the lease would end. */
  function Bound(t: int, ttl: int): int { (t + ttl) / SECOND * SECOND }

  lemma BoundClose(t: int, ttl: int)
    ensures t + ttl - SECOND < Bound(t, ttl) <= t + ttl
  {
  }

  lemma BoundMonotone(t: int, ttl: int, t': int, ttl': int)
    requires t <= t' && ttl <= ttl'
    ensures Bound(t, ttl) <= Bound(t', ttl')
  {
  }

  /** The lease is over, or its node is the stored holder and the stored expiry is not before `bound`. */
  predicate Guarded(w: LockWorld, node: string, bound: int) {
    w.now >= bound
    || (HeldBy(w.obj, node) && ParseTime(w.obj.value.expires).Some? && ParseTime(w.obj.value.expires).value >= bound)
  }

  lemma LeaseStarts(w: LockWorld, s: LockStep)
    requires Permitted(w, s) && Leases(s)
    ensures Guarded(After(s), s.node, Bound(LeasedAt(w.obj, s), Ttl(s)))
    ensures w.now <= LeasedAt(w.obj, s) <= After(s).now
  {
  }

  /** Only a release, or a renewal that asks for less time, can end the guard early. */
  lemma GuardStep(w: LockWorld, s: LockStep, node: string, t: int, ttl: int)
    requires Permitted(w, s) && t <= w.now && Guarded(w, node, Bound(t, ttl))
    requires s.node == node ==> !s.call.Release? && (s.call.Renew? ==> s.call.ttl >= ttl)
    ensures Guarded(After(s), node, Bound(t, ttl)) && t <= After(s).now
    ensures Leases(s) && s.call.Acquire? ==> s.node == node || s.call.checked >= Bound(t, ttl)
    ensures s.call.Acquire? && s.call.checked < Bound(t, ttl) ==> s.after == w.obj
  {
    if s.call.Renew? && s.node == node {
      BoundMonotone(t, ttl, s.call.at, s.call.ttl);
    }
  }

  lemma {:induction false} GuardLasts(w: LockWorld, steps: seq<LockStep>, i: nat, j: nat)
    requires LockRun(w, steps) && i < j <= |steps| && Leases(steps[i])
    requires forall k :: i < k < j && steps[k].node == steps[i].node ==>
               !steps[k].call.Release? && (steps[k].call.Renew? ==> steps[k].call.ttl >= Ttl(steps[i]))
    ensures
      var t := LeasedAt(WorldAt(w, steps, i).obj, steps[i]);
      Guarded(WorldAt(w, steps, j), steps[i].node, Bound(t, Ttl(steps[i]))) && t <= WorldAt(w, steps, j).now
    decreases j
  {
    hide Permitted, Guarded, Bound, Leases;
    assert Permitted(WorldAt(w, steps, i), steps[i]);
    LeaseStarts(WorldAt(w, steps, i), steps[i]);
    if j > i + 1 {
      GuardLasts(w, steps, i, j - 1);
      assert Permitted(WorldAt(w, steps, j - 1), steps[j - 1]);
      GuardStep(WorldAt(w, steps, j - 1), steps[j - 1], steps[i].node,
                LeasedAt(WorldAt(w, steps, i).obj, steps[i]), Ttl(steps[i]));
    }
  }

  /** After a node gets or renews a lease at `t` for `ttl`, no other node's Acquire succeeds before
      t + ttl rounded down to the second, unless the node releases the lock or renews for less time;
      until then other nodes' calls do not even change the object. */
  lemma {:induction false} LeaseGuarantee(w: LockWorld, steps: seq<LockStep>, i: nat, j: nat)
    requires LockRun(w, steps) && i < j < |steps| && Leases(steps[i])
    requires forall k :: i < k < j && steps[k].node == steps[i].node ==>
               !steps[k].call.Release? && (steps[k].call.Renew? ==> steps[k].call.ttl >= Ttl(steps[i]))
    requires steps[j].node != steps[i].node && steps[j].call.Acquire?
    ensures
      var t, ttl := LeasedAt(WorldAt(w, steps, i).obj, steps[i]), Ttl(steps[i]);
      && (Leases(steps[j]) ==> steps[j].call.checked >= Bound(t, ttl) > t + ttl - SECOND)
      && (steps[j].call.checked < Bound(t, ttl) ==> steps[j].after == WorldAt(w, steps, j).obj)
  {
    hide Guarded, Bound;
    var t, ttl := LeasedAt(WorldAt(w, steps, i).obj, steps[i]), Ttl(steps[i]);
    GuardLasts(w, steps, i, j);
    GuardStep(WorldAt(w, steps, j), steps[j], steps[i].node, t, ttl);
    BoundClose(t, ttl);
  }

  /** The rounding is real: a lease of one second taken late in a second can end after a nanosecond. */
  lemma LeaseCanEndEarly()
    ensures
      var a := LockStep("a", Acquire(SECOND, SECOND - 1, SECOND - 1, SECOND - 1, Success(true)), SECOND - 1,
                        Some(Lease("a", SECOND, SECOND - 1)));
      var b := LockStep("b", Acquire(SECOND, SECOND, SECOND, SECOND, Success(true)), SECOND,
                        Some(Lease("b", SECOND, SECOND)));
      LockRun(LockWorld(None, 0), [a, b]) && Leases(a) && Leases(b) && b.call.checked == LeasedAt(None, a) + 1
  {
    var a := LockStep("a", Acquire(SECOND, SECOND - 1, SECOND - 1, SECOND - 1, Success(true)), SECOND - 1,
                      Some(Lease("a", SECOND, SECOND - 1)));
    var b := LockStep("b", Acquire(SECOND, SECOND, SECOND, SECOND, Success(true)), SECOND,
                      Some(Lease("b", SECOND, SECOND)));
    var w := LockWorld(None, 0);
    assert WorldAt(w, [a, b], 0) == w && WorldAt(w, [a, b], 1) == After(a);
    assert Permitted(w, a);
    assert Permitted(After(a), b);
  }

  /** The end of a lease: another node finds it free exactly from the bound on, and that is the whole lease exactly
      when it would end on a whole second. */
  lemma LeaseEndsAtBound(node: string, ttl: int, t: int, checked: int)
    ensures Free(Some(Lease(node, ttl, t)), checked) <==> checked >= Bound(t, ttl)
    ensures Bound(t, ttl) == t + ttl <==> (t + ttl) % SECOND == 0
  {
    var whole := (t + ttl) / SECOND * SECOND;
    assert t + ttl == whole + (t + ttl) % SECOND;
  }

  // ----- the lock -----

  datatype CreateAnswer = Created | PreconditionFailed | CreateError
  datatype ReadAnswer = Content(stored: Stored) | NotFound | ReadError
  datatype DeleteAnswer = Deleted | Absent | DeleteError

  class Clock {
    var now: int

    method Read() returns (t: int)
      modifies this
      ensures t == now >= old(now)
    {
      var d: int := *;
      if d > 0 { now := now + d; }
      t := now;
    }
  }

  /** The bucket's one object. Unless the bucket is reliable any request may fail, and a request
      that is reported as failed may have taken effect. */
  class Bucket {
    var obj: Object
    const reliable: bool

    constructor (reliable: bool)
      ensures this.reliable == reliable && obj.None?
    {
      this.reliable, obj := reliable, None;
    }

    method CreateIfAbsent(s: Stored) returns (answer: CreateAnswer)
      modifies this
      ensures obj == old(obj) || (old(obj).None? && obj == Some(s))
      ensures answer.Created? ==> old(obj).None? && obj == Some(s)
      ensures reliable ==> answer == if old(obj).None? then Created else PreconditionFailed
    {
      var lost: bool := *;
      var applied: bool := *;
      var failed: bool := *;
      if !reliable && lost {
        if applied && obj.None? { obj := Some(s); }
        return if failed then CreateError else PreconditionFailed;
      }
      if obj.Some? { return PreconditionFailed; }
      obj := Some(s);
      answer := Created;
    }

    method Read() returns (answer: ReadAnswer)
      ensures answer.Content? ==> obj == Some(answer.stored)
      ensures answer.NotFound? ==> obj.None?
      ensures reliable ==> !answer.ReadError?
    {
      var lost: bool := *;
      if !reliable && lost { return ReadError; }
      answer := match obj case None => NotFound case Some(s) => Content(s);
    }

    method Overwrite(s: Stored) returns (ok: bool)
      modifies this
      ensures obj == old(obj) || obj == Some(s)
      ensures ok ==> obj == Some(s)
      ensures reliable ==> ok
    {
      var lost: bool := *;
      var applied: bool := *;
      ok := reliable || !lost;
      if ok || applied { obj := Some(s); }
    }

    method Delete() returns (answer: DeleteAnswer)
      modifies this
      ensures obj == old(obj) || obj == None
      ensures !answer.DeleteError? ==> obj == None
      ensures reliable ==> !answer.DeleteError?
    {
      var lost: bool := *;
      var applied: bool := *;
      if !reliable && lost {
        if applied { obj := None; }
        return DeleteError;
      }
      answer := if obj.Some? then Deleted else Absent;
      obj := None;
    }
  }

  class GCSLock {
    const bucket: Bucket
    const clock: Clock
    const nodeID: string

    constructor (bucket: Bucket, clock: Clock, nodeID: string)
      ensures this.bucket == bucket && this.clock == clock && this.nodeID == nodeID
    {
      this.bucket, this.clock, this.nodeID := bucket, clock, nodeID;
    }

    ghost function View(): LockWorld
      reads bucket, clock
    {
      LockWorld(bucket.obj, clock.now)
    }

    method TryCreate(ttl: int) returns (r: Result<bool, LockError>, ghost t: int)
      modifies bucket, clock
      ensures old(clock.now) <= t == clock.now
      ensures bucket.obj == old(bucket.obj) || (old(bucket.obj).None? && bucket.obj == Some(Lease(nodeID, ttl, t)))
      ensures r == Success(true) ==> old(bucket.obj).None? && bucket.obj == Some(Lease(nodeID, ttl, t))
      ensures r.Failure? ==> r.error == RequestFailed
      ensures bucket.reliable ==> r == Success(old(bucket.obj).None?)
    {
      var now := clock.Read();
      t := now;
      var answer := bucket.CreateIfAbsent(Meta(nodeID, Format(now), Format(now + ttl)));
      match answer
      case Created => r := Success(true);
      case PreconditionFailed => r := Success(false);
      case CreateError => r := Failure(RequestFailed);
    }

    method ReadMeta() returns (r: Result<Stored, LockError>)
      ensures r.Success? ==> r.value.Meta? && bucket.obj == Some(r.value)
      ensures r.Failure? ==> r.error != NotLockHolder && (r.error == LockNotFound ==> bucket.obj.None?)
      ensures bucket.reliable && r.Failure? ==>
        if bucket.obj.None? then r.error == LockNotFound else bucket.obj.value.Garbled?
    {
      var answer := bucket.Read();
      match answer
      case NotFound => r := Failure(LockNotFound);
      case ReadError => r := Failure(RequestFailed);
      case Content(s) => r := if s.Garbled? then Failure(RequestFailed) else Success(s);
    }

    method Acquire(ttl: int) returns (r: Result<bool, LockError>, ghost s: LockStep)
      modifies bucket, clock
      ensures Permitted(old(View()), s) && After(s) == View()
      ensures s.node == nodeID && s.call.Acquire? && s.call.ttl == ttl && s.call.outcome == r
      ensures bucket.reliable ==> (r == Success(true) <==> Free(old(bucket.obj), s.call.checked))
      ensures bucket.reliable ==> (r.Failure? <==> old(bucket.obj) == Some(Garbled))
      ensures bucket.reliable && r == Success(true) ==>
        && HeldBy(bucket.obj, nodeID)
        && bucket.obj.value.acquired == Format(LeasedAt(old(bucket.obj), s))
        && ParseTime(bucket.obj.value.expires) == Some(Bound(LeasedAt(old(bucket.obj), s), ttl))
      ensures bucket.reliable && r != Success(true) ==> bucket.obj == old(bucket.obj)
    {
      ghost var t0;
      r, t0 := TryCreate(ttl);
      s := LockStep(nodeID, Call.Acquire(ttl, t0, t0, t0, r), clock.now, bucket.obj);
      if r != Success(false) { return; }
      var meta := ReadMeta();
      if meta.Failure? {
        if meta.error == LockNotFound {
          ghost var t2;
          r, t2 := TryCreate(ttl);
          s := LockStep(nodeID, Call.Acquire(ttl, t0, t2, t2, r), clock.now, bucket.obj);
          return;
        }
        r := Failure(RequestFailed);
        s := LockStep(nodeID, Call.Acquire(ttl, t0, t0, t0, r), clock.now, bucket.obj);
        return;
      }
      var expiresAt := ParseTime(meta.value.expires);
      var now := clock.Read();
      if expiresAt.None? || now < expiresAt.value {
        r := Success(false);
        s := LockStep(nodeID, Call.Acquire(ttl, t0, now, now, r), clock.now, bucket.obj);
        return;
      }
      var deleted := bucket.Delete();
      if deleted.DeleteError? {
        r := Failure(RequestFailed);
        s := LockStep(nodeID, Call.Acquire(ttl, t0, now, now, r), clock.now, bucket.obj);
        return;
      }
      ghost var t2;
      r, t2 := TryCreate(ttl);
      s := LockStep(nodeID, Call.Acquire(ttl, t0, now, t2, r), clock.now, bucket.obj);
    }

    method Renew(ttl: int) returns (error: Option<LockError>, ghost s: LockStep)
      modifies bucket, clock
      ensures Permitted(old(View()), s) && After(s) == View()
      ensures s.node == nodeID && s.call.Renew? && s.call.ttl == ttl && s.call.error == error
      ensures s.call.at == clock.now
      ensures bucket.reliable ==> (error.None? <==> HeldBy(old(bucket.obj), nodeID))
      ensures bucket.reliable && error.None? ==>
        && HeldBy(bucket.obj, nodeID) && bucket.obj.value.acquired == old(bucket.obj).value.acquired
        && ParseTime(bucket.obj.value.expires) == Some(Bound(s.call.at, ttl))
      ensures bucket.reliable ==> (error == Some(LockNotFound) <==> old(bucket.obj).None?)
      ensures bucket.reliable ==> (error == Some(RequestFailed) <==> old(bucket.obj) == Some(Garbled))
      ensures error.Some? && bucket.reliable ==> bucket.obj == old(bucket.obj)
    {
      var meta := ReadMeta();
      if meta.Failure? {
        error := Some(meta.error);
      } else if meta.value.holder != nodeID {
        error := Some(NotLockHolder);
      } else {
        var now := clock.Read();
        var ok := bucket.Overwrite(Meta(nodeID, meta.value.acquired, Format(now + ttl)));
        error := if ok then None else Some(RequestFailed);
      }
      s := LockStep(nodeID, Call.Renew(ttl, clock.now, error), clock.now, bucket.obj);
    }

    method Release() returns (error: Option<LockError>, ghost s: LockStep)
      modifies bucket
      ensures Permitted(old(View()), s) && After(s) == View()
      ensures s.node == nodeID && s.call == Call.Release(error)
      ensures bucket.reliable ==> (error.None? <==> old(bucket.obj).None? || HeldBy(old(bucket.obj), nodeID))
      ensures error.None? ==> bucket.obj == None
      ensures bucket.reliable ==> (error == Some(RequestFailed) <==> old(bucket.obj) == Some(Garbled))
      ensures bucket.reliable && error.Some? ==> bucket.obj == old(bucket.obj)
    {
      var meta := ReadMeta();
      if meta.Failure? {
        error := if meta.error == LockNotFound then None else Some(RequestFailed);
      } else if meta.value.holder != nodeID {
        error := Some(NotLockHolder);
      } else {
        var deleted := bucket.Delete();
        error := if deleted.DeleteError? then Some(RequestFailed) else None;
      }
      s := LockStep(nodeID, Call.Release(error), clock.now, bucket.obj);
    }

    method GetHolder() returns (r: Result<string, LockError>, ghost s: LockStep)
      ensures Permitted(View(), s) && After(s) == View()
      ensures s.node == nodeID && s.call == Call.GetHolder(r)
      ensures bucket.reliable ==> (r == Failure(LockNotFound) <==> bucket.obj.None?)
      ensures bucket.reliable ==> (r.Success? <==> bucket.obj.Some? && bucket.obj.value.Meta?)
      ensures r.Success? ==> HeldBy(bucket.obj, r.value)
    {
      var meta := ReadMeta();
      r := match meta case Success(m) => Success(m.holder) case Failure(e) => Failure(e);
      s := LockStep(nodeID, Call.GetHolder(r), clock.now, bucket.obj);
    }
  }
}
