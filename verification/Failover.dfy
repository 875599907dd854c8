/** The failover manager: which node is active, judged by an unreliable view of the lock, and a local
    database switched through an unreliable coordinator. */
module Failover {
  import opened Wrappers
  import opened StateStore
  import L = LeaseLock

  datatype Mode = ReadOnly | ReadWrite

  /** A mode change that is reported done is verified; one that fails may have taken effect. */
  datatype Outcome = Done | FailedLate | Refused

  function Switched(mode: Mode, target: Mode, o: Outcome): Mode { if o.Refused? then mode else target }

  /** The calls a cycle makes, with what happened. */
  datatype Request = Health(ok: bool) | ToReadOnly(o: Outcome) | ToReadWrite(o: Outcome) | Unlock(ok: bool) | Look(ok: bool)

  /** What the environment answers during one cycle, and a mode change somebody else made before it. */
  datatype Cycle = Cycle(
    meddled: Option<Mode>, holder: Option<string>, time: nat,
    demote: Outcome, health: bool, promote: Outcome, release: bool, look: bool, resolve: Outcome)

  datatype Fleet = Fleet(
    active: Node, lastFailover: nat, lockHeld: bool, mode: Mode,
    failoverEvents: nat, splitBrainEvents: nat, calls: seq<Request>)

  /** The holder that the cycle saw is another node. */
  predicate Foreign(c: Cycle, node: string) { c.holder.Some? && c.holder.value != "" && c.holder.value != node }

  /** The holder that the cycle saw is this node, or nobody. */
  predicate Ours(c: Cycle, node: string) { c.holder.Some? && (c.holder.value == "" || c.holder.value == node) }

  function FailoverCalls(s: Fleet, c: Cycle): seq<Request> {
    if s.active.CloudNode? then [] else [ToReadOnly(c.demote)]
  }

  function AfterFailover(s: Fleet, c: Cycle): Fleet {
    if s.active.CloudNode? then s
    else s.(active := CloudNode, lastFailover := c.time, failoverEvents := s.failoverEvents + 1,
            mode := Switched(s.mode, ReadOnly, c.demote), calls := s.calls + FailoverCalls(s, c))
  }

  function RestoreCalls(c: Cycle): seq<Request> {
    [Health(c.health), ToReadWrite(c.promote)] + if c.promote.Done? then [Unlock(c.release)] else []
  }

  /** The local database asked to take writes again, and the lock released once it does. */
  function Restored(s: Fleet, c: Cycle): Fleet {
    s.(mode := Switched(s.mode, ReadWrite, c.promote),
       lockHeld := if c.promote.Done? && c.release then false else s.lockHeld,
       calls := s.calls + RestoreCalls(c))
  }

  function AfterRecovery(s: Fleet, c: Cycle): Fleet {
    if s.active.LocalNode? then s else Restored(s.(active := LocalNode), c)
  }

  /** The lock is another node's and the local database was seen taking writes. */
  predicate SplitBrain(s: Fleet, node: string, c: Cycle) { Foreign(c, node) && c.look && s.mode.ReadWrite? }

  function DetectionCalls(s: Fleet, node: string, c: Cycle): seq<Request> {
    if c.holder.None? || c.holder.value == "" then []
    else [Look(c.look)] + if SplitBrain(s, node, c) then [ToReadOnly(c.resolve)] else []
  }

  function AfterDetection(s: Fleet, node: string, c: Cycle): Fleet {
    var t := s.(calls := s.calls + DetectionCalls(s, node, c));
    if SplitBrain(s, node, c)
    then t.(splitBrainEvents := s.splitBrainEvents + 1, mode := Switched(s.mode, ReadOnly, c.resolve))
    else t
  }

  function Meddled(s: Fleet, c: Cycle): Fleet {
    if c.meddled.Some? then s.(mode := c.meddled.value) else s
  }

  /** The state between acting on the holder and looking for split brain. */
  function AfterHolder(s: Fleet, node: string, c: Cycle): Fleet {
    var t := Meddled(s, c);
    if Foreign(c, node) then AfterFailover(t, c) else if Ours(c, node) then AfterRecovery(t, c) else t
  }

  function AfterCycle(s: Fleet, node: string, c: Cycle): Fleet {
    AfterDetection(AfterHolder(s, node, c), node, c)
  }

  /** The calls that a cycle makes. */
  function NewCalls(s: Fleet, node: string, c: Cycle): (r: seq<Request>)
    ensures AfterCycle(s, node, c).calls == s.calls + r
  {
    (if Foreign(c, node) then FailoverCalls(s, c)
     else if Ours(c, node) && s.active.CloudNode? then RestoreCalls(c)
     else [])
    + DetectionCalls(AfterHolder(s, node, c), node, c)
  }

  function FleetAt(s: Fleet, node: string, cs: seq<Cycle>, n: nat): Fleet
    requires n <= |cs|
  {
    if n == 0 then s else AfterCycle(FleetAt(s, node, cs, n - 1), node, cs[n - 1])
  }

  // ----- the manager -----

  /** The local database behind its coordinator, the cloud's health check and the lock's release. It keeps the
      record of what it is asked, with what happened. */
  class Outside {
    var mode: Mode
    var record: seq<Request>

    constructor (mode: Mode)
      ensures this.mode == mode && record == []
    {
      this.mode, record := mode, [];
    }

    method SetReadOnly(o: Outcome) returns (ok: bool)
      modifies this
      ensures mode == Switched(old(mode), ReadOnly, o) && ok == o.Done?
      ensures record == old(record) + [ToReadOnly(o)]
    {
      if !o.Refused? { mode := ReadOnly; }
      record := record + [ToReadOnly(o)];
      ok := o.Done?;
    }

    method SetReadWrite(o: Outcome) returns (ok: bool)
      modifies this
      ensures mode == Switched(old(mode), ReadWrite, o) && ok == o.Done?
      ensures record == old(record) + [ToReadWrite(o)]
    {
      if !o.Refused? { mode := ReadWrite; }
      record := record + [ToReadWrite(o)];
      ok := o.Done?;
    }

    method GetState(ok: bool) returns (r: Option<Mode>)
      modifies this`record
      ensures r == if ok then Some(mode) else None
      ensures record == old(record) + [Look(ok)]
    {
      record := record + [Look(ok)];
      r := if ok then Some(mode) else None;
    }

    method HealthCheck(ok: bool) returns (healthy: bool)
      modifies this`record
      ensures healthy == ok && record == old(record) + [Health(ok)]
    {
      record := record + [Health(ok)];
      healthy := ok;
    }

    method Release(ok: bool) returns (released: bool)
      modifies this`record
      ensures released == ok && record == old(record) + [Unlock(ok)]
    {
      record := record + [Unlock(ok)];
      released := ok;
    }
  }

  class Manager {
    const nodeID: string
    const outside: Outside
    var activeNode: Node
    var lockHeld: bool
    var lastFailover: nat
    var failoverEvents: nat
    var splitBrainEvents: nat

    constructor (nodeID: string, outside: Outside)
      ensures this.nodeID == nodeID && this.outside == outside
      ensures View() == Fleet(LocalNode, 0, false, outside.mode, 0, 0, outside.record)
    {
      this.nodeID, this.outside := nodeID, outside;
      activeNode, lockHeld, lastFailover := LocalNode, false, 0;
      failoverEvents, splitBrainEvents := 0, 0;
    }

    ghost function View(): Fleet
      reads this, outside
    {
      Fleet(activeNode, lastFailover, lockHeld, outside.mode, failoverEvents, splitBrainEvents, outside.record)
    }

    /** One cycle of the check loop, with the answers its calls get. */
    method Check(c: Cycle)
      modifies this, outside
      ensures View() == AfterCycle(old(View()), nodeID, c.(meddled := None))
    {
      hide AfterFailover, AfterRecovery;
      if c.holder.None? { return; }
      var holder, answers := c.holder.value, c.(meddled := None);
      if holder != "" && holder != nodeID {
        HandleCloudActive(answers);
      } else if holder == nodeID || holder == "" {
        HandleLocalActive(answers);
      }
      DetectSplitBrain(holder, answers);
    }

    method HandleCloudActive(c: Cycle)
      modifies this, outside
      ensures View() == AfterFailover(old(View()), c)
    {
      if activeNode == CloudNode { return; }
      activeNode := CloudNode;
      lastFailover := c.time;
      failoverEvents := failoverEvents + 1;
      var _ := outside.SetReadOnly(c.demote);
    }

    method HandleLocalActive(c: Cycle)
      modifies this, outside
      ensures View() == AfterRecovery(old(View()), c)
    {
      if activeNode == LocalNode { return; }
      activeNode := LocalNode;
      RecoverLocal(c);
    }

    method RecoverLocal(c: Cycle)
      modifies this`lockHeld, outside
      ensures View() == Restored(old(View()), c)
    {
      var _ := outside.HealthCheck(c.health);
      var ok := outside.SetReadWrite(c.promote);
      assert old(outside.record) + [Health(c.health)] + [ToReadWrite(c.promote)]
             == old(outside.record) + [Health(c.health), ToReadWrite(c.promote)];
      if !ok { return; }
      var released := outside.Release(c.release);
      if released { lockHeld := false; }
    }

    method DetectSplitBrain(lockHolder: string, c: Cycle)
      requires c.holder == Some(lockHolder)
      modifies this`splitBrainEvents, outside
      ensures View() == AfterDetection(old(View()), nodeID, c)
    {
      if lockHolder == "" { return; }
      var localState := outside.GetState(c.look);
      if localState.None? { return; }
      if lockHolder != nodeID && localState == Some(ReadWrite) {
        splitBrainEvents := splitBrainEvents + 1;
        var _ := outside.SetReadOnly(c.resolve);
      }
    }
  }

  // ----- self-stabilisation -----

  /** The cycle asks neither for read-write mode nor for the lock's release. */
  predicate AsksNoWrites(s: Fleet, node: string, c: Cycle) {
    forall q :: q in NewCalls(s, node, c) ==> !q.ToReadWrite? && !q.Unlock?
  }

  lemma StabilisingCycle(s: Fleet, node: string, c: Cycle)
    requires Foreign(c, node) && c.look
    requires SplitBrain(AfterHolder(s, node, c), node, c) ==> c.resolve.Done?
    ensures var t := AfterCycle(s, node, c); t.active.CloudNode? && t.mode.ReadOnly?
    ensures AsksNoWrites(s, node, c)
  {
  }

  /** From any state, one cycle that sees another holder, can read the local state, and whose SetReadOnly
      after that succeeds if it is called, makes the cloud active and local read-only. It stays so over all
      later cycles, whatever fails in them, until one sees its own id or an empty holder; and all the while
      the manager asks neither for read-write mode nor for the lock's release. */
  lemma {:induction false} SelfStabilises(s: Fleet, node: string, cs: seq<Cycle>, n: nat)
    requires 0 < n <= |cs| && Foreign(cs[0], node) && cs[0].look
    requires SplitBrain(AfterHolder(s, node, cs[0]), node, cs[0]) ==> cs[0].resolve.Done?
    requires forall i :: 0 < i < n ==> cs[i].meddled.None? && !Ours(cs[i], node)
    ensures var t := FleetAt(s, node, cs, n); t.active.CloudNode? && t.mode.ReadOnly?
    ensures forall i :: 0 <= i < n ==> AsksNoWrites(FleetAt(s, node, cs, i), node, cs[i])
    decreases n
  {
    hide AfterCycle, AsksNoWrites, Foreign, Ours, SplitBrain, AfterHolder;
    if n == 1 {
      assert FleetAt(s, node, cs, 0) == s;
      StabilisingCycle(s, node, cs[0]);
    } else {
      SelfStabilises(s, node, cs, n - 1);
      FencedStep(FleetAt(s, node, cs, n - 1), node, cs[n - 1]);
    }
  }

  lemma FencedStep(s: Fleet, node: string, c: Cycle)
    requires s.active.CloudNode? && s.mode.ReadOnly? && c.meddled.None? && !Ours(c, node)
    ensures var t := AfterCycle(s, node, c); t.active.CloudNode? && t.mode.ReadOnly?
    ensures AsksNoWrites(s, node, c) && forall q :: q in NewCalls(s, node, c) ==> q.Look?
  {
  }

  // ----- alternation -----

  /** Recoveries made: each begins with one health check. */
  function Recoveries(calls: seq<Request>): nat
    decreases |calls|
  {
    if calls == [] then 0
    else Recoveries(calls[..|calls| - 1]) + if calls[|calls| - 1].Health? then 1 else 0
  }

  lemma RecoveriesPush(calls: seq<Request>, q: Request)
    ensures Recoveries(calls + [q]) == Recoveries(calls) + if q.Health? then 1 else 0
  {
    assert (calls + [q])[..|calls|] == calls;
  }

  function Excess(n: Node): int { if n.CloudNode? then 1 else 0 }

  lemma {:induction false} RecoveriesAppend(a: seq<Request>, b: seq<Request>)
    ensures Recoveries(a + b) == Recoveries(a) + Recoveries(b)
    decreases |b|
  {
    if b == [] {
      assert a + b == a;
    } else {
      assert a + b == a + b[..|b| - 1] + [b[|b| - 1]];
      RecoveriesPush(a + b[..|b| - 1], b[|b| - 1]);
      RecoveriesAppend(a, b[..|b| - 1]);
    }
  }

  lemma {:induction false} NoRecoveries(a: seq<Request>)
    requires forall q :: q in a ==> !q.Health?
    ensures Recoveries(a) == 0
    decreases |a|
  {
    if a != [] { NoRecoveries(a[..|a| - 1]); }
  }

  lemma RestoreCount(c: Cycle)
    ensures Recoveries(RestoreCalls(c)) == 1
  {
    var rest := RestoreCalls(c)[1..];
    assert RestoreCalls(c) == [Health(c.health)] + rest;
    RecoveriesAppend([Health(c.health)], rest);
    NoRecoveries(rest);
    RecoveriesPush([], Health(c.health));
    assert [] + [Health(c.health)] == [Health(c.health)];
  }

  /** A cycle's calls hold one health check when it recovers and none otherwise. */
  lemma {:induction false} CycleCount(s: Fleet, node: string, c: Cycle)
    ensures Recoveries(NewCalls(s, node, c)) == if s.active.CloudNode? && Ours(c, node) then 1 else 0
  {
    hide Recoveries, RestoreCalls;
    var detection := DetectionCalls(AfterHolder(s, node, c), node, c);
    NoRecoveries(detection);
    if s.active.CloudNode? && Ours(c, node) {
      RecoveriesAppend(RestoreCalls(c), detection);
      RestoreCount(c);
    } else {
      NoRecoveries(NewCalls(s, node, c));
    }
  }

  lemma {:induction false} AlternateStep(s: Fleet, node: string, c: Cycle)
    ensures
      var t := AfterCycle(s, node, c);
      t.failoverEvents - Recoveries(t.calls) - Excess(t.active)
      == s.failoverEvents - Recoveries(s.calls) - Excess(s.active)
  {
    hide Recoveries, NewCalls;
    RecoveriesAppend(s.calls, NewCalls(s, node, c));
    CycleCount(s, node, c);
  }

  /** Every run from the manager's start: failovers minus recoveries is 1 when the cloud is active and
      0 otherwise. */
  lemma {:induction false} Alternate(mode: Mode, node: string, cs: seq<Cycle>, n: nat)
    requires n <= |cs|
    ensures
      var s := FleetAt(Fleet(LocalNode, 0, false, mode, 0, 0, []), node, cs, n);
      s.failoverEvents - Recoveries(s.calls) == if s.active.CloudNode? then 1 else 0
    decreases n
  {
    hide AfterCycle;
    if n > 0 {
      Alternate(mode, node, cs, n - 1);
      AlternateStep(FleetAt(Fleet(LocalNode, 0, false, mode, 0, 0, []), node, cs, n - 1), node, cs[n - 1]);
    }
  }

  // ----- when writes come back -----

  /** A cycle recovers exactly when the cloud was active and the holder seen is this node or nobody. Only then
      does it ask for read-write mode, and it asks for the lock's release exactly when that was done. */
  lemma RecoveryIff(s: Fleet, node: string, c: Cycle)
    ensures
      var recovers := s.active.CloudNode? && AfterCycle(s, node, c).active.LocalNode?;
      var made := NewCalls(s, node, c);
      && (recovers <==> s.active.CloudNode? && Ours(c, node))
      && ((exists q :: q in made && q.ToReadWrite?) <==> recovers)
      && ((exists q :: q in made && q.Unlock?) <==> recovers && c.promote.Done?)
  {
    if s.active.CloudNode? && Ours(c, node) {
      var made := NewCalls(s, node, c);
      assert made[1] == ToReadWrite(c.promote);
      if c.promote.Done? { assert made[2] == Unlock(c.release); }
    }
  }

  /** A cycle that recovers leaves the local database taking writes exactly when it did before or SetReadWrite had
      an effect, reported or not. */
  lemma RecoveryModeIff(s: Fleet, node: string, c: Cycle)
    requires s.active.CloudNode? && Ours(c, node)
    ensures AfterCycle(s, node, c).mode.ReadWrite? <==> Meddled(s, c).mode.ReadWrite? || c.promote != Refused
  {
  }

  /** A cycle fails over exactly when local was active and the holder seen is another node; only then do
      the failover time and count change, and local is asked to be read-only. */
  lemma FailoverIff(s: Fleet, node: string, c: Cycle)
    ensures
      var t := AfterCycle(s, node, c);
      && (s.active.LocalNode? && t.active.CloudNode? <==> s.active.LocalNode? && Foreign(c, node))
      && (t.failoverEvents != s.failoverEvents <==> s.active.LocalNode? && Foreign(c, node))
      && t.lastFailover == (if s.active.LocalNode? && Foreign(c, node) then c.time else s.lastFailover)
      && (s.active.LocalNode? && Foreign(c, node) ==> NewCalls(s, node, c)[..1] == [ToReadOnly(c.demote)])
  {
  }

  /** A cycle that sees another holder ends with local read-only exactly when it was so before, or one of the calls
      that set it read-only, at a failover or after split brain was seen, had an effect. */
  lemma FailoverModeIff(s: Fleet, node: string, c: Cycle)
    requires Foreign(c, node)
    ensures AfterCycle(s, node, c).mode.ReadOnly?
            <==> || Meddled(s, c).mode.ReadOnly?
                 || (s.active.LocalNode? && c.demote != Refused)
                 || (c.look && c.resolve != Refused)
  {
  }

  /** A cycle that neither sees another holder nor recovers leaves the mode alone. */
  lemma ModeStays(s: Fleet, node: string, c: Cycle)
    requires !Foreign(c, node) && (Ours(c, node) ==> s.active.LocalNode?)
    ensures AfterCycle(s, node, c).mode == Meddled(s, c).mode
  {
  }

  /** Split brain is counted exactly when another holder is seen and local could be read as taking writes, which a
      demotion that had an effect in the same cycle prevents. */
  lemma SplitBrainIff(s: Fleet, node: string, c: Cycle)
    ensures
      var t := AfterCycle(s, node, c);
      var demoted := s.active.LocalNode? && c.demote != Refused;
      t.splitBrainEvents
      == s.splitBrainEvents
         + if Foreign(c, node) && c.look && Meddled(s, c).mode.ReadWrite? && !demoted then 1 else 0
  {
  }

  /** The local state is looked at exactly when a holder is seen; a cycle that counts split brain ends by asking for
      read-only mode after that look. */
  lemma {:induction false} LooksIff(s: Fleet, node: string, c: Cycle)
    ensures
      var made := NewCalls(s, node, c);
      && (Look(c.look) in made <==> c.holder.Some? && c.holder.value != "")
      && (AfterCycle(s, node, c).splitBrainEvents != s.splitBrainEvents
          ==> |made| >= 2 && made[|made| - 2..] == [Look(true), ToReadOnly(c.resolve)])
  {
    hide AfterHolder, SplitBrain, AfterFailover, AfterRecovery;
    var h := AfterHolder(s, node, c);
    var made, d := NewCalls(s, node, c), DetectionCalls(h, node, c);
    var front := made[..|made| - |d|];
    assert made == front + d;
    assert !(Look(c.look) in front);
    if c.holder.Some? && c.holder.value != "" {
      assert d[0] == Look(c.look);
      assert made[|front|] == d[0];
    }
    CountsSplitBrain(s, node, c);
  }

  lemma CountsSplitBrain(s: Fleet, node: string, c: Cycle)
    ensures AfterCycle(s, node, c).splitBrainEvents != s.splitBrainEvents
            <==> SplitBrain(AfterHolder(s, node, c), node, c)
    ensures SplitBrain(AfterHolder(s, node, c), node, c) ==> c.look && c.holder.Some? && c.holder.value != ""
  {
  }

  /** The call at i, if it asks for read-write mode, comes right after a health check, and if it asks for the lock's
      release, right after read-write mode was done. */
  predicate OrderedAt(calls: seq<Request>, i: nat)
    requires i < |calls|
  {
    match calls[i]
    case ToReadWrite(_) => i >= 1 && calls[i - 1].Health?
    case Unlock(_) => i >= 2 && calls[i - 1] == ToReadWrite(Done) && calls[i - 2].Health?
    case _ => true
  }

  ghost predicate Ordered(calls: seq<Request>) { forall i :: 0 <= i < |calls| ==> OrderedAt(calls, i) }

  lemma OrderedAppend(a: seq<Request>, b: seq<Request>)
    requires Ordered(a) && Ordered(b)
    ensures Ordered(a + b)
  {
    forall i | 0 <= i < |a + b|
      ensures OrderedAt(a + b, i)
    {
      if i < |a| { assert OrderedAt(a, i); } else { assert OrderedAt(b, i - |a|); }
    }
  }

  lemma NewOrdered(s: Fleet, node: string, c: Cycle)
    ensures Ordered(NewCalls(s, node, c))
  {
    var detection := DetectionCalls(AfterHolder(s, node, c), node, c);
    OrderedAppend(RestoreCalls(c), detection);
    OrderedAppend(FailoverCalls(s, c), detection);
    OrderedAppend([], detection);
  }

  /** Over every run the recovery calls come in order, and nothing ever sets lockHeld. */
  lemma {:induction false} RecoveryOrder(mode: Mode, node: string, cs: seq<Cycle>, n: nat)
    requires n <= |cs|
    ensures
      var s := FleetAt(Fleet(LocalNode, 0, false, mode, 0, 0, []), node, cs, n);
      Ordered(s.calls) && !s.lockHeld
    decreases n
  {
    hide AfterCycle, Ordered, NewCalls;
    if n > 0 {
      var s := FleetAt(Fleet(LocalNode, 0, false, mode, 0, 0, []), node, cs, n - 1);
      RecoveryOrder(mode, node, cs, n - 1);
      NewOrdered(s, node, cs[n - 1]);
      OrderedAppend(s.calls, NewCalls(s, node, cs[n - 1]));
      LockHeldStays(s, node, cs[n - 1]);
    } else {
      NothingAsked();
    }
  }

  lemma NothingAsked()
    ensures Ordered([])
  {
  }

  lemma LockHeldStays(s: Fleet, node: string, c: Cycle)
    ensures AfterCycle(s, node, c).lockHeld ==> s.lockHeld
  {
  }

  /** Over every run: the failover time is that of the last cycle which turned the local-active manager to
      the cloud, and every failover counted is such a cycle. */
  lemma {:induction false} LastFailover(mode: Mode, node: string, cs: seq<Cycle>, n: nat)
    requires n <= |cs|
    ensures
      var start := Fleet(LocalNode, 0, false, mode, 0, 0, []);
      var s := FleetAt(start, node, cs, n);
      if s.failoverEvents == 0 then s.lastFailover == 0
      else exists i :: 0 <= i < n && Foreign(cs[i], node) && FleetAt(start, node, cs, i).active.LocalNode?
             && s.lastFailover == cs[i].time
             && FleetAt(start, node, cs, i).failoverEvents + 1 == s.failoverEvents
    decreases n
  {
    hide AfterCycle, Foreign;
    if n > 0 {
      var s := FleetAt(Fleet(LocalNode, 0, false, mode, 0, 0, []), node, cs, n - 1);
      LastFailover(mode, node, cs, n - 1);
      FailoverIff(s, node, cs[n - 1]);
      FailoverCounts(s, node, cs[n - 1]);
    }
  }

  lemma FailoverCounts(s: Fleet, node: string, c: Cycle)
    ensures AfterCycle(s, node, c).failoverEvents
            == s.failoverEvents + if s.active.LocalNode? && Foreign(c, node) then 1 else 0
  {
  }

  /** Over every run: each request for read-write mode or for the lock's release belongs to a cycle that
      turned the cloud-active manager local on seeing its own id or an empty holder. */
  lemma {:induction false} WritesComeFromRecovery(mode: Mode, node: string, cs: seq<Cycle>, n: nat, q: Request)
    requires n <= |cs| && (q.ToReadWrite? || q.Unlock?)
    requires q in FleetAt(Fleet(LocalNode, 0, false, mode, 0, 0, []), node, cs, n).calls
    ensures
      var start := Fleet(LocalNode, 0, false, mode, 0, 0, []);
      exists i :: 0 <= i < n && Ours(cs[i], node)
        && FleetAt(start, node, cs, i).active.CloudNode? && FleetAt(start, node, cs, i + 1).active.LocalNode?
        && q in NewCalls(FleetAt(start, node, cs, i), node, cs[i])
    decreases n
  {
    hide AfterCycle, NewCalls, Ours;
    var start := Fleet(LocalNode, 0, false, mode, 0, 0, []);
    if n > 0 {
      var s := FleetAt(start, node, cs, n - 1);
      if q in s.calls {
        WritesComeFromRecovery(mode, node, cs, n - 1, q);
      } else {
        RecoveryIff(s, node, cs[n - 1]);
        assert q in NewCalls(s, node, cs[n - 1]);
      }
    }
  }

  /** The cycle's holder is what GetHolder said about the lock object. */
  predicate Told(c: Cycle, w: L.LockWorld, get: L.LockStep) {
    && L.Permitted(w, get) && get.call.GetHolder?
    && c.holder == match get.call.found case Success(h) => Some(h) case Failure(_) => None
  }

  /** An absent lock is an error, not an empty holder: while the lock is absent, unreadable or another
      node's, the manager never recovers, and once the cloud is active it stays active. */
  lemma {:induction false} NoRecoveryWithoutLock(
      s: Fleet, node: string, cs: seq<Cycle>, worlds: seq<L.LockWorld>, gets: seq<L.LockStep>, n: nat)
    requires n <= |cs| && |worlds| == |gets| == |cs|
    requires forall i :: 0 <= i < n ==>
      Told(cs[i], worlds[i], gets[i]) && !L.HeldBy(worlds[i].obj, node) && !L.HeldBy(worlds[i].obj, "")
    ensures Recoveries(FleetAt(s, node, cs, n).calls) == Recoveries(s.calls)
    ensures s.active.CloudNode? ==> FleetAt(s, node, cs, n).active.CloudNode?
    decreases n
  {
    hide AfterCycle, Told, Recoveries;
    if n > 0 {
      NoRecoveryWithoutLock(s, node, cs, worlds, gets, n - 1);
      NotOurs(cs[n - 1], worlds[n - 1], gets[n - 1], node);
      NoRecoveryStep(FleetAt(s, node, cs, n - 1), node, cs[n - 1]);
    }
  }

  lemma NotOurs(c: Cycle, w: L.LockWorld, get: L.LockStep, node: string)
    requires Told(c, w, get) && !L.HeldBy(w.obj, node) && !L.HeldBy(w.obj, "")
    ensures !Ours(c, node)
  {
  }

  lemma {:induction false} NoRecoveryStep(s: Fleet, node: string, c: Cycle)
    requires !Ours(c, node)
    ensures Recoveries(AfterCycle(s, node, c).calls) == Recoveries(s.calls)
    ensures s.active.CloudNode? ==> AfterCycle(s, node, c).active.CloudNode?
  {
    hide Recoveries, NewCalls;
    RecoveriesAppend(s.calls, NewCalls(s, node, c));
    CycleCount(s, node, c);
  }

  /** A recovery whose SetReadWrite had no effect is not repeated: local stays read-only over all later
      cycles until another holder is seen. */
  lemma {:induction false} LostRecovery(s: Fleet, node: string, cs: seq<Cycle>, n: nat)
    requires 0 < n <= |cs| && s.active.CloudNode? && s.mode.ReadOnly?
    requires Ours(cs[0], node) && cs[0].promote.Refused?
    requires forall i :: 0 <= i < n ==> cs[i].meddled.None? && !Foreign(cs[i], node)
    ensures var t := FleetAt(s, node, cs, n); t.active.LocalNode? && t.mode.ReadOnly?
    decreases n
  {
    if n == 1 {
      assert FleetAt(s, node, cs, 0) == s;
    } else {
      hide AfterCycle;
      LostRecovery(s, node, cs, n - 1);
      LocalStep(FleetAt(s, node, cs, n - 1), node, cs[n - 1]);
    }
  }

  lemma LocalStep(s: Fleet, node: string, c: Cycle)
    requires s.active.LocalNode? && c.meddled.None? && !Foreign(c, node)
    ensures AfterCycle(s, node, c).active.LocalNode? && AfterCycle(s, node, c).mode == s.mode
  {
  }
}
