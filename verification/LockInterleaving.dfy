/** The same lock with single requests of any number of nodes interleaved, failing and crashing freely. */
module LockInterleaving {
  import opened Wrappers
  import opened LeaseLock

  /** What a node will do next. */
  datatype Pc =
    | Idle
    | Creating(again: bool)   // Acquire: about to create; `again` after the object was gone or deleted
    | Reading                 // Acquire: the object existed
    | Deleting                // Acquire: the lease it read had expired
    | RenewReading
    | Overwriting(acquired: Stamp)
    | ReleaseReading
    | Releasing

  /** `inside` are the nodes between a create of theirs that took effect and their delete that did. */
  datatype Net = Net(obj: Object, pcs: map<string, Pc>, inside: set<string>)

  function PcOf(w: Net, node: string): Pc { if node in w.pcs then w.pcs[node] else Idle }

  function Go(w: Net, node: string, pc: Pc): Net { w.(pcs := w.pcs[node := pc]) }

  datatype Step =
    | Begin(node: string, pc: Pc)
    | Crash(node: string)
    | Create(node: string, ttl: int, at: int, applied: bool, answer: CreateAnswer)
    | Read(node: string, failed: bool, at: int)   // `at`: the clock, where expiry is checked
    | Overwrite(node: string, ttl: int, at: int, applied: bool, ok: bool)
    | Delete(node: string, applied: bool, ok: bool)

  predicate Enabled(w: Net, s: Step) {
    match s
    case Begin(n, pc) => PcOf(w, n).Idle? && pc in {Creating(false), RenewReading, ReleaseReading}
    case Crash(_) => true
    case Create(n, _, _, applied, answer) =>
      && PcOf(w, n).Creating?
      && (applied ==> w.obj.None?)
      && (answer.Created? ==> applied)
      && (answer.PreconditionFailed? ==> w.obj.Some? || applied)
    case Read(n, _, _) => PcOf(w, n).Reading? || PcOf(w, n).RenewReading? || PcOf(w, n).ReleaseReading?
    case Overwrite(n, _, _, applied, ok) => PcOf(w, n).Overwriting? && (ok ==> applied)
    case Delete(n, applied, ok) => (PcOf(w, n).Deleting? || PcOf(w, n).Releasing?) && (ok ==> applied)
  }

  /** A read that sends an Acquire on to delete the lock. */
  predicate SeesExpired(w: Net, s: Step) {
    s.Read? && PcOf(w, s.node).Reading? && !s.failed && w.obj.Some? && Expired(w.obj.value, s.at)
  }

  /** Where a node goes after reading. */
  function AfterRead(w: Net, s: Step): Pc
    requires s.Read?
  {
    match PcOf(w, s.node)
    case Reading =>
      if s.failed then Idle
      else if w.obj.None? then Creating(true)
      else if Expired(w.obj.value, s.at) then Deleting
      else Idle
    case RenewReading =>
      if !s.failed && HeldBy(w.obj, s.node) then Overwriting(w.obj.value.acquired) else Idle
    case ReleaseReading =>
      if !s.failed && HeldBy(w.obj, s.node) then Releasing else Idle
    case _ => Idle
  }

  function After(w: Net, s: Step): Net {
    match s
    case Begin(n, pc) => Go(w, n, pc)
    case Crash(n) => Go(w, n, Idle)
    case Create(n, ttl, at, applied, answer) =>
      var again := PcOf(w, n).Creating? && PcOf(w, n).again;
      var w' := Go(w, n, if answer.PreconditionFailed? && !again then Reading else Idle);
      if applied then w'.(obj := Some(Lease(n, ttl, at)), inside := w.inside + {n}) else w'
    case Read(n, _, _) => Go(w, n, AfterRead(w, s))
    case Overwrite(n, ttl, at, applied, _) =>
      var acquired := if PcOf(w, n).Overwriting? then PcOf(w, n).acquired else Format(at);
      var w' := Go(w, n, Idle);
      if applied then w'.(obj := Some(Meta(n, acquired, Format(at + ttl)))) else w'
    case Delete(n, applied, ok) =>
      var w' := Go(w, n, if PcOf(w, n).Deleting? && ok then Creating(true) else Idle);
      if !applied then w'
      else if PcOf(w, n).Releasing? then w'.(obj := None, inside := w.inside - {n})
      else w'.(obj := None)
  }

  function NetAt(w: Net, steps: seq<Step>, n: nat): Net
    requires n <= |steps|
  {
    if n == 0 then w else After(NetAt(w, steps, n - 1), steps[n - 1])
  }

  predicate CanRun(w: Net, steps: seq<Step>) {
    forall i :: 0 <= i < |steps| ==> Enabled(NetAt(w, steps, i), steps[i])
  }

  const START := Net(None, map[], {})

  /** Exactly the stored holder is inside, and a node about to overwrite or delete its lock is that holder. */
  ghost predicate HolderInside(w: Net) {
    && (forall n :: n in w.inside <==> HeldBy(w.obj, n))
    && (forall n :: n in w.pcs ==> !w.pcs[n].Deleting?)
    && (forall n :: n in w.pcs && (w.pcs[n].Overwriting? || w.pcs[n].Releasing?) ==> HeldBy(w.obj, n))
    && (w.obj.Some? ==> w.obj.value.Meta?)
  }

  lemma HolderStep(w: Net, s: Step)
    requires HolderInside(w) && Enabled(w, s) && !SeesExpired(w, s)
    ensures HolderInside(After(w, s))
  {
  }

  lemma {:induction false} HolderInvariant(steps: seq<Step>, n: nat)
    requires n <= |steps| && CanRun(START, steps)
    requires forall i :: 0 <= i < n ==> !SeesExpired(NetAt(START, steps, i), steps[i])
    ensures HolderInside(NetAt(START, steps, n))
    decreases n
  {
    hide HolderInside, Enabled, SeesExpired, After;
    if n > 0 {
      HolderInvariant(steps, n - 1);
      HolderStep(NetAt(START, steps, n - 1), steps[n - 1]);
    } else {
      StartHolds();
    }
  }

  lemma StartHolds()
    ensures HolderInside(START)
  {
  }

  predicate TakesEffect(s: Step, node: string) { s.Create? && s.node == node && s.applied }

  /** The node's own delete of the lock it holds takes effect. */
  predicate GivesUp(w: Net, s: Step, node: string) {
    s.Delete? && s.node == node && s.applied && PcOf(w, node).Releasing?
  }

  /** After `n` steps the node is between a create of its own and its delete. */
  ghost predicate Between(steps: seq<Step>, n: nat, node: string)
    requires n <= |steps|
  {
    exists i :: 0 <= i < n && TakesEffect(steps[i], node)
      && forall k :: i < k < n ==> !GivesUp(NetAt(START, steps, k), steps[k], node)
  }

  lemma {:induction false} BetweenStep(steps: seq<Step>, n: nat, node: string)
    requires 0 < n <= |steps|
    ensures Between(steps, n, node)
            <==> TakesEffect(steps[n - 1], node)
                 || (Between(steps, n - 1, node) && !GivesUp(NetAt(START, steps, n - 1), steps[n - 1], node))
  {
    hide TakesEffect, GivesUp, NetAt;
    if TakesEffect(steps[n - 1], node) {
      assert Between(steps, n, node);
    } else if Between(steps, n, node) {
      var i :| 0 <= i < n && TakesEffect(steps[i], node)
        && forall k :: i < k < n ==> !GivesUp(NetAt(START, steps, k), steps[k], node);
      assert i < n - 1;
    }
  }

  lemma {:induction false} BetweenIsInside(steps: seq<Step>, n: nat, node: string)
    requires n <= |steps|
    ensures Between(steps, n, node) <==> node in NetAt(START, steps, n).inside
    decreases n
  {
    hide TakesEffect, GivesUp, Between, After;
    if n > 0 {
      BetweenIsInside(steps, n - 1, node);
      BetweenStep(steps, n, node);
      InsideStep(NetAt(START, steps, n - 1), steps[n - 1], node);
    } else {
      NothingBetween(steps, node);
    }
  }

  lemma NothingBetween(steps: seq<Step>, node: string)
    ensures !Between(steps, 0, node)
  {
  }

  lemma InsideStep(w: Net, s: Step, node: string)
    ensures node in After(w, s).inside <==> TakesEffect(s, node) || (node in w.inside && !GivesUp(w, s, node))
  {
  }

  /** In every interleaving of requests where no Acquire sees an expired lease, at most one node is
      between its create and its delete, and it is the stored holder. */
  lemma {:induction false} MutualExclusion(steps: seq<Step>, a: string, b: string)
    requires CanRun(START, steps)
    requires forall i :: 0 <= i < |steps| ==> !SeesExpired(NetAt(START, steps, i), steps[i])
    ensures Between(steps, |steps|, a) ==> HeldBy(NetAt(START, steps, |steps|).obj, a)
    ensures Between(steps, |steps|, a) && Between(steps, |steps|, b) ==> a == b
  {
    hide CanRun, NetAt, SeesExpired, Between;
    HolderInvariant(steps, |steps|);
    BetweenIsInside(steps, |steps|, a);
    BetweenIsInside(steps, |steps|, b);
  }

  // ----- why no Acquire may see an expired lease -----

  lemma {:induction false} Extends(steps: seq<Step>, s: Step)
    requires CanRun(START, steps) && Enabled(NetAt(START, steps, |steps|), s)
    ensures CanRun(START, steps + [s])
    ensures NetAt(START, steps + [s], |steps| + 1) == After(NetAt(START, steps, |steps|), s)
  {
    hide Enabled, After;
    SamePrefix(steps, steps + [s], |steps|);
    forall i | 0 <= i <= |steps| ensures Enabled(NetAt(START, steps + [s], i), (steps + [s])[i]) {
      SamePrefix(steps, steps + [s], i);
    }
  }

  lemma {:induction false} SamePrefix(a: seq<Step>, b: seq<Step>, n: nat)
    requires n <= |a| && a <= b
    ensures NetAt(START, a, n) == NetAt(START, b, n)
  {
    if n > 0 { SamePrefix(a, b, n - 1); }
  }

  const LATER: int := 2 * SECOND

  /** An Acquire that is told the lock exists and then finds its lease expired. */
  lemma {:induction false} FindsExpired(steps: seq<Step>, w: Net, n: string) returns (more: seq<Step>)
    requires CanRun(START, steps) && NetAt(START, steps, |steps|) == w
    requires PcOf(w, n).Idle? && w.obj.Some? && Expired(w.obj.value, LATER)
    ensures CanRun(START, more)
    ensures NetAt(START, more, |more|) == Go(w, n, Deleting)
  {
    hide CanRun, NetAt;
    var begin, create, read :=
      Begin(n, Creating(false)), Create(n, SECOND, LATER, false, PreconditionFailed), Read(n, false, LATER);
    Extends(steps, begin);
    assert After(w, begin) == Go(w, n, Creating(false));
    Extends(steps + [begin], create);
    assert After(Go(w, n, Creating(false)), create) == Go(w, n, Reading);
    Extends(steps + [begin] + [create], read);
    assert After(Go(w, n, Reading), read) == Go(w, n, Deleting);
    more := steps + [begin] + [create] + [read];
  }

  /** It deletes whatever the object holds by now and is granted a lease of its own. */
  lemma {:induction false} TakesOver(steps: seq<Step>, w: Net, n: string) returns (more: seq<Step>)
    requires CanRun(START, steps) && NetAt(START, steps, |steps|) == w
    requires PcOf(w, n).Deleting?
    ensures CanRun(START, more)
    ensures NetAt(START, more, |more|)
            == Go(w, n, Idle).(obj := Some(Lease(n, SECOND, LATER)), inside := w.inside + {n})
    ensures more != [] && more[|more| - 1] == Create(n, SECOND, LATER, true, Created)
  {
    hide CanRun, NetAt;
    var delete, create := Delete(n, true, true), Create(n, SECOND, LATER, true, Created);
    Extends(steps, delete);
    Extends(steps + [delete], create);
    more := steps + [delete] + [create];
    assert Go(Go(w, n, Creating(true)), n, Idle) == Go(w, n, Idle);
  }

  /** Once two nodes see the same lease expired, both can be told that they have the lock: the second
      delete removes the first one's fresh lease. */
  lemma ExpiryBreaksExclusion()
    ensures exists steps :: CanRun(START, steps) && Between(steps, |steps|, "n2") && Between(steps, |steps|, "n3")
  {
    var begin, create := Begin("n1", Creating(false)), Create("n1", SECOND, 0, true, Created);
    Extends([], begin);
    Extends([] + [begin], create);
    var steps := [] + [begin] + [create];
    var w := NetAt(START, steps, |steps|);
    assert w == Net(Some(Lease("n1", SECOND, 0)), map["n1" := Idle], {"n1"});
    steps := FindsExpired(steps, w, "n2");
    var w2 := Go(w, "n2", Deleting);
    steps := FindsExpired(steps, w2, "n3");
    var w3 := Go(w2, "n3", Deleting);
    steps := TakesOver(steps, w3, "n2");
    steps := TakesOver(steps, NetAt(START, steps, |steps|), "n3");
    BetweenIsInside(steps, |steps|, "n2");
    BetweenIsInside(steps, |steps|, "n3");
  }
}
