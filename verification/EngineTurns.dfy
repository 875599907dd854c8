/** What one input makes the engine do: receive at most one event, and flush exactly when a flush is due. */
module EngineTurns {
  import opened Rows
  import opened EngineModel

  /** What the main loop's select may yield before the engine stops. */
  datatype Input = Arrival(event: ChangeEvent) | Ticker

  /** How a flush ended: nothing left to send, refused by the breaker, or failed after calls of Publish. */
  datatype FlushResult = Flushed | Blocked | PublishFailed

  /** Steps that belong to a flush in progress. */
  predicate QuietStep(s: Step) { s.Tick? || s.Grant? || s.Attempt? || s.Checkpoint? }

  /** `b` is `a` and then quiet steps only. */
  predicate Quietly(a: seq<Step>, b: seq<Step>) {
    a <= b && forall k :: |a| <= k < |b| ==> QuietStep(b[k])
  }

  /** The step that ends a flush. */
  predicate Ends(s: Step, r: FlushResult) {
    match r
    case Flushed => s.Succeed?
    case Blocked => s.Block?
    case PublishFailed => s.GiveUp?
  }

  /** `b` is `a` and then one whole flush. */
  ghost predicate FlushTurn(a: seq<Step>, b: seq<Step>, r: FlushResult) {
    && a < b && b[|a|].Take?
    && exists j :: |a| < j < |b| && Ends(b[j], r) && forall k :: |a| < k < |b| && k != j ==> QuietStep(b[k])
  }

  /** `b` is `a` and then the rest of a flush. */
  ghost predicate FlushTail(a: seq<Step>, b: seq<Step>, r: FlushResult) {
    && a < b
    && exists j :: |a| <= j < |b| && Ends(b[j], r) && forall k :: |a| <= k < |b| && k != j ==> QuietStep(b[k])
  }

  lemma TailHere(a: seq<Step>, b: seq<Step>, j: nat, r: FlushResult)
    requires a < b && |a| <= j < |b| && Ends(b[j], r)
    requires forall k :: |a| <= k < |b| && k != j ==> QuietStep(b[k])
    ensures FlushTail(a, b, r)
  {
  }

  lemma TailAfterQuiet(a: seq<Step>, b: seq<Step>, c: seq<Step>, r: FlushResult)
    requires Quietly(a, b) && FlushTail(b, c, r)
    ensures FlushTail(a, c, r)
  {
    var j :| |b| <= j < |c| && Ends(c[j], r) && forall k :: |b| <= k < |c| && k != j ==> QuietStep(c[k]);
    TailHere(a, c, j, r);
  }

  lemma TurnFromTail(a: seq<Step>, c: seq<Step>, r: FlushResult)
    requires FlushTail(a + [Take], c, r)
    ensures FlushTurn(a, c, r)
  {
    assert (a + [Take])[|a|] == Take;
  }

  /** Some steps are one whole flush of what `w` has buffered when one is due, and none when not. A flush that fails
      after calls of Publish has made all its attempts. */
  ghost predicate FlushPart(w: World, part: seq<Step>, due: bool, w': World) {
    if !due then part == [] && w'.buffer == w.buffer
    else exists r :: FlushTurn([], part, r) && FlushLeaves(w, r, w')
  }

  predicate FlushLeaves(w: World, r: FlushResult, w': World) {
    && w'.buffer == (if r.Flushed? then [] else w.buffer)
    && (r.PublishFailed? ==> w'.calls == w.calls + ATTEMPTS)
  }

  /** One input takes the engine from `w` to `w'` by the steps `part`: an arrival is received, and flushed when it
      fills the buffer to `size`; a tick flushes whatever is buffered. */
  ghost predicate Turn(w: World, part: seq<Step>, input: Input, size: int, w': World) {
    && CanRun(w, part) && Run(w, part) == w' && w'.phase.Idle?
    && match input
       case Arrival(e) =>
         part != [] && part[0] == Receive(e)
         && FlushPart(w.(buffer := w.buffer + [e]), part[1..], |w.buffer| + 1 >= size, w')
       case Ticker => FlushPart(w, part, w.buffer != [], w')
  }

  /** The steps of all turns. */
  function Flat(parts: seq<seq<Step>>): seq<Step>
    decreases |parts|
  {
    if parts == [] then [] else Flat(parts[..|parts| - 1]) + parts[|parts| - 1]
  }

  lemma FlushTurnTail(a: seq<Step>, b: seq<Step>, r: FlushResult)
    requires FlushTurn(a, b, r)
    ensures FlushTurn([], b[|a|..], r)
  {
    var j :| |a| < j < |b| && Ends(b[j], r) && forall k :: |a| < k < |b| && k != j ==> QuietStep(b[k]);
    var part := b[|a|..];
    assert Ends(part[j - |a|], r);
    forall k | 0 < k < |part| && k != j - |a| ensures QuietStep(part[k]) {
      assert part[k] == b[k + |a|];
    }
  }

  /** A longer run goes on from where its first part ends. */
  lemma {:induction false} RunOn(w: World, steps: seq<Step>, more: seq<Step>)
    requires CanRun(w, steps + more)
    ensures CanRun(Run(w, steps), more) && Run(Run(w, steps), more) == Run(w, steps + more)
    decreases |more|
  {
    hide Enabled, After;
    if more == [] {
      assert steps + more == steps;
    } else {
      assert (steps + more)[..|steps + more| - 1] == steps + more[..|more| - 1];
      RunOn(w, steps, more[..|more| - 1]);
    }
  }
}
