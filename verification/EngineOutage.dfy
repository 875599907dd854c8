/** How often the engine calls the cloud while the cloud is down. */
module EngineOutage {
  import opened Circuits
  import opened StateStore
  import opened Publishing
  import opened EngineModel

  /** The breaker counts the failed flushes since the last success, is half-open only during a flush,
      and each probe waits a full interval after the failure before it. */
  ghost predicate BreakerShape(w: World) {
    && w.breaker.threshold == DEFAULT_THRESHOLD && w.breaker.interval == DEFAULT_INTERVAL
    && w.breaker.failures == w.failures
    && (w.breaker.circuit.Closed? <==> w.failures < DEFAULT_THRESHOLD)
    && (w.breaker.circuit.HalfOpen? <==> w.failures >= DEFAULT_THRESHOLD && (w.phase.Trying? || w.phase.Sent?))
    && w.breaker.lastFailure <= w.now
    && (w.failures >= DEFAULT_THRESHOLD ==>
          && w.openedAt <= w.breaker.lastFailure
          && w.breaker.lastFailure >= w.openedAt + (w.failures - DEFAULT_THRESHOLD) * DEFAULT_INTERVAL)
    && (w.breaker.circuit.HalfOpen? ==> w.now - w.breaker.lastFailure >= DEFAULT_INTERVAL)
  }

  /** Calls of Publish: three for each failed flush, and those of the flush in progress. */
  ghost predicate CallShape(w: World) {
    && w.grants == w.failures + (if w.phase.Trying? || w.phase.Sent? then 1 else 0)
    && w.calls <= ATTEMPTS * w.failures + (if w.phase.Trying? then w.phase.tries else if w.phase.Sent? then ATTEMPTS else 0)
    && (w.phase.Trying? ==> w.phase.tries <= ATTEMPTS)
  }

  lemma {:induction false} ShapesStep(w: World, s: Step)
    requires BreakerShape(w) && CallShape(w) && Enabled(w, s)
    ensures BreakerShape(After(w, s)) && CallShape(After(w, s))
  {
    hide Published, AfterStep, CanStep, FlushedState;
  }

  lemma {:induction false} Shapes(w: World, steps: seq<Step>)
    requires Initial(w) && CanRun(w, steps)
    ensures BreakerShape(Run(w, steps)) && CallShape(Run(w, steps))
    decreases |steps|
  {
    if steps != [] {
      hide After, Enabled, BreakerShape, CallShape;
      Shapes(w, steps[..|steps| - 1]);
      ShapesStep(Run(w, steps[..|steps| - 1]), steps[|steps| - 1]);
    }
  }

  /** In every engine run the breaker is never half-open while no flush is in progress, so it cannot
      stick: an idle engine's next flush is allowed as soon as the interval has passed. */
  lemma NeverStuck(w: World, steps: seq<Step>)
    requires Initial(w) && CanRun(w, steps)
    ensures
      var w' := Run(w, steps);
      && (w'.phase.Idle? ==> !w'.breaker.circuit.HalfOpen?)
      && (w'.phase.Idle? || w'.phase.Taken? ==>
            forall t: nat :: t >= w'.breaker.lastFailure + DEFAULT_INTERVAL ==> Grants(w'.breaker, t))
  {
    Shapes(w, steps);
  }

  /** Failed flushes of a run since its last successful one. */
  function FailedFlushes(steps: seq<Step>): nat
    decreases |steps|
  {
    if steps == [] then 0
    else
      match steps[|steps| - 1]
      case GiveUp => FailedFlushes(steps[..|steps| - 1]) + 1
      case Succeed => 0
      case _ => FailedFlushes(steps[..|steps| - 1])
  }

  lemma {:induction false} FailuresAre(w: World, steps: seq<Step>)
    requires Initial(w) && CanRun(w, steps)
    ensures Run(w, steps).failures == FailedFlushes(steps)
    decreases |steps|
  {
    hide Published, AfterStep, CanStep, FlushedState;
    if steps != [] { FailuresAre(w, steps[..|steps| - 1]); }
  }

  /** A flush that has taken its batch is let through, and cannot be blocked, while fewer flushes than the
      threshold have failed since the last success. */
  lemma {:induction false} FewFailuresPass(w: World, steps: seq<Step>)
    requires Initial(w) && CanRun(w, steps) && Run(w, steps).phase.Taken?
    ensures FailedFlushes(steps) < DEFAULT_THRESHOLD ==>
              Enabled(Run(w, steps), Grant) && !Enabled(Run(w, steps), Block)
  {
    hide After, CanRun, Initial, Run;
    Shapes(w, steps);
    FailuresAre(w, steps);
  }

  lemma QuotientBound(k: nat, elapsed: nat)
    requires k * DEFAULT_INTERVAL <= elapsed
    ensures k <= elapsed / DEFAULT_INTERVAL
  {
  }

  /** Since the last successful publish, Publish has been called at most 15 times while the breaker was
      never opened, and at most 3·(5 + ⌊D / 5 min⌋) times once it opened D ago. */
  lemma {:induction false} OutageBound(w: World, steps: seq<Step>)
    requires Initial(w) && CanRun(w, steps)
    ensures
      var w' := Run(w, steps);
      && (w'.failures < DEFAULT_THRESHOLD ==> w'.calls <= ATTEMPTS * DEFAULT_THRESHOLD)
      && (w'.failures >= DEFAULT_THRESHOLD ==>
            && w'.openedAt <= w'.now
            && w'.calls <= ATTEMPTS * (DEFAULT_THRESHOLD + (w'.now - w'.openedAt) / DEFAULT_INTERVAL))
  {
    hide After, CanRun, Initial, Run;
    Shapes(w, steps);
    var w' := Run(w, steps);
    if w'.failures >= DEFAULT_THRESHOLD {
      var probes := w'.failures - DEFAULT_THRESHOLD + if w'.breaker.circuit.HalfOpen? then 1 else 0;
      QuotientBound(probes, w'.now - w'.openedAt);
    }
  }
}
