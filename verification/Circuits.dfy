/** The circuit breaker in front of the cloud database. */
module Circuits {

  datatype Circuit = Closed | Open | HalfOpen

  const DEFAULT_THRESHOLD: nat := 5
  /** Five minutes in nanoseconds. */
  const DEFAULT_INTERVAL: nat := 300_000_000_000

  /** The state of a breaker as a value. */
  datatype Breaker = Breaker(
    circuit: Circuit, failures: nat, lastFailure: nat, threshold: nat, interval: nat)

  function Fresh(threshold: nat, interval: nat): Breaker { Breaker(Closed, 0, 0, threshold, interval) }

  /** What Allow answers at time `now`. */
  predicate Grants(b: Breaker, now: nat) {
    b.circuit.Closed? || (b.circuit.Open? && now - b.lastFailure >= b.interval)
  }

  function AfterAllow(b: Breaker, now: nat): Breaker {
    if b.circuit.Open? && Grants(b, now) then b.(circuit := HalfOpen) else b
  }

  function AfterSuccess(b: Breaker): Breaker { b.(failures := 0, circuit := Closed) }

  function AfterFailure(b: Breaker, now: nat): Breaker {
    var n := b.failures + 1;
    b.(failures := n, lastFailure := now, circuit := if n >= b.threshold then Open else b.circuit)
  }

  class CircuitBreaker {
    var state: Circuit
    var consecutiveFailures: nat
    const failureThreshold: nat
    const retryInterval: nat
    var lastFailureTime: nat

    ghost function View(): Breaker
      reads this
    {
      Breaker(state, consecutiveFailures, lastFailureTime, failureThreshold, retryInterval)
    }

    constructor (threshold: int, interval: int)
      ensures View() == Fresh(if threshold <= 0 then DEFAULT_THRESHOLD else threshold,
                              if interval <= 0 then DEFAULT_INTERVAL else interval)
    {
      state, consecutiveFailures, lastFailureTime := Closed, 0, 0;
      failureThreshold := if threshold <= 0 then DEFAULT_THRESHOLD else threshold;
      retryInterval := if interval <= 0 then DEFAULT_INTERVAL else interval;
    }

    method Allow(now: nat) returns (allowed: bool)
      modifies this`state
      ensures allowed == Grants(old(View()), now)
      ensures View() == AfterAllow(old(View()), now)
    {
      match state
      case Closed => allowed := true;
      case Open =>
        if now - lastFailureTime >= retryInterval {
          state := HalfOpen;
          allowed := true;
        } else {
          allowed := false;
        }
      case HalfOpen => allowed := false;
    }

    method RecordSuccess()
      modifies this
      ensures View() == AfterSuccess(old(View()))
    {
      consecutiveFailures := 0;
      state := Closed;
    }

    method RecordFailure(now: nat)
      modifies this
      ensures View() == AfterFailure(old(View()), now)
    {
      consecutiveFailures := consecutiveFailures + 1;
      lastFailureTime := now;
      if consecutiveFailures >= failureThreshold {
        state := Open;
      }
    }
  }

  // ----- call sequences -----

  datatype Call = AllowCall(at: nat) | SuccessCall(at: nat) | FailureCall(at: nat)

  function AfterCall(b: Breaker, c: Call): Breaker {
    match c
    case AllowCall(t) => AfterAllow(b, t)
    case SuccessCall(_) => AfterSuccess(b)
    case FailureCall(t) => AfterFailure(b, t)
  }

  function AfterCalls(b: Breaker, calls: seq<Call>): Breaker
    decreases |calls|
  {
    if calls == [] then b else AfterCall(AfterCalls(b, calls[..|calls| - 1]), calls[|calls| - 1])
  }

  /** Failures since the last success of a call sequence. */
  function TrailingFailures(calls: seq<Call>): nat
    decreases |calls|
  {
    if calls == [] then 0
    else
      match calls[|calls| - 1]
      case AllowCall(_) => TrailingFailures(calls[..|calls| - 1])
      case SuccessCall(_) => 0
      case FailureCall(_) => TrailingFailures(calls[..|calls| - 1]) + 1
  }

  /** After any calls, the circuit is closed exactly when fewer failures than the threshold
      have come since the last success. */
  lemma {:induction false} ClosedIff(calls: seq<Call>, threshold: nat, interval: nat)
    requires threshold > 0
    ensures
      var b := AfterCalls(Fresh(threshold, interval), calls);
      && b.threshold == threshold && b.interval == interval
      && b.failures == TrailingFailures(calls)
      && (b.circuit.Closed? <==> TrailingFailures(calls) < threshold)
    decreases |calls|
  {
    if calls != [] { ClosedIff(calls[..|calls| - 1], threshold, interval); }
  }

  /** When the last failure of a call sequence came; 0 when none did. */
  function LastFailureTime(calls: seq<Call>): nat
    decreases |calls|
  {
    if calls == [] then 0
    else
      match calls[|calls| - 1]
      case FailureCall(t) => t
      case _ => LastFailureTime(calls[..|calls| - 1])
  }

  /** The interval has passed since the last failure. */
  predicate Waited(calls: seq<Call>, interval: nat, t: nat) { t - LastFailureTime(calls) >= interval }

  /** A probe has been let through since the last failure, and no success has come. */
  predicate ProbeOut(calls: seq<Call>, threshold: nat, interval: nat)
    decreases |calls|
  {
    calls != [] &&
    var before := calls[..|calls| - 1];
    match calls[|calls| - 1]
    case AllowCall(t) =>
      ProbeOut(before, threshold, interval) || (TrailingFailures(before) >= threshold && Waited(before, interval, t))
    case SuccessCall(_) => false
    case FailureCall(_) => false
  }

  /** After any calls, a request at `t` is let through exactly when fewer failures than the threshold came since
      the last success, or no probe is out and the interval has passed since the last failure. */
  lemma {:induction false} GrantedIff(calls: seq<Call>, threshold: nat, interval: nat, t: nat)
    requires threshold > 0
    ensures
      Grants(AfterCalls(Fresh(threshold, interval), calls), t)
      <==> TrailingFailures(calls) < threshold || (!ProbeOut(calls, threshold, interval) && Waited(calls, interval, t))
  {
    ClosedIff(calls, threshold, interval);
    HalfOpenIff(calls, threshold, interval);
  }

  lemma {:induction false} HalfOpenIff(calls: seq<Call>, threshold: nat, interval: nat)
    requires threshold > 0
    ensures
      var b := AfterCalls(Fresh(threshold, interval), calls);
      && b.lastFailure == LastFailureTime(calls)
      && (TrailingFailures(calls) >= threshold ==> (b.circuit.HalfOpen? <==> ProbeOut(calls, threshold, interval)))
    decreases |calls|
  {
    if calls != [] {
      HalfOpenIff(calls[..|calls| - 1], threshold, interval);
      ClosedIff(calls[..|calls| - 1], threshold, interval);
      ClosedIff(calls, threshold, interval);
    }
  }

  /** Call `i` is a granted probe: an Allow that found the circuit open and answered yes. */
  ghost predicate Probe(b: Breaker, calls: seq<Call>, i: nat)
    requires i < |calls|
  {
    var before := AfterCalls(b, calls[..i]);
    calls[i].AllowCall? && before.circuit.Open? && Grants(before, calls[i].at)
  }

  ghost predicate Chronological(calls: seq<Call>) {
    forall i, j :: 0 <= i <= j < |calls| ==> calls[i].at <= calls[j].at
  }

  lemma {:induction false} AfterProbe(b: Breaker, calls: seq<Call>, i: nat, j: nat)
    requires i < j <= |calls| && Probe(b, calls, i) && Chronological(calls)
    requires forall k :: i < k < j ==> !calls[k].SuccessCall?
    requires b.threshold > 0 && (b.circuit.Closed? <==> b.failures < b.threshold)
    ensures
      var s := AfterCalls(b, calls[..j]);
      && s.interval == b.interval && s.threshold == b.threshold && s.failures >= s.threshold
      && (s.circuit.HalfOpen? || (s.circuit.Open? && s.lastFailure >= calls[i].at))
    decreases j
  {
    assert calls[..j][..j - 1] == calls[..j - 1];
    if j == i + 1 {
      BreakerShape(b, calls[..i]);
    } else {
      AfterProbe(b, calls, i, j - 1);
      assert calls[i].at <= calls[j - 1].at;
    }
  }

  lemma {:induction false} BreakerShape(b: Breaker, calls: seq<Call>)
    requires b.threshold > 0 && (b.circuit.Closed? <==> b.failures < b.threshold)
    ensures
      var s := AfterCalls(b, calls);
      s.threshold == b.threshold && s.interval == b.interval && (s.circuit.Closed? <==> s.failures < s.threshold)
    decreases |calls|
  {
    if calls != [] { BreakerShape(b, calls[..|calls| - 1]); }
  }

  /** Two granted probes with no success between them are at least the retry interval apart. */
  lemma ProbesAreSpaced(calls: seq<Call>, i: nat, j: nat, threshold: nat, interval: nat)
    requires threshold > 0 && i < j < |calls| && Chronological(calls)
    requires Probe(Fresh(threshold, interval), calls, i) && Probe(Fresh(threshold, interval), calls, j)
    requires forall k :: i < k < j ==> !calls[k].SuccessCall?
    ensures calls[j].at - calls[i].at >= interval
  {
    AfterProbe(Fresh(threshold, interval), calls, i, j);
  }
}
