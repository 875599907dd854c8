/** Exponential backoff with multiplier 2, in exact arithmetic. */
module Backoff {

  datatype BackoffConfig = BackoffConfig(initialDelay: nat, maxDelay: nat)

  function Pow2(n: nat): (r: nat)
    ensures r >= 1
  {
    if n == 0 then 1 else 2 * Pow2(n - 1)
  }

  /** The wait after the failed attempt number `attempt`, counted from 0. */
  function Delay(b: BackoffConfig, attempt: int): nat {
    if attempt <= 0 then b.initialDelay
    else
      var delay := b.initialDelay * Pow2(attempt);
      if delay > b.maxDelay then b.maxDelay else delay
  }

  /** The waits after the first `n` failed attempts. */
  function Delays(b: BackoffConfig, n: nat): (r: seq<nat>)
    ensures |r| == n
  {
    if n == 0 then [] else Delays(b, n - 1) + [Delay(b, n - 1)]
  }

  function Sum(s: seq<nat>): nat {
    if s == [] then 0 else Sum(s[..|s| - 1]) + s[|s| - 1]
  }

  lemma {:induction false} Growth(initial: nat, a: nat, b: nat)
    requires a <= b
    ensures initial * Pow2(a) <= initial * Pow2(b)
    decreases b
  {
    if a < b {
      Growth(initial, a, b - 1);
      assert initial * Pow2(b) == 2 * (initial * Pow2(b - 1));
    }
  }

  /** Delays never decrease exactly when the first delay is within the cap. */
  lemma DelaysMonotoneIff(b: BackoffConfig)
    ensures (forall i: nat, j: nat :: i <= j ==> Delay(b, i) <= Delay(b, j)) <==> b.initialDelay <= b.maxDelay
  {
    if b.initialDelay <= b.maxDelay {
      forall i: nat, j: nat | i <= j ensures Delay(b, i) <= Delay(b, j) {
        Growth(b.initialDelay, i, j);
        Growth(b.initialDelay, 0, j);
      }
    } else {
      Growth(b.initialDelay, 0, 1);
      assert Delay(b, 1) == b.maxDelay < Delay(b, 0);
    }
  }

  /** `m` is the first attempt whose doubled delay exceeds the cap. */
  predicate CapIndex(b: BackoffConfig, m: nat) {
    b.initialDelay * Pow2(m) > b.maxDelay && (m > 0 ==> b.initialDelay * Pow2(m - 1) <= b.maxDelay)
  }

  lemma {:induction false} CapIndexExists(b: BackoffConfig, n: nat) returns (m: nat)
    requires b.initialDelay * Pow2(n) > b.maxDelay
    ensures m <= n && CapIndex(b, m)
    decreases n
  {
    if n == 0 || b.initialDelay * Pow2(n - 1) <= b.maxDelay {
      m := n;
    } else {
      m := CapIndexExists(b, n - 1);
    }
  }

  lemma {:induction false} PowerExceeds(n: nat)
    ensures Pow2(n) > n
  {
    if n > 0 { PowerExceeds(n - 1); }
  }

  lemma ScaleUp(x: nat, y: nat)
    requires x >= 1
    ensures x * y >= y
  {
    assert x * y == y + (x - 1) * y;
  }

  /** Every positive first delay reaches the cap. */
  lemma CapReached(b: BackoffConfig) returns (m: nat)
    requires b.initialDelay > 0
    ensures CapIndex(b, m)
  {
    PowerExceeds(b.maxDelay);
    ScaleUp(b.initialDelay, Pow2(b.maxDelay));
    m := CapIndexExists(b, b.maxDelay);
  }

  lemma DelayBelowCap(b: BackoffConfig, m: nat, k: nat)
    requires CapIndex(b, m) && k < m
    ensures Delay(b, k) == b.initialDelay * Pow2(k)
  {
    Growth(b.initialDelay, k, m - 1);
  }

  lemma DelayAtCap(b: BackoffConfig, m: nat, k: nat)
    requires b.initialDelay <= b.maxDelay && CapIndex(b, m) && k >= m
    ensures Delay(b, k) == b.maxDelay
  {
    Growth(b.initialDelay, m, k);
  }

  /** The total wait: geometric up to the cap index, linear after it. */
  lemma {:induction false} TotalWait(b: BackoffConfig, m: nat, n: nat)
    requires b.initialDelay <= b.maxDelay && CapIndex(b, m)
    ensures n <= m ==> Sum(Delays(b, n)) == b.initialDelay * (Pow2(n) - 1)
    ensures n >= m ==> Sum(Delays(b, n)) == b.initialDelay * (Pow2(m) - 1) + (n - m) * b.maxDelay
    decreases n
  {
    hide Pow2, Delay, CapIndex;
    if n == 0 {
      assert Pow2(0) == 1 by { PowerOfZero(); }
      if n >= m { assert (n - m) * b.maxDelay == 0; }
    } else {
      TotalWait(b, m, n - 1);
      assert Delays(b, n)[..n - 1] == Delays(b, n - 1);
      if n <= m {
        DelayBelowCap(b, m, n - 1);
        Doubling(b.initialDelay, n);
        if n == m { assert (n - m) * b.maxDelay == 0; }
      } else {
        DelayAtCap(b, m, n - 1);
        Successor(n - 1 - m, b.maxDelay);
      }
    }
  }

  lemma PowerOfZero()
    ensures Pow2(0) == 1
  {
  }

  lemma Successor(k: nat, x: nat)
    ensures k * x + x == (k + 1) * x
  {
  }

  lemma Doubling(initial: nat, n: nat)
    requires n > 0
    ensures initial * (Pow2(n - 1) - 1) + initial * Pow2(n - 1) == initial * (Pow2(n) - 1)
  {
    var p: int := Pow2(n - 1);
    assert Pow2(n) == 2 * p;
    assert initial * (p - 1) == initial * p - initial;
    assert initial * (2 * p - 1) == 2 * (initial * p) - initial;
  }

  // ----- the retry loop -----

  /** How a retry loop ended; `Unfinished` when the observed calls run out before it does. */
  datatype Outcome = Succeeded | Exhausted | Cancelled | Unfinished

  /** A retry loop that called its function with these `outcomes` and began these `waits`: it stops at the
      first success, after `maxAttempts` calls when that is positive, or when a wait is cut short. */
  predicate Retried(cfg: BackoffConfig, maxAttempts: nat, outcomes: seq<bool>, result: Outcome, waits: seq<nat>) {
    && (forall i :: 0 <= i < |outcomes| - 1 ==> !outcomes[i])
    && (maxAttempts > 0 ==> |outcomes| <= maxAttempts)
    && waits == Delays(cfg, |waits|)
    && match result
       case Succeeded => |waits| + 1 == |outcomes| && outcomes[|outcomes| - 1]
       case Exhausted => |waits| + 1 == |outcomes| == maxAttempts && !outcomes[|outcomes| - 1]
       case Cancelled =>
         0 < |waits| == |outcomes| && !outcomes[|outcomes| - 1] && (maxAttempts > 0 ==> |outcomes| < maxAttempts)
       case Unfinished =>
         |waits| == |outcomes| && (forall i :: 0 <= i < |outcomes| ==> !outcomes[i])
         && (maxAttempts > 0 ==> |outcomes| < maxAttempts)
  }

  lemma {:induction false} SumOfDelays(b: BackoffConfig, n: nat)
    requires n > 0
    ensures Sum(Delays(b, n)) == Sum(Delays(b, n - 1)) + Delay(b, n - 1)
  {
    assert Delays(b, n)[..n - 1] == Delays(b, n - 1);
  }

  /** `outcomes[i]` tells whether call `i` returns nil, `cancelled[i]` whether the context ends during
      the wait after it. */
  method Do(cfg: BackoffConfig, maxAttempts: nat, outcomes: seq<bool>, cancelled: seq<bool>)
    returns (result: Outcome, calls: nat, waits: seq<nat>)
    requires |outcomes| == |cancelled|
    ensures calls <= |outcomes| && Retried(cfg, maxAttempts, outcomes[..calls], result, waits)
    ensures forall i :: 0 <= i < calls - 1 ==> !cancelled[i]
    ensures result.Cancelled? ==> cancelled[calls - 1]
    ensures result.Unfinished? ==> calls == |outcomes| && forall i :: 0 <= i < calls ==> !cancelled[i]
  {
    calls, waits := 0, [];
    while calls < |outcomes|
      invariant calls <= |outcomes| && |waits| == calls && waits == Delays(cfg, calls)
      invariant maxAttempts > 0 ==> calls < maxAttempts
      invariant forall i :: 0 <= i < calls ==> !outcomes[i] && !cancelled[i]
    {
      var attempt := calls;
      calls := calls + 1;
      if outcomes[attempt] { return Succeeded, calls, waits; }
      if maxAttempts > 0 && attempt + 1 >= maxAttempts { return Exhausted, calls, waits; }
      waits := waits + [Delay(cfg, attempt)];
      if cancelled[attempt] { return Cancelled, calls, waits; }
    }
    result := Unfinished;
  }
}
