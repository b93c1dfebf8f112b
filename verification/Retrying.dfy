/** The retry loop and its delays. */
module Retrying {
  import opened Int64
  import opened Model

  datatype Policy = NoRetry | Linear(maxRetries: int, initialDelay: int64, delayIncrease: int64)

  function MaxAttempts(p: Policy): int {
    if p.Linear? then p.maxRetries else 0
  }

  function NextDelay(p: Policy, lastDelay: int64): int64 {
    match p
    case NoRetry => 0
    case Linear(_, initialDelay, delayIncrease) =>
      if lastDelay == 0 then initialDelay else Wrap(lastDelay + delayIncrease)
  }

  /** How many retries there may be at most. */
  function RetryLimit(p: Policy): (n: nat)
    ensures p.NoRetry? ==> n == 0
    ensures p.Linear? ==> n == if p.maxRetries > 0 then p.maxRetries else 0
  {
    if MaxAttempts(p) > 0 then MaxAttempts(p) else 0
  }

  // ---- what a sequence of attempts does ----

  /** The state after k calls, one following the other. */
  function After<S, E>(f: (S, nat) -> (S, Option<E>), s: S, k: nat): S {
    if k == 0 then s else f(After(f, s, k - 1), k - 1).0
  }

  /** What call number k (from 0) returns. */
  function Outcome<S, E>(f: (S, nat) -> (S, Option<E>), s: S, k: nat): Option<E> {
    f(After(f, s, k), k).1
  }

  predicate RetryableAt<S, E>(f: (S, nat) -> (S, Option<E>), s: S, retryable: E -> bool, k: nat) {
    var o := Outcome(f, s, k);
    o.Some? && retryable(o.value)
  }

  /** The first n calls all failed with a retryable error. */
  predicate AllRetryable<S, E>(f: (S, nat) -> (S, Option<E>), s: S, retryable: E -> bool, n: nat) {
    n == 0 || (AllRetryable(f, s, retryable, n - 1) && RetryableAt(f, s, retryable, n - 1))
  }

  /** The sleep before retry number i (from 0). */
  function Sleep(p: Policy, i: nat): int64 {
    NextDelay(p, if i == 0 then 0 else Sleep(p, i - 1))
  }

  function Sleeps(p: Policy, n: nat): seq<int64> {
    if n == 0 then [] else Sleeps(p, n - 1) + [Sleep(p, n - 1)]
  }

  /**
   `f` takes the state it acts on and the number of the attempt, so that every attempt may turn out differently.
   The final unwrapping compares the error with a pointer made on the spot and so never applies.
   */
  method Run<S, E>(policy: Policy, retryable: E -> bool, f: (S, nat) -> (S, Option<E>), s0: S)
      returns (s: S, err: Option<E>, calls: nat, sleeps: seq<int64>)
    ensures 1 <= calls <= 1 + if policy.Linear? && policy.maxRetries > 0 then policy.maxRetries else 0
    ensures s == After(f, s0, calls) && err == Outcome(f, s0, calls - 1)
    // every call but the last failed retryably, and it was the last for a reason
    ensures AllRetryable(f, s0, retryable, calls - 1)
    ensures RetryableAt(f, s0, retryable, calls - 1) ==>
              calls == 1 + if policy.Linear? && policy.maxRetries > 0 then policy.maxRetries else 0
    ensures sleeps == Sleeps(policy, calls - 1)
  {
    var r := f(s0, 0);
    s, err, calls, sleeps := r.0, r.1, 1, [];
    if err == None || !retryable(err.value) {
      return;
    }
    var attempt := 0;
    var delay := NextDelay(policy, 0);
    while attempt < MaxAttempts(policy)
      invariant 0 <= attempt <= RetryLimit(policy) && calls == attempt + 1
      invariant s == After(f, s0, attempt + 1) && err == Outcome(f, s0, attempt)
      invariant AllRetryable(f, s0, retryable, calls)
      invariant delay == Sleep(policy, attempt)
      invariant sleeps == Sleeps(policy, attempt)
    {
      sleeps := sleeps + [delay];
      attempt := attempt + 1;
      r := f(s, attempt);
      assert r.0 == After(f, s0, attempt + 1) && r.1 == Outcome(f, s0, attempt);
      s, err, calls := r.0, r.1, attempt + 1;
      if err == None || !retryable(err.value) {
        assert !RetryableAt(f, s0, retryable, attempt);
        return;
      }
      assert RetryableAt(f, s0, retryable, attempt);
      delay := NextDelay(policy, delay);
    }
  }

  /** If a failed attempt changes nothing, a run of attempts acts once when it ends well and else not at all. */
  lemma {:induction false} ActsAtMostOnce<S, E>(
      f: (S, nat) -> (S, Option<E>), retryable: E -> bool, act: S -> S, s0: S, calls: nat)
    requires forall s, k :: f(s, k).0 == if f(s, k).1 == None then act(s) else s
    requires calls >= 1 && AllRetryable(f, s0, retryable, calls - 1)
    ensures After(f, s0, calls - 1) == s0
    ensures After(f, s0, calls) == if Outcome(f, s0, calls - 1) == None then act(s0) else s0
  {
    if calls > 1 {
      ActsAtMostOnce(f, retryable, act, s0, calls - 1);
    }
  }

  // ---- delays ----

  /** d + kc in int64. */
  function Line(p: Policy, k: nat): int64
    requires p.Linear?
  {
    Wrap(p.initialDelay + k * p.delayIncrease)
  }

  /**
   The delays grow linearly exactly as long as none of them is zero: a zero delay is taken for the first one
   and starts the sequence over, which shows unless the increase equals the initial delay.
   */
  lemma {:induction false} LinearIffNoZero(p: Policy, n: nat)
    requires p.Linear?
    ensures (forall k :: 0 <= k <= n ==> Sleep(p, k) == Line(p, k))
       <==> (p.initialDelay == p.delayIncrease || forall j :: 0 <= j < n ==> Line(p, j) != 0)
  {
    if n == 0 {
      WrapIdempotent(p.initialDelay);
      assert Line(p, 0) == p.initialDelay;
    } else {
      LinearIffNoZero(p, n - 1);
      if Sleep(p, n - 1) == Line(p, n - 1) {
        LinearStep(p, n);
      }
    }
  }

  lemma LinearStep(p: Policy, n: nat)
    requires p.Linear? && n > 0
    requires Sleep(p, n - 1) == Line(p, n - 1)
    ensures Sleep(p, n) == Line(p, n) <==> (p.initialDelay == p.delayIncrease || Line(p, n - 1) != 0)
  {
    var d, c := p.initialDelay, p.delayIncrease;
    var x := d + (n - 1) * c;
    assert x + c == d + n * c;
    WrapAdd(x, c);
    WrapIdempotent(c);
    assert Line(p, n) == Wrap(Wrap(x) + c);
  }

  function TotalSleep(p: Policy, n: nat): int {
    if n == 0 then 0 else TotalSleep(p, n - 1) + Sleep(p, n - 1)
  }

  lemma OneMore(n: nat, c: int)
    requires c >= 0
    ensures (n - 1) * c + c == n * c && (n > 0 ==> (n - 1) * c >= 0)
  {
  }

  lemma NextExact(p: Policy, last: int64)
    requires p.Linear? && last > 0 && p.delayIncrease >= 0 && last + p.delayIncrease < HALF
    ensures NextDelay(p, last) == last + p.delayIncrease
  {
    WrapIdempotent(last + p.delayIncrease);
  }

  lemma LinearNext(p: Policy, n: nat)
    requires p.Linear? && p.initialDelay > 0 && p.delayIncrease >= 0 && n > 0
    requires p.initialDelay + n * p.delayIncrease < HALF
    requires Sleep(p, n - 1) == p.initialDelay + (n - 1) * p.delayIncrease
    ensures Sleep(p, n) == p.initialDelay + n * p.delayIncrease
  {
    OneMore(n, p.delayIncrease);
    NextExact(p, Sleep(p, n - 1));
  }

  /** With a positive initial delay and no overflow, sleep k is d + (k-1)c and n of them take nd + cn(n-1)/2. */
  lemma {:induction false} LinearSchedule(p: Policy, n: nat)
    requires p.Linear? && p.initialDelay > 0 && p.delayIncrease >= 0
    requires p.initialDelay + n * p.delayIncrease < HALF
    ensures forall k :: 0 <= k <= n ==> Sleep(p, k) == p.initialDelay + k * p.delayIncrease
    ensures 2 * TotalSleep(p, n) == 2 * (n * p.initialDelay) + p.delayIncrease * (n * (n - 1))
  {
    var d, c := p.initialDelay, p.delayIncrease;
    if n == 0 {
      assert Sleep(p, 0) == d;
    } else {
      OneMore(n, c);
      LinearSchedule(p, n - 1);
      LinearNext(p, n);
      TotalNext(p, n);
    }
  }

  lemma TotalNext(p: Policy, n: nat)
    requires p.Linear? && n > 0 && Sleep(p, n - 1) == p.initialDelay + (n - 1) * p.delayIncrease
    requires 2 * TotalSleep(p, n - 1) == 2 * ((n - 1) * p.initialDelay) + p.delayIncrease * ((n - 1) * (n - 2))
    ensures 2 * TotalSleep(p, n) == 2 * (n * p.initialDelay) + p.delayIncrease * (n * (n - 1))
  {
    Series(p.initialDelay, p.delayIncrease, n - 1);
  }

  lemma Series(d: int, c: int, m: nat)
    ensures 2 * (m * d) + c * (m * (m - 1)) + 2 * (d + m * c) == 2 * ((m + 1) * d) + c * ((m + 1) * m)
  {
    assert m * (m - 1) + 2 * m == (m + 1) * m;
    assert c * (m * (m - 1)) + c * (2 * m) == c * (m * (m - 1) + 2 * m);
  }

  /** A zero initial delay never grows, whatever the increase. */
  lemma {:induction false} ZeroInitialDelay(p: Policy, k: nat)
    requires p.Linear? && p.initialDelay == 0
    ensures Sleep(p, k) == 0
  {
    if k > 0 {
      ZeroInitialDelay(p, k - 1);
    }
  }
}
