/** Retrying with exponential backoff, and the call that composes bulkhead, retry and breaker. */
module Resilience {
  import opened Basics
  import opened Wrappers

  /** The exceptions the policies tell apart. */
  datatype Exn = Cancelled | CircuitOpen | BudgetExceeded | Transport | StatusError(code: int) | OtherError | AssertionFailed

  datatype Outcome<V> = Return(value: V) | Raise(error: Exn)

  /** `is_transient_downstream_error` */
  predicate IsTransient(e: Exn) {
    match e
    case Transport => true
    case StatusError(code) => code == 429 || code >= 500
    case _ => false
  }

  /** How attempt `i` would end, and how the budget would answer a retry after it. The environment decides both. */
  datatype Script<!V> = Script(attempt: nat -> Outcome<V>, budget: nat -> bool)

  datatype Policy = Policy(maxRetries: int, baseDelay: real, maxDelay: real, budgeted: bool, retryIf: Exn -> bool)

  // ---------- exponential backoff ----------

  /** After attempt `i` nothing more is tried. */
  predicate Stops<V>(p: Policy, s: Script<V>, i: nat) {
    var r := s.attempt(i);
    r.Return? || r.error == Cancelled || i >= p.maxRetries || !p.retryIf(r.error) || (p.budgeted && !s.budget(i))
  }

  /** The least attempt from `i` on after which nothing more is tried. */
  function LastAttempt<V>(p: Policy, s: Script<V>, i: nat): (k: nat)
    requires i <= p.maxRetries
    ensures i <= k <= p.maxRetries && Stops(p, s, k) && forall j | i <= j < k :: !Stops(p, s, j)
    decreases p.maxRetries - i
  {
    if Stops(p, s, i) then i else LastAttempt(p, s, i + 1)
  }

  /** What the caller sees when attempt `k` was the last: its own outcome, unless the budget refused the retry. */
  function Final<V>(p: Policy, s: Script<V>, k: nat): Outcome<V> {
    var r := s.attempt(k);
    if r.Raise? && r.error != Cancelled && k < p.maxRetries && p.retryIf(r.error) && p.budgeted && !s.budget(k)
    then Raise(BudgetExceeded) else r
  }

  /** The delay after attempt `i`, before jitter. */
  function Delay(p: Policy, i: nat): real {
    var grown := p.baseDelay * Pow2(i) as real;
    if grown <= p.maxDelay then grown else p.maxDelay
  }

  /** The first delay is the capped base, and each next one is twice the one before, up to the cap. */
  lemma DelayMeaning(p: Policy, i: nat)
    requires p.baseDelay >= 0.0 && p.maxDelay >= 0.0
    ensures Delay(p, 0) == if p.baseDelay <= p.maxDelay then p.baseDelay else p.maxDelay
    ensures Delay(p, i + 1) == if 2.0 * Delay(p, i) <= p.maxDelay then 2.0 * Delay(p, i) else p.maxDelay
  {
    var grown := p.baseDelay * Pow2(i) as real;
    assert grown >= 0.0 && p.baseDelay * Pow2(i + 1) as real == 2.0 * grown;
  }

  /** An outcome after which the policy would try again. */
  predicate MayGoOn<V>(p: Policy, r: Outcome<V>) {
    match r case Return(_) => false case Raise(e) => e != Cancelled && p.retryIf(e)
  }

  /** The decorated call. `jitter(i)` is the random fraction of the delay, between -0.2 and 0.2. */
  method ExponentialBackoff<V>(p: Policy, s: Script<V>, jitter: nat -> real)
    returns (r: Outcome<V>, attempts: nat, sleeps: seq<real>)
    requires forall i :: -0.2 <= jitter(i) <= 0.2
    ensures p.maxRetries < 0 ==> attempts == 0 && sleeps == [] && r == Raise(AssertionFailed)
    ensures p.maxRetries >= 0 ==>
      var k := LastAttempt(p, s, 0);
      && attempts == k + 1 <= p.maxRetries + 1 && r == Final(p, s, k) && |sleeps| == k
      && forall i | 0 <= i < k :: sleeps[i] == Delay(p, i) + Delay(p, i) * jitter(i)
    // every attempt but the last raised something retryable that the budget let through
    ensures p.maxRetries >= 0 ==> attempts >= 1
    ensures forall i | 0 <= i < attempts - 1 :: MayGoOn(p, s.attempt(i)) && (p.budgeted ==> s.budget(i))
    // the caller sees the last one, unless the budget refused a retry that was still left
    ensures attempts >= 1 ==>
      var last, refused := s.attempt(attempts - 1), p.budgeted && !s.budget(attempts - 1);
      if MayGoOn(p, last) && attempts <= p.maxRetries then refused && r == Raise(BudgetExceeded) else r == last
  {
    attempts, sleeps := 0, [];
    while attempts <= p.maxRetries
      invariant if p.maxRetries >= 0 then attempts <= p.maxRetries else attempts == 0
      invariant |sleeps| == attempts
      invariant forall j | 0 <= j < attempts :: !Stops(p, s, j) && MayGoOn(p, s.attempt(j)) && (p.budgeted ==> s.budget(j))
      invariant forall i | 0 <= i < attempts :: sleeps[i] == Delay(p, i) + Delay(p, i) * jitter(i)
      decreases p.maxRetries - attempts
    {
      var i := attempts;
      attempts := attempts + 1;
      LeastStop(p, s, i);
      r := s.attempt(i);
      if r.Return? {
        return;
      }
      if r.error == Cancelled {
        return;
      }
      if i < p.maxRetries && p.retryIf(r.error) {
        if p.budgeted && !s.budget(i) {
          r := Raise(BudgetExceeded);
          return;
        }
        var delay := Delay(p, i);
        sleeps := sleeps + [delay + delay * jitter(i)];
      } else {
        return;
      }
    }
    r := Raise(AssertionFailed);
  }

  lemma LeastStop<V>(p: Policy, s: Script<V>, i: nat)
    requires i <= p.maxRetries && forall j | 0 <= j < i :: !Stops(p, s, j)
    ensures Stops(p, s, i) ==> LastAttempt(p, s, 0) == i
  {
    hide Stops;
    var k := LastAttempt(p, s, 0);
    assert Stops(p, s, k);
  }

  /** With a nonnegative base no sleep leaves the band around the capped delay, and none exceeds 1.2 times the cap. */
  lemma SleepBounds(p: Policy, i: nat, jitter: real)
    requires 0.0 <= p.baseDelay && 0.0 <= p.maxDelay && -0.2 <= jitter <= 0.2
    ensures var d := Delay(p, i);
            0.0 <= d <= p.maxDelay && 0.8 * d <= d + d * jitter <= 1.2 * d
  {
    var d := Delay(p, i);
    assert 0.0 <= p.baseDelay * Pow2(i) as real;
    assert d * -0.2 <= d * jitter <= d * 0.2;
  }

  // ---------- one admitted call of a dependency ----------

  /** What the environment decides for one admitted call: whether the breaker lets attempt `i` through, how the
      operation would end there, and what the budget says. */
  datatype World<!V> = World(admits: nat -> bool, operation: nat -> Outcome<V>, budget: nat -> bool)

  function Attempts<V>(w: World<V>): Script<V> {
    Script(i => if w.admits(i) then w.operation(i) else Raise(CircuitOpen), w.budget)
  }

  function DependencyPolicy(budgeted: bool): Policy { Policy(1, 0.25, 0.25, budgeted, IsTransient) }

  /** How often the operation itself ran in the first `n` attempts. */
  function Runs<V>(w: World<V>, n: nat): (r: nat)
    ensures r <= n
  {
    if n == 0 then 0 else Runs(w, n - 1) + if w.admits(n - 1) then 1 else 0
  }

  /** `_call_with_breaker`, inside its bulkhead slot. */
  method CallWithBreaker<V>(w: World<V>, budgeted: bool, jitter: nat -> real) returns (r: Outcome<V>, ghost runs: nat, attempts: nat)
    requires forall i :: -0.2 <= jitter(i) <= 0.2
    ensures 1 <= attempts <= 2 && runs == Runs(w, attempts) <= 2
    ensures attempts == LastAttempt(DependencyPolicy(budgeted), Attempts(w), 0) + 1
    ensures r == Final(DependencyPolicy(budgeted), Attempts(w), attempts - 1)
  {
    var sleeps;
    r, attempts, sleeps := ExponentialBackoff(DependencyPolicy(budgeted), Attempts(w), jitter);
    runs := Runs(w, attempts);
  }

  /** The operation runs twice exactly when it ran, failed transiently, the budget allowed a retry and the breaker
      still admitted it. A call the breaker refuses is never retried, and the operation does not run at all. */
  lemma RunsTwiceIff<V>(w: World<V>, budgeted: bool)
    ensures var k := LastAttempt(DependencyPolicy(budgeted), Attempts(w), 0);
            var first := w.operation(0);
            && (Runs(w, k + 1) == 2 <==>
                  && w.admits(0) && w.admits(1) && (budgeted ==> w.budget(0))
                  && (first == Raise(Transport) || exists code :: first == Raise(StatusError(code)) && (code == 429 || code >= 500)))
            && (Runs(w, k + 1) == 0 <==> !w.admits(0))
            && (!w.admits(0) ==> k == 0 && Final(DependencyPolicy(budgeted), Attempts(w), k) == Raise(CircuitOpen))
  {
    assert Runs(w, 1) == Runs(w, 0) + if w.admits(0) then 1 else 0;
    assert Runs(w, 2) == Runs(w, 1) + if w.admits(1) then 1 else 0;
  }
}
