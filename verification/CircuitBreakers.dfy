/** The two circuit breakers: CircuitBreaker, and the one behind the circuit_breaker decorator. */
module CircuitBreakers {
  import opened Basics
  import opened Wrappers

  datatype State = Closed | Open | HalfOpen

  /** The configuration of a CircuitBreaker. */
  datatype Policy = Policy(threshold: int, recovery: real, probes: int)

  datatype Breaker = Breaker(state: State, failures: nat, openedAt: Option<real>, successes: nat)

  const Initial := Breaker(Closed, 0, None, 0)

  /** Everything that can happen to a breaker; each is one region under its lock. `Uncounted` is a call
      that ended in an exception the breaker was told to ignore. */
  datatype Event =
    | Enter(now: real) | Success | Failure(now: real) | Uncounted
    | ForceOpen(now: real) | Reset | ForceClose

  /** `x or 0.0` */
  function OrZero(t: Option<real>): real { if t.Some? then t.value else 0.0 }

  /** An enter while this holds raises CircuitOpenError. */
  predicate Rejects(p: Policy, b: Breaker, now: real) {
    b.state == Open && now - OrZero(b.openedAt) < p.recovery
  }

  function Step(p: Policy, b: Breaker, e: Event): Breaker {
    match e
    case Enter(now) =>
      if b.state == Open && !Rejects(p, b, now) then b.(state := HalfOpen, successes := 0) else b
    case Success =>
      if b.state == HalfOpen then
        if b.successes + 1 >= p.probes then Breaker(Closed, 0, None, 0) else b.(successes := b.successes + 1)
      else b.(failures := 0)
    case Failure(now) =>
      if b.state == HalfOpen then Breaker(Open, 0, Some(now), 0)
      else if b.failures + 1 >= p.threshold then b.(state := Open, openedAt := Some(now), failures := 0)
      else b.(failures := b.failures + 1)
    case Uncounted => b
    case ForceOpen(now) => Breaker(Open, 0, Some(now), 0)
    case Reset => Breaker(Closed, 0, None, 0)
    case ForceClose => Breaker(Closed, 0, None, 0)
  }

  function Run(p: Policy, es: seq<Event>): Breaker {
    if es == [] then Initial else Step(p, Run(p, es[..|es| - 1]), es[|es| - 1])
  }

  class CircuitBreaker {
    const policy: Policy
    var state: State
    var failureCount: nat
    var openedAt: Option<real>
    var halfOpenSuccessCount: nat

    function Value(): Breaker
      reads this
    {
      Breaker(state, failureCount, openedAt, halfOpenSuccessCount)
    }

    constructor (policy: Policy)
      ensures this.policy == policy && Value() == Initial
    {
      this.policy := policy;
      state, failureCount, openedAt, halfOpenSuccessCount := Closed, 0, None, 0;
    }

    /** `__aenter__`; Err is CircuitOpenError. */
    method Aenter(now: real) returns (r: Result<(), string>)
      modifies this
      ensures Value() == Step(policy, old(Value()), Enter(now))
      ensures r.Err? <==> Rejects(policy, old(Value()), now)
      ensures r.Ok? ==> state == if old(state) == Open then HalfOpen else old(state)
      ensures r.Err? ==> Value() == old(Value())
    {
      if state == Open {
        var since := OrZero(openedAt);
        if now - since >= policy.recovery {
          state := HalfOpen;
          halfOpenSuccessCount := 0;
        } else {
          return Err("Circuit is open");
        }
      }
      return Ok(());
    }

    /** `__aexit__`: `failed` says whether an exception escaped, `counted` what is_failure said of it. */
    method Aexit(failed: bool, counted: bool, now: real)
      modifies this
      ensures Value() == Step(policy, old(Value()),
                              if !failed then Success else if counted then Failure(now) else Uncounted)
    {
      if !failed {
        ObservationSuccess();
      } else if counted {
        ObservationFailure(now);
      }
    }

    method ObservationSuccess()
      modifies this
      ensures Value() == Step(policy, old(Value()), Success)
    {
      if state == HalfOpen {
        halfOpenSuccessCount := halfOpenSuccessCount + 1;
        if halfOpenSuccessCount >= policy.probes {
          state := Closed;
          failureCount := 0;
          openedAt := None;
          halfOpenSuccessCount := 0;
        }
      } else {
        failureCount := 0;
      }
    }

    method ObservationFailure(now: real)
      modifies this
      ensures Value() == Step(policy, old(Value()), Failure(now))
    {
      if state == HalfOpen {
        state := Open;
        openedAt := Some(now);
        failureCount := 0;
        halfOpenSuccessCount := 0;
      } else {
        failureCount := failureCount + 1;
        if failureCount >= policy.threshold {
          state := Open;
          openedAt := Some(now);
          failureCount := 0;
        }
      }
    }

    method OpenByForce(now: real)
      modifies this
      ensures Value() == Step(policy, old(Value()), ForceOpen(now))
      ensures state == Open && openedAt == Some(now) && failureCount == 0 && halfOpenSuccessCount == 0
    {
      state, openedAt, failureCount, halfOpenSuccessCount := Open, Some(now), 0, 0;
    }

    /** `reset` and `force_close` do the same. */
    method CloseByForce()
      modifies this
      ensures Value() == Step(policy, old(Value()), Reset) == Step(policy, old(Value()), ForceClose)
      ensures state == Closed && openedAt == None && failureCount == 0 && halfOpenSuccessCount == 0
    {
      state, failureCount, openedAt, halfOpenSuccessCount := Closed, 0, None, 0;
    }
  }

  // ---------- an open circuit stays open ----------

  ghost predicate Timed(e: Event) { e.Enter? || e.Failure? || e.ForceOpen? }

  /** Clock readings never go back. */
  ghost predicate Monotone(es: seq<Event>) {
    forall i, j | 0 <= i < j < |es| && Timed(es[i]) && Timed(es[j]) :: es[i].now <= es[j].now
  }

  /** The event opens the circuit, or opens it anew. */
  ghost predicate Opens(p: Policy, b: Breaker, e: Event) {
    (e.Failure? || e.ForceOpen?) && Step(p, b, e).state == Open && Step(p, b, e).openedAt == Some(e.now)
  }

  /** When the circuit was last opened, unless it was reset since. */
  ghost function LastOpening(p: Policy, es: seq<Event>): Option<real> {
    if es == [] then None
    else
      var front, e := es[..|es| - 1], es[|es| - 1];
      if e.Reset? || e.ForceClose? then None
      else if Opens(p, Run(p, front), e) then Some(e.now)
      else LastOpening(p, front)
  }

  /** While open, the stamp is the latest opening; once past it, that opening lies a full timeout back. */
  ghost predicate Guarded(p: Policy, es: seq<Event>) {
    var b, o := Run(p, es), LastOpening(p, es);
    if b.state == Open then o.Some? && b.openedAt == o
    else o.Some? ==> exists i | 0 <= i < |es| :: es[i].Enter? && es[i].now - o.value >= p.recovery
  }

  lemma {:induction false} OpenIsGuarded(p: Policy, es: seq<Event>)
    ensures Guarded(p, es)
  {
    if es != [] {
      var front, e := es[..|es| - 1], es[|es| - 1];
      OpenIsGuarded(p, front);
      var o := LastOpening(p, front);
      if Run(p, es).state != Open && o.Some? && !e.Reset? && !e.ForceClose? {
        if Run(p, front).state == Open {
          assert es[|es| - 1].Enter? && es[|es| - 1].now - o.value >= p.recovery;
        } else {
          var i :| 0 <= i < |front| && front[i].Enter? && front[i].now - o.value >= p.recovery;
          assert es[i].Enter? && es[i].now - o.value >= p.recovery;
        }
      }
    }
  }

  /** However calls overlap, and however late they complete, nobody is admitted until the recovery timeout after
      the latest opening. */
  lemma NoAdmissionBeforeRecovery(p: Policy, es: seq<Event>, now: real)
    requires Monotone(es + [Enter(now)])
    requires !Rejects(p, Run(p, es), now)
    ensures LastOpening(p, es).Some? ==> now - LastOpening(p, es).value >= p.recovery
  {
    OpenIsGuarded(p, es);
    var o := LastOpening(p, es);
    if o.Some? && Run(p, es).state != Open {
      var i :| 0 <= i < |es| && es[i].Enter? && es[i].now - o.value >= p.recovery;
      var all := es + [Enter(now)];
      assert all[i] == es[i] && all[|es|] == Enter(now) && all[i].now <= all[|es|].now;
    }
  }

  /** The exact condition beside it: an open circuit rejects just until the timeout has passed since its latest opening. */
  lemma OpenRejectsIff(p: Policy, es: seq<Event>, now: real)
    requires Run(p, es).state == Open
    ensures LastOpening(p, es).Some?
    ensures Rejects(p, Run(p, es), now) <==> now - LastOpening(p, es).value < p.recovery
  {
    OpenIsGuarded(p, es);
  }

  // ---------- when it opens and when it closes ----------

  /** Counted failures since the last success or reset. */
  function TrailingFailures(es: seq<Event>): nat {
    if es == [] then 0
    else
      var e := es[|es| - 1];
      if e.Success? || e.Reset? || e.ForceClose? then 0
      else TrailingFailures(es[..|es| - 1]) + if e.Failure? then 1 else 0
  }

  /** Successes since the circuit last turned half open. */
  function ProbesPassed(p: Policy, es: seq<Event>): nat {
    if es == [] then 0
    else
      var front, e := es[..|es| - 1], es[|es| - 1];
      if Run(p, front).state != HalfOpen then 0
      else ProbesPassed(p, front) + if e.Success? then 1 else 0
  }

  /** A closed circuit has seen fewer than the threshold of failures since the last success, a half-open one fewer
      than the needed probes; both counters are exact. */
  lemma {:induction false} CountersAreExact(p: Policy, es: seq<Event>)
    ensures Run(p, es).state == Closed ==>
              Run(p, es).failures == TrailingFailures(es) < Max(1, p.threshold)
    ensures Run(p, es).state == HalfOpen ==>
              Run(p, es).successes == ProbesPassed(p, es) < Max(1, p.probes)
  {
    if es != [] { CountersAreExact(p, es[..|es| - 1]); }
  }

  /** A closed circuit opens exactly at the failure that completes the threshold, a half-open one at any failure; it
      closes exactly at the success that completes the needed probes. */
  lemma TransitionsIff(p: Policy, es: seq<Event>, now: real)
    ensures Run(p, es).state == Closed ==>
              (Run(p, es + [Failure(now)]).state == Open <==> TrailingFailures(es) + 1 >= p.threshold)
    ensures Run(p, es).state == HalfOpen ==>
              Run(p, es + [Failure(now)]).state == Open
              && (Run(p, es + [Success]).state == Closed <==> ProbesPassed(p, es) + 1 >= p.probes)
  {
    CountersAreExact(p, es);
    assert (es + [Failure(now)])[..|es|] == es && (es + [Success])[..|es|] == es;
  }

  // ---------- the decorator's breaker ----------

  datatype Decorated = Decorated(state: State, failures: nat, lastFailure: Option<real>)

  const Unused := Decorated(Closed, 0, None)

  function Probed(d: Decorated, recovery: real, now: real): Decorated {
    if d.state == Open && now - OrZero(d.lastFailure) >= recovery then d.(state := HalfOpen) else d
  }

  predicate Refuses(d: Decorated, recovery: real, now: real) { Probed(d, recovery, now).state == Open }

  function Succeeded(d: Decorated): Decorated { Decorated(Closed, 0, None) }

  function Failed(d: Decorated, threshold: int, now: real): Decorated {
    Decorated(if d.failures + 1 >= threshold || d.state == HalfOpen then Open else d.state, d.failures + 1, Some(now))
  }

  class DecoratorBreaker {
    const failureThreshold: int
    const recoveryTimeout: real
    var state: State
    var failureCount: nat
    var lastFailureTime: Option<real>

    function Value(): Decorated
      reads this
    {
      Decorated(state, failureCount, lastFailureTime)
    }

    constructor (failureThreshold: int, recoveryTimeout: real)
      ensures this.failureThreshold == failureThreshold && this.recoveryTimeout == recoveryTimeout && Value() == Unused
    {
      this.failureThreshold, this.recoveryTimeout := failureThreshold, recoveryTimeout;
      state, failureCount, lastFailureTime := Closed, 0, None;
    }

    method MaybeTransitionToHalfOpen(now: real)
      modifies this`state
      ensures Value() == Probed(old(Value()), recoveryTimeout, now)
    {
      if state == Open {
        var elapsed := now - OrZero(lastFailureTime);
        if elapsed >= recoveryTimeout {
          state := HalfOpen;
        }
      }
    }

    /** The gate at the start of `call`; Err is CircuitOpenError. */
    method Gate(now: real) returns (r: Result<(), string>)
      modifies this`state
      ensures Value() == Probed(old(Value()), recoveryTimeout, now)
      ensures r.Err? <==> Refuses(old(Value()), recoveryTimeout, now)
    {
      MaybeTransitionToHalfOpen(now);
      if state == Open {
        return Err("Circuit is OPEN");
      }
      return Ok(());
    }

    method OnSuccess()
      modifies this
      ensures Value() == Succeeded(old(Value()))
      ensures state == Closed && failureCount == 0 && lastFailureTime == None
    {
      state := Closed;
      failureCount := 0;
      lastFailureTime := None;
    }

    method OnFailure(now: real)
      modifies this
      ensures Value() == Failed(old(Value()), failureThreshold, now)
      ensures failureCount == old(failureCount) + 1 && lastFailureTime == Some(now)
      ensures state == if failureCount >= failureThreshold || old(state) == HalfOpen then Open else old(state)
    {
      failureCount := failureCount + 1;
      lastFailureTime := Some(now);
      if failureCount >= failureThreshold || state == HalfOpen {
        state := Open;
      }
    }
  }

  // ---------- the two agree on calls that do not overlap ----------

  /** How a call ended; `Cancelled` is an exception outside Exception. */
  datatype Outcome = Returned | Raised | Cancelled

  datatype Call = Call(entered: real, outcome: Outcome, ended: real)

  /** One whole call through CircuitBreaker with every exception counted. */
  function Through(p: Policy, b: Breaker, c: Call): Breaker {
    if Rejects(p, b, c.entered) then b
    else Step(p, Step(p, b, Enter(c.entered)), if c.outcome == Returned then Success else Failure(c.ended))
  }

  /** One whole call through the decorator's breaker. */
  function ThroughDecorated(p: Policy, d: Decorated, c: Call): Decorated {
    var entered := Probed(d, p.recovery, c.entered);
    if Refuses(d, p.recovery, c.entered) then d
    else
      match c.outcome
      case Returned => Succeeded(entered)
      case Raised => Failed(entered, p.threshold, c.ended)
      case Cancelled => entered
  }

  function AfterCalls(p: Policy, cs: seq<Call>): (Breaker, Decorated) {
    if cs == [] then (Initial, Unused)
    else
      var (b, d) := AfterCalls(p, cs[..|cs| - 1]);
      (Through(p, b, cs[|cs| - 1]), ThroughDecorated(p, d, cs[|cs| - 1]))
  }

  /** Between calls neither is half open, and they count and stamp alike. */
  ghost predicate Agree(b: Breaker, d: Decorated) {
    && b.state == d.state && b.state != HalfOpen
    && (b.state == Closed ==> b.failures == d.failures)
    && (b.state == Open ==> b.openedAt.Some? && b.openedAt == d.lastFailure)
  }

  /** On calls that do not overlap and are never cancelled, with one probe needed, the two always decide alike. */
  lemma {:induction false} SameDecisions(p: Policy, cs: seq<Call>, now: real)
    requires p.probes <= 1
    requires forall c | c in cs :: c.outcome != Cancelled
    ensures var (b, d) := AfterCalls(p, cs);
            Agree(b, d) && (Rejects(p, b, now) <==> Refuses(d, p.recovery, now))
  {
    if cs != [] {
      SameDecisions(p, cs[..|cs| - 1], cs[|cs| - 1].entered);
    }
  }

  /** One call keeps the two in agreement exactly when it was rejected or not cancelled, whatever the threshold:
      CircuitBreaker counts a cancellation, the decorator's breaker does not see it. */
  lemma AgreementKeptIff(p: Policy, b: Breaker, d: Decorated, c: Call)
    requires p.probes <= 1 && Agree(b, d)
    ensures Agree(Through(p, b, c), ThroughDecorated(p, d, c)) <==> c.outcome != Cancelled || Rejects(p, b, c.entered)
  {
  }

  /** The same over whole histories: the two agree after every prefix exactly when no admitted call was cancelled. */
  lemma {:induction false} AgreeThroughoutIff(p: Policy, cs: seq<Call>)
    requires p.probes <= 1
    ensures (forall n | 0 <= n <= |cs| :: AgreeAfter(p, cs, n)) <==> (forall n | 0 <= n < |cs| :: !CancelledInside(p, cs, n))
  {
    hide Through, ThroughDecorated, Agree, Rejects;
    if cs == [] {
      FreshAgree();
      assert cs[..0] == [];
    } else {
      var m := |cs| - 1;
      var front := cs[..m];
      AgreeThroughoutIff(p, front);
      forall n | 0 <= n <= m ensures AgreeAfter(p, front, n) == AgreeAfter(p, cs, n) { assert front[..n] == cs[..n]; }
      forall n | 0 <= n < m ensures CancelledInside(p, front, n) == CancelledInside(p, cs, n) { assert front[..n] == cs[..n]; }
      if AgreeAfter(p, cs, m) { LastCall(p, cs); }
    }
  }

  ghost predicate AgreeAfter(p: Policy, cs: seq<Call>, n: nat)
    requires n <= |cs|
  {
    Agree(AfterCalls(p, cs[..n]).0, AfterCalls(p, cs[..n]).1)
  }

  /** The n-th call was admitted and cancelled. */
  ghost predicate CancelledInside(p: Policy, cs: seq<Call>, n: nat)
    requires n < |cs|
  {
    cs[n].outcome == Cancelled && !Rejects(p, AfterCalls(p, cs[..n]).0, cs[n].entered)
  }

  lemma FreshAgree()
    ensures Agree(Initial, Unused)
  {
  }

  lemma LastCall(p: Policy, cs: seq<Call>)
    requires p.probes <= 1 && cs != [] && AgreeAfter(p, cs, |cs| - 1)
    ensures AgreeAfter(p, cs, |cs|) <==> !CancelledInside(p, cs, |cs| - 1)
  {
    hide Through, ThroughDecorated, Agree, Rejects;
    var m := |cs| - 1;
    assert cs[..|cs|] == cs;
    AgreementKeptIff(p, AfterCalls(p, cs[..m]).0, AfterCalls(p, cs[..m]).1, cs[m]);
  }

  // ---------- where they part, for every threshold ----------

  /** A call that took no time. */
  function At(outcome: Outcome, t: real): Call { Call(t, outcome, t) }

  function Repeat<T>(x: T, n: nat): (xs: seq<T>)
    ensures |xs| == n && forall i | 0 <= i < n :: xs[i] == x
  {
    if n == 0 then [] else Repeat(x, n - 1) + [x]
  }

  lemma RepeatNext<T>(x: T, n: nat)
    ensures Repeat(x, n + 1)[..n] == Repeat(x, n)
  {
  }

  lemma OneMoreFailure(p: Policy, n: nat, last: Option<real>, t: real)
    requires n + 1 < Max(1, p.threshold)
    ensures Through(p, Breaker(Closed, n, None, 0), At(Raised, t)) == Breaker(Closed, n + 1, None, 0)
    ensures ThroughDecorated(p, Decorated(Closed, n, last), At(Raised, t)) == Decorated(Closed, n + 1, Some(t))
  {
  }

  /** Fewer failures than the threshold leave both closed and counting. */
  lemma {:induction false} RaisedBelowThreshold(p: Policy, n: nat, t: real)
    requires n < Max(1, p.threshold)
    ensures AfterCalls(p, Repeat(At(Raised, t), n)) ==
      (Breaker(Closed, n, None, 0), Decorated(Closed, n, if n == 0 then None else Some(t)))
  {
    if n > 0 {
      hide AfterCalls, Through, ThroughDecorated, Max, At;
      RaisedBelowThreshold(p, n - 1, t);
      OneMoreCall(p, Repeat(At(Raised, t), n - 1), At(Raised, t));
      OneMoreFailure(p, n - 1, if n == 1 then None else Some(t), t);
    }
  }

  lemma OneMoreCall(p: Policy, cs: seq<Call>, c: Call)
    ensures AfterCalls(p, cs + [c]) == (Through(p, AfterCalls(p, cs).0, c), ThroughDecorated(p, AfterCalls(p, cs).1, c))
  {
    hide Through, ThroughDecorated;
    assert (cs + [c])[..|cs|] == cs;
  }

  /** One cancelled call is enough to part the decisions, at every threshold: after one failure less than it takes, a
      cancelled call opens CircuitBreaker and leaves the decorator's breaker closed. */
  lemma CancellationPartsThem(p: Policy, t: real, now: real)
    requires now - t < p.recovery
    ensures var n := Max(1, p.threshold) - 1;
            var (b, d) := AfterCalls(p, Repeat(At(Raised, t), n) + [At(Cancelled, t)]);
            Rejects(p, b, now) && !Refuses(d, p.recovery, now)
  {
    var n := Max(1, p.threshold) - 1;
    var cs := Repeat(At(Raised, t), n) + [At(Cancelled, t)];
    assert cs[..n] == Repeat(At(Raised, t), n);
    RaisedBelowThreshold(p, n, t);
  }

  // ---------- calls that overlap ----------

  /** What a breaker sees of overlapping calls: a call asks to begin, or one that was let in ends. */
  datatype Happening = Began(now: real) | Ended(outcome: Outcome, now: real)

  /** CircuitBreaker with every exception counted. */
  function EventOf(h: Happening): Event {
    match h
    case Began(now) => Enter(now)
    case Ended(outcome, now) => if outcome == Returned then Success else Failure(now)
  }

  function DecoratedStep(p: Policy, d: Decorated, h: Happening): Decorated {
    match h
    case Began(now) => Probed(d, p.recovery, now)
    case Ended(outcome, now) =>
      (match outcome
       case Returned => Succeeded(d)
       case Raised => Failed(d, p.threshold, now)
       case Cancelled => d)
  }

  function RunBoth(p: Policy, hs: seq<Happening>): (Breaker, Decorated) {
    if hs == [] then (Initial, Unused)
    else
      var (b, d) := RunBoth(p, hs[..|hs| - 1]);
      (Step(p, b, EventOf(hs[|hs| - 1])), DecoratedStep(p, d, hs[|hs| - 1]))
  }

  /** They count and stamp alike, between calls or inside them. */
  ghost predicate AgreeNow(b: Breaker, d: Decorated) {
    && b.state == d.state
    && (b.state == Closed ==> b.failures == d.failures)
    && (b.state == Open ==> b.openedAt.Some? && b.openedAt == d.lastFailure)
    && (b.state == HalfOpen ==> b.successes == 0)
  }

  /** What an end does to one of the two only: while open, a return closes the decorator's breaker and a failure short of
      the threshold restamps it, but a failure that reaches it restamps CircuitBreaker as well; a cancellation is seen by
      CircuitBreaker alone, and changes nothing there only while open and short of the threshold. */
  predicate Parts(p: Policy, b: Breaker, h: Happening) {
    h.Ended?
    && var reaches, restamps := b.failures + 1 >= p.threshold, b.openedAt != Some(h.now);
       match h.outcome
       case Returned => b.state == Open
       case Raised => b.state == Open && !reaches && restamps
       case Cancelled => b.state != Open || (reaches && restamps)
  }

  /** Breakers that agree decide alike. */
  lemma AgreeingDecideAlike(p: Policy, b: Breaker, d: Decorated, now: real)
    requires AgreeNow(b, d)
    ensures Rejects(p, b, now) <==> Refuses(d, p.recovery, now)
  {
  }

  /** One beginning or end, of any overlapping calls, keeps the two in agreement exactly when it parts nothing. */
  lemma OverlapKeepsAgreementIff(p: Policy, b: Breaker, d: Decorated, h: Happening)
    requires p.probes <= 1 && AgreeNow(b, d)
    ensures AgreeNow(Step(p, b, EventOf(h)), DecoratedStep(p, d, h)) <==> !Parts(p, b, h)
  {
  }

  ghost predicate AgreeUpTo(p: Policy, hs: seq<Happening>, n: nat)
    requires n <= |hs|
  {
    AgreeNow(RunBoth(p, hs[..n]).0, RunBoth(p, hs[..n]).1)
  }

  ghost predicate PartsAt(p: Policy, hs: seq<Happening>, n: nat)
    requires n < |hs|
  {
    Parts(p, RunBoth(p, hs[..n]).0, hs[n])
  }

  /** Over any interleaving of overlapping calls the two agree throughout exactly when no end parts them. */
  lemma {:induction false} AgreeUnderOverlapIff(p: Policy, hs: seq<Happening>)
    requires p.probes <= 1
    ensures (forall n | 0 <= n <= |hs| :: AgreeUpTo(p, hs, n)) <==> (forall n | 0 <= n < |hs| :: !PartsAt(p, hs, n))
  {
    hide Step, DecoratedStep, AgreeNow, Parts;
    if hs == [] {
      FreshAgreeNow();
      assert hs[..0] == [];
    } else {
      var m := |hs| - 1;
      var front := hs[..m];
      AgreeUnderOverlapIff(p, front);
      forall n | 0 <= n <= m ensures AgreeUpTo(p, front, n) == AgreeUpTo(p, hs, n) { assert front[..n] == hs[..n]; }
      forall n | 0 <= n < m ensures PartsAt(p, front, n) == PartsAt(p, hs, n) { assert front[..n] == hs[..n]; }
      if AgreeUpTo(p, hs, m) { LastHappening(p, hs); }
    }
  }

  lemma FreshAgreeNow()
    ensures AgreeNow(Initial, Unused)
  {
  }

  lemma LastHappening(p: Policy, hs: seq<Happening>)
    requires p.probes <= 1 && hs != [] && AgreeUpTo(p, hs, |hs| - 1)
    ensures AgreeUpTo(p, hs, |hs|) <==> !PartsAt(p, hs, |hs| - 1)
  {
    hide Step, DecoratedStep, AgreeNow, Parts;
    var m := |hs| - 1;
    assert hs[..|hs|] == hs;
    OverlapKeepsAgreementIff(p, RunBoth(p, hs[..m]).0, RunBoth(p, hs[..m]).1, hs[m]);
  }

  /** `m` calls that all begin at `t`, of which `n` raise at once. */
  function Opening(m: nat, n: nat, t: real): seq<Happening> { Repeat(Began(t), m) + Repeat(Ended(Raised, t), n) }

  lemma {:induction false} AllBegin(p: Policy, n: nat, t: real)
    ensures RunBoth(p, Repeat(Began(t), n)) == (Initial, Unused)
  {
    if n > 0 {
      AllBegin(p, n - 1, t);
      RepeatNext(Began(t), n - 1);
    }
  }

  lemma {:induction false} ThenFail(p: Policy, m: nat, n: nat, t: real)
    requires n <= Max(1, p.threshold)
    ensures RunBoth(p, Opening(m, n, t)).0
         == if n < Max(1, p.threshold) then Breaker(Closed, n, None, 0) else Breaker(Open, 0, Some(t), 0)
    ensures RunBoth(p, Opening(m, n, t)).1
         == Decorated(if n < Max(1, p.threshold) then Closed else Open, n, if n == 0 then None else Some(t))
  {
    var hs := Opening(m, n, t);
    if n == 0 {
      assert hs == Repeat(Began(t), m);
      AllBegin(p, m, t);
    } else {
      RepeatNext(Ended(Raised, t), n - 1);
      assert hs[..|hs| - 1] == Opening(m, n - 1, t);
      ThenFail(p, m, n - 1, t);
    }
  }

  /** At every threshold, a call that returns after the opening closes the decorator's breaker at once, and leaves
      CircuitBreaker open for its full timeout. */
  lemma LateSuccessPartsThem(p: Policy, t: real, now: real)
    requires now - t < p.recovery
    ensures var n := Max(1, p.threshold);
            var (b, d) := RunBoth(p, Opening(n + 1, n, t) + [Ended(Returned, t)]);
            Rejects(p, b, now) && !Refuses(d, p.recovery, now)
  {
    var n := Max(1, p.threshold);
    var hs := Opening(n + 1, n, t) + [Ended(Returned, t)];
    assert hs[..|hs| - 1] == Opening(n + 1, n, t);
    ThenFail(p, n + 1, n, t);
  }

  /** At every threshold above one, a call that fails after the opening prolongs the decorator's timeout and not that of
      CircuitBreaker, which then admits first. */
  lemma LateFailurePartsThem(p: Policy, t: real, late: real, now: real)
    requires p.threshold > 1 && now - late < p.recovery <= now - t
    ensures var n := Max(1, p.threshold);
            var (b, d) := RunBoth(p, Opening(n + 1, n, t) + [Ended(Raised, late)]);
            !Rejects(p, b, now) && Refuses(d, p.recovery, now)
  {
    var n := Max(1, p.threshold);
    var hs := Opening(n + 1, n, t) + [Ended(Raised, late)];
    assert hs[..|hs| - 1] == Opening(n + 1, n, t);
    ThenFail(p, n + 1, n, t);
  }
}
