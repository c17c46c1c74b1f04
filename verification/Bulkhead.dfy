/** The async bulkhead as interleaved steps: each is one region between two awaits.

    The condition variable is specified by contract: notify wakes the longest parked waiter, which runs
    some time later, re-checks the guard, and parks again behind the others if it lost the slot. */
module Bulkhead {
  import opened Basics
  import opened Wrappers

  type Caller = nat

  datatype Limits = Limits(maxConcurrency: int, maxQueue: int)

  /** `parked` waits on the condition, longest first; `notified` was woken and has not run yet. */
  datatype Gate = Gate(running: set<Caller>, parked: seq<Caller>, notified: set<Caller>)

  const Idle := Gate({}, [], {})

  datatype Step = Arrive(caller: Caller) | Finish(caller: Caller) | Resume(caller: Caller)

  function Waiting(g: Gate): nat { |g.parked| + |g.notified| }

  predicate Full(l: Limits, g: Gate) { |g.running| >= l.maxConcurrency }

  /** The call raises BulkheadRejectedError. */
  predicate Rejects(l: Limits, g: Gate) { Full(l, g) && Waiting(g) >= l.maxQueue }

  predicate Inside(g: Gate, c: Caller) { c in g.running || c in g.parked || c in g.notified }

  predicate Enabled(g: Gate, s: Step) {
    match s
    case Arrive(c) => !Inside(g, c)
    case Finish(c) => c in g.running
    case Resume(c) => c in g.notified
  }

  function Next(l: Limits, g: Gate, s: Step): Gate
    requires Enabled(g, s)
  {
    match s
    case Arrive(c) =>
      if !Full(l, g) then g.(running := g.running + {c})
      else if Rejects(l, g) then g
      else g.(parked := g.parked + [c])
    case Finish(c) =>
      var left := g.(running := g.running - {c});
      if g.parked == [] then left
      else left.(parked := g.parked[1..], notified := g.notified + {g.parked[0]})
    case Resume(c) =>
      var woken := g.(notified := g.notified - {c});
      if Full(l, g) then woken.(parked := g.parked + [c])
      else woken.(running := g.running + {c})
  }

  // ---------- the object ----------

  class AsyncBulkhead {
    const limits: Limits
    var inflight: int
    var waiting: int
    /** The condition's waiters, and the callers it has woken. */
    var parked: seq<Caller>
    var notified: set<Caller>
    ghost var running: set<Caller>

    ghost function Value(): Gate
      reads this
    {
      Gate(running, parked, notified)
    }

    /** The two counters count what they claim to. */
    ghost predicate Valid()
      reads this
    {
      inflight == |running| && waiting == Waiting(Value()) && Sound(limits, Value())
    }

    constructor (limits: Limits)
      requires CheckLimits(limits).Ok?
      ensures this.limits == limits && Valid() && Value() == Idle
    {
      this.limits := limits;
      inflight, waiting, parked, notified, running := 0, 0, [], {}, {};
    }

    /** The region up to the first await; a caller that may start runs at once. */
    method Enter(c: Caller) returns (r: Result<(), string>)
      requires Valid() && Enabled(Value(), Arrive(c))
      modifies this
      ensures Valid() && Value() == Next(limits, old(Value()), Arrive(c))
      ensures r.Err? <==> Rejects(limits, old(Value()))
      ensures r.Err? <==> old(inflight) >= limits.maxConcurrency && old(waiting) >= limits.maxQueue
      ensures c in running <==> old(inflight) < limits.maxConcurrency
      ensures forall x | x != c :: x in running <==> x in old(running)
      ensures parked == old(parked) + (if r.Ok? && old(inflight) >= limits.maxConcurrency then [c] else [])
      ensures notified == old(notified)
    {
      NextKeepsSound(limits, Value(), Arrive(c));
      if inflight >= limits.maxConcurrency {
        if waiting >= limits.maxQueue {
          return Err("Bulkhead queue is full");
        }
        waiting := waiting + 1;
        parked := parked + [c];
        return Ok(());
      }
      inflight := inflight + 1;
      running := running + {c};
      return Ok(());
    }

    /** The final region of a running call: free the slot and notify one waiter. */
    method Leave(c: Caller)
      requires Valid() && Enabled(Value(), Finish(c))
      modifies this
      ensures Valid() && Value() == Next(limits, old(Value()), Finish(c))
      ensures forall x :: x in running <==> x in old(running) && x != c
      ensures old(parked) == [] ==> parked == [] && notified == old(notified)
      ensures old(parked) != [] ==> parked == old(parked)[1..]
      ensures old(parked) != [] ==> forall x :: x in notified <==> x in old(notified) || x == old(parked)[0]
    {
      NextKeepsSound(limits, Value(), Finish(c));
      inflight := inflight - 1;
      running := running - {c};
      if parked != [] {
        notified := notified + {parked[0]};
        parked := parked[1..];
      }
    }

    /** One turn of the wait loop of a woken caller; `admitted` says whether it left the loop. */
    method Recheck(c: Caller) returns (admitted: bool)
      requires Valid() && Enabled(Value(), Resume(c))
      modifies this
      ensures Valid() && Value() == Next(limits, old(Value()), Resume(c))
      ensures admitted <==> c in Value().running
      ensures admitted <==> old(inflight) < limits.maxConcurrency
      ensures forall x :: x in notified <==> x in old(notified) && x != c
      ensures forall x | x != c :: x in running <==> x in old(running)
      ensures parked == old(parked) + (if admitted then [] else [c])
    {
      NextKeepsSound(limits, Value(), Resume(c));
      notified := notified - {c};
      if inflight >= limits.maxConcurrency {
        parked := parked + [c];
        return false;
      }
      waiting := waiting - 1;
      inflight := inflight + 1;
      running := running + {c};
      return true;
    }
  }

  /** What the constructor refuses. */
  function CheckLimits(l: Limits): Result<(), string> {
    if l.maxConcurrency <= 0 then Err("max_concurrency must be > 0")
    else if l.maxQueue < 0 then Err("max_queue must be >= 0")
    else Ok(())
  }

  /** `AsyncBulkhead(...)`: ValueError for limits it refuses. */
  method NewBulkhead(limits: Limits) returns (r: Result<AsyncBulkhead, string>)
    ensures r.Ok? <==> limits.maxConcurrency > 0 && limits.maxQueue >= 0
    ensures r.Ok? ==> fresh(r.value) && r.value.limits == limits && r.value.Valid() && r.value.Value() == Idle
  {
    var checked := CheckLimits(limits);
    if checked.Err? {
      return Err(checked.error);
    }
    var gate := new AsyncBulkhead(limits);
    return Ok(gate);
  }

  // ---------- what every interleaving keeps ----------

  /** A caller is in one place, and the places are within their limits. */
  ghost predicate Placed(l: Limits, g: Gate) {
    && |g.running| <= l.maxConcurrency && Waiting(g) <= l.maxQueue
    && g.running !! g.notified && Distinct(g.parked)
    && forall c | c in g.parked :: c !in g.running && c !in g.notified
  }

  /** While anybody is parked, at least as many woken callers are on their way as slots are free. */
  ghost predicate NoLostWakeup(l: Limits, g: Gate) {
    g.parked != [] ==> |g.notified| >= l.maxConcurrency - |g.running|
  }

  ghost predicate Sound(l: Limits, g: Gate) { Placed(l, g) && NoLostWakeup(l, g) }

  lemma FinishKeepsPlaced(l: Limits, g: Gate, c: Caller)
    requires Placed(l, g) && c in g.running
    ensures Placed(l, Next(l, g, Finish(c)))
  {
    var after := Next(l, g, Finish(c));
    if g.parked != [] {
      var first := g.parked[0];
      assert first in g.parked;
      forall x | x in after.parked ensures x in g.parked && x != first {
        var i :| 0 < i < |g.parked| && g.parked[i] == x;
      }
      assert |after.notified| == |g.notified| + 1;
    }
  }

  lemma ResumeKeepsPlaced(l: Limits, g: Gate, c: Caller)
    requires Placed(l, g) && c in g.notified
    ensures Placed(l, Next(l, g, Resume(c)))
  {
    var woken := g.(notified := g.notified - {c});
    assert |woken.notified| == |g.notified| - 1;
    if Full(l, g) { AppendKeepsPlaced(l, woken, c); }
  }

  lemma AppendKeepsPlaced(l: Limits, g: Gate, c: Caller)
    requires Placed(l, g) && !Inside(g, c) && Waiting(g) < l.maxQueue
    ensures Placed(l, g.(parked := g.parked + [c]))
  {
    var after := g.parked + [c];
    forall i, j | 0 <= i < j < |after| ensures after[i] != after[j] {
      assert after[i] == g.parked[i] && g.parked[i] in g.parked;
    }
  }

  lemma NextKeepsPlaced(l: Limits, g: Gate, s: Step)
    requires Placed(l, g) && Enabled(g, s)
    ensures Placed(l, Next(l, g, s))
  {
    match s
    case Arrive(c) =>
      if Full(l, g) && !Rejects(l, g) { AppendKeepsPlaced(l, g, c); }
    case Resume(c) => ResumeKeepsPlaced(l, g, c);
    case Finish(c) => FinishKeepsPlaced(l, g, c);
  }

  lemma NextKeepsSound(l: Limits, g: Gate, s: Step)
    requires Sound(l, g) && Enabled(g, s)
    ensures Sound(l, Next(l, g, s))
  {
    hide Distinct;
    NextKeepsPlaced(l, g, s);
    if s.Finish? && g.parked != [] { assert g.parked[0] in g.parked; }
  }

  // ---------- whole runs ----------

  /** The gate after a run, as long as every step was possible. */
  function Run(l: Limits, steps: seq<Step>): Option<Gate> {
    if steps == [] then Some(Idle)
    else
      var g := Run(l, steps[..|steps| - 1]);
      if g.Some? && Enabled(g.value, steps[|steps| - 1]) then Some(Next(l, g.value, steps[|steps| - 1])) else None
  }

  /** Under any interleaving with barging arrivals: both limits hold and no wakeup is lost. */
  lemma {:induction false} AlwaysSound(l: Limits, steps: seq<Step>)
    requires CheckLimits(l).Ok?
    ensures Run(l, steps).Some? ==> Sound(l, Run(l, steps).value)
  {
    if steps != [] && Run(l, steps).Some? {
      AlwaysSound(l, steps[..|steps| - 1]);
      NextKeepsSound(l, Run(l, steps[..|steps| - 1]).value, steps[|steps| - 1]);
    }
  }

  /** A call is rejected only when every slot is taken and the queue holds exactly its limit. */
  lemma RejectsOnlyWhenBothFull(l: Limits, steps: seq<Step>)
    requires CheckLimits(l).Ok? && Run(l, steps).Some?
    ensures var g := Run(l, steps).value;
            Rejects(l, g) <==> |g.running| == l.maxConcurrency && Waiting(g) == l.maxQueue
  {
    hide Run;
    AlwaysSound(l, steps);
  }

  /** Every arrival is accounted for: rejected, waiting, running or finished. */
  function Count(l: Limits, steps: seq<Step>): (r: (nat, nat, nat))
    requires Run(l, steps).Some?
  {
    if steps == [] then (0, 0, 0)
    else
      var front, s := steps[..|steps| - 1], steps[|steps| - 1];
      var (arrived, rejected, finished) := Count(l, front);
      if s.Arrive? then (arrived + 1, rejected + (if Rejects(l, Run(l, front).value) then 1 else 0), finished)
      else if s.Finish? then (arrived, rejected, finished + 1)
      else (arrived, rejected, finished)
  }

  lemma {:induction false} NobodyIsLost(l: Limits, steps: seq<Step>)
    requires CheckLimits(l).Ok? && Run(l, steps).Some?
    ensures var (arrived, rejected, finished) := Count(l, steps);
            arrived == rejected + finished + |Run(l, steps).value.running| + Waiting(Run(l, steps).value)
  {
    hide Sound, Next, Enabled;
    if steps != [] {
      var front := steps[..|steps| - 1];
      NobodyIsLost(l, front);
      AlwaysSound(l, front);
      StepMoves(l, Run(l, front).value, steps[|steps| - 1]);
    }
  }

  /** How a step changes the number of callers inside. */
  lemma StepMoves(l: Limits, g: Gate, s: Step)
    requires Sound(l, g) && Enabled(g, s)
    ensures var after := Next(l, g, s);
            |after.running| + Waiting(after) == |g.running| + Waiting(g)
              + (if s.Arrive? && !Rejects(l, g) then 1 else if s.Finish? then -1 else 0)
  {
    hide Distinct, NoLostWakeup;
  }

  // ---------- draining ----------

  /** Falls with every step but an arrival. */
  function Work(g: Gate): nat { 2 * Waiting(g) + |g.running| }

  lemma WorkFalls(l: Limits, g: Gate, s: Step)
    requires Sound(l, g) && Enabled(g, s) && !s.Arrive?
    ensures Work(Next(l, g, s)) < Work(g)
         || (Work(Next(l, g, s)) == Work(g) && |Next(l, g, s).notified| < |g.notified|)
  {
  }

  /** If no departure or wakeup is possible, nobody is left. */
  lemma StuckMeansIdle(l: Limits, g: Gate)
    requires CheckLimits(l).Ok? && Sound(l, g)
    requires forall c :: !Enabled(g, Finish(c)) && !Enabled(g, Resume(c))
    ensures g == Idle
  {
    assert g.running == {} by { assert forall c :: Enabled(g, Finish(c)) <==> c in g.running; }
    assert g.notified == {} by { assert forall c :: Enabled(g, Resume(c)) <==> c in g.notified; }
    assert |g.notified| == 0;
  }

  /** A bound on the steps left once arrivals stop. */
  function Effort(l: Limits, g: Gate): int { Work(g) * (l.maxQueue + 1) + |g.notified| }

  lemma SoundBounds(l: Limits, g: Gate)
    requires Sound(l, g)
    ensures |g.notified| <= l.maxQueue && Effort(l, g) >= 0
  {
    hide Distinct;
  }

  lemma {:induction false} EffortFalls(l: Limits, g: Gate, s: Step)
    requires Sound(l, g) && Enabled(g, s) && !s.Arrive?
    ensures Effort(l, Next(l, g, s)) < Effort(l, g)
  {
    hide Sound, Next, Work;
    NextKeepsSound(l, g, s);
    WorkFalls(l, g, s);
    SoundBounds(l, Next(l, g, s));
    if Work(Next(l, g, s)) < Work(g) { Scale(Work(Next(l, g, s)), Work(g) - 1, l.maxQueue + 1); }
  }

  lemma Scale(a: int, b: int, k: int)
    requires a <= b && k >= 0
    ensures a * k <= b * k && (b + 1) * k == b * k + k
  {
  }

  function RunFrom(l: Limits, g: Gate, steps: seq<Step>): Option<Gate>
    decreases |steps|
  {
    if steps == [] then Some(g)
    else if Enabled(g, steps[0]) then RunFrom(l, Next(l, g, steps[0]), steps[1..])
    else None
  }

  /** Once arrivals stop, every way of continuing is finite, and when it can go no further everybody was served:
      no waiter is ever stranded. */
  lemma {:induction false} EverybodyIsServed(l: Limits, g: Gate, steps: seq<Step>)
    requires CheckLimits(l).Ok? && Sound(l, g)
    requires RunFrom(l, g, steps).Some? && forall s | s in steps :: !s.Arrive?
    ensures |steps| <= Effort(l, g)
    ensures var last := RunFrom(l, g, steps).value;
            (forall c :: !Enabled(last, Finish(c)) && !Enabled(last, Resume(c))) ==> last == Idle
    decreases |steps|
  {
    hide Sound, Next, Effort, Enabled;
    SoundBounds(l, g);
    if steps == [] {
      if forall c :: !Enabled(g, Finish(c)) && !Enabled(g, Resume(c)) { StuckMeansIdle(l, g); }
    } else {
      NextKeepsSound(l, g, steps[0]);
      EffortFalls(l, g, steps[0]);
      EverybodyIsServed(l, Next(l, g, steps[0]), steps[1..]);
    }
  }
}
