/** Whole dependency calls as interleaved steps: a bulkhead slot around a retried, breaker-guarded operation. */
module DependencyCalls {
  import opened Basics
  import opened Wrappers
  import opened Bulkhead
  import R = Resilience

  /** `Ready` is before an attempt (or asleep between two), `Operating` is inside the operation, `Over` is done
      and still holding the slot. */
  datatype Stage = Ready | Operating | Over

  datatype Progress = Progress(attempts: nat, runs: nat, stage: Stage)

  /** `calls` holds the admitted callers. */
  datatype Dependency = Dependency(gate: Gate, calls: map<Caller, Progress>)

  const Unused := Dependency(Idle, map[])

  /** `Try` asks the breaker; `End` is the operation's outcome with the retry budget's answer. */
  datatype Event =
    | AtGate(step: Step)
    | Try(caller: Caller, admitted: bool)
    | End(caller: Caller, outcome: R.Outcome<()>, budget: bool)

  const MAX_ATTEMPTS := 2

  predicate CanHappen(d: Dependency, e: Event) {
    match e
    case AtGate(s) =>
      Enabled(d.gate, s) && (s.Finish? ==> s.caller in d.calls && d.calls[s.caller].stage == Over)
    case Try(c, _) => c in d.calls && d.calls[c].stage == Ready
    case End(c, _, _) => c in d.calls && d.calls[c].stage == Operating
  }

  predicate Retries(p: Progress, outcome: R.Outcome<()>, budget: bool) {
    outcome.Raise? && R.IsTransient(outcome.error) && budget && p.attempts < MAX_ATTEMPTS
  }

  function Happened(l: Limits, d: Dependency, e: Event): Dependency
    requires CanHappen(d, e)
  {
    match e
    case AtGate(s) =>
      var gate := Next(l, d.gate, s);
      if s.Finish? then Dependency(gate, d.calls - {s.caller})
      else if s.caller in gate.running && s.caller !in d.calls then
        Dependency(gate, d.calls[s.caller := Progress(0, 0, Ready)])
      else Dependency(gate, d.calls)
    case Try(c, admitted) =>
      var p := d.calls[c];
      d.(calls := d.calls[c := Progress(p.attempts + 1, if admitted then p.runs + 1 else p.runs,
                                        if admitted then Operating else Over)])
    case End(c, outcome, budget) =>
      var p := d.calls[c];
      d.(calls := d.calls[c := p.(stage := if Retries(p, outcome, budget) then Ready else Over)])
  }

  function Run(l: Limits, es: seq<Event>): Option<Dependency> {
    if es == [] then Some(Unused)
    else
      var d := Run(l, es[..|es| - 1]);
      if d.Some? && CanHappen(d.value, es[|es| - 1]) then Some(Happened(l, d.value, es[|es| - 1])) else None
  }

  ghost predicate Bounded(p: Progress) {
    p.runs <= p.attempts <= MAX_ATTEMPTS && (p.stage == Ready ==> p.attempts < MAX_ATTEMPTS)
  }

  ghost predicate Inv(l: Limits, d: Dependency) {
    Sound(l, d.gate) && d.calls.Keys == d.gate.running && forall c | c in d.calls :: Bounded(d.calls[c])
  }

  lemma HappenedKeepsInv(l: Limits, d: Dependency, e: Event)
    requires Inv(l, d) && CanHappen(d, e)
    ensures Inv(l, Happened(l, d, e))
  {
    hide Sound, Next;
    if e.AtGate? {
      NextKeepsSound(l, d.gate, e.step);
      RunningAfter(l, d.gate, e.step);
    }
  }

  /** A gate step moves at most its own caller in or out of the slots. */
  lemma RunningAfter(l: Limits, g: Gate, s: Step)
    requires Enabled(g, s)
    ensures s.Finish? ==> Next(l, g, s).running == g.running - {s.caller}
    ensures !s.Finish? ==> Next(l, g, s).running == g.running || Next(l, g, s).running == g.running + {s.caller}
  {
  }

  lemma {:induction false} AlwaysInv(l: Limits, es: seq<Event>)
    requires CheckLimits(l).Ok? && Run(l, es).Some?
    ensures Inv(l, Run(l, es).value)
  {
    if es != [] {
      hide Inv, Happened, CanHappen;
      AlwaysInv(l, es[..|es| - 1]);
      HappenedKeepsInv(l, Run(l, es[..|es| - 1]).value, es[|es| - 1]);
    }
  }

  /** The callers inside the operation. */
  function InOperation(d: Dependency): set<Caller> { set c | c in d.calls && d.calls[c].stage == Operating }

  /** In every interleaving exactly the callers in a slot are calling, the operation runs at most max_concurrency
      times at once, and no call has run it more than twice. */
  lemma {:induction false} EachCallHoldsOneSlot(l: Limits, es: seq<Event>)
    requires CheckLimits(l).Ok? && Run(l, es).Some?
    ensures var d := Run(l, es).value;
            && d.calls.Keys == d.gate.running
            && |InOperation(d)| <= |d.gate.running| <= l.maxConcurrency
            && forall c | c in d.calls :: d.calls[c].runs <= d.calls[c].attempts <= 2
  {
    hide Run;
    AlwaysInv(l, es);
    var d := Run(l, es).value;
    assert InOperation(d) <= d.gate.running;
    SubsetIsSmaller(InOperation(d), d.gate.running);
  }
}
