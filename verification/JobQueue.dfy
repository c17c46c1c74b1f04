/** The priority job queue with deadline boosts.

    heapq is specified by contract: keys are pairs with distinct counters, so they are totally ordered and a heap
    can be observed only through its least entry. The heap is kept as its entries in ascending order. */
module JobQueue {
  import opened Wrappers

  type Time = int

  const PRIORITY_CRITICAL: int := 1

  datatype Command = Command(priority: int, deadline: Option<Time>)

  /** One heap entry: the effective priority it was pushed with, its enqueue number, and the command. */
  datatype Entry = Entry(priority: int, counter: nat, command: Command)

  /** `_effective_priority` at one clock reading. */
  function Effective(c: Command, boost: int, now: Time): int {
    if c.deadline.Some? && c.deadline.value - now <= boost then PRIORITY_CRITICAL else c.priority
  }

  /** A command has its own priority until its deadline is within the boost, and the most urgent one from then on. */
  lemma BoostsNeverRevert(c: Command, boost: int, now: Time, later: Time)
    requires now <= later
    ensures Effective(c, boost, later) == Effective(c, boost, now) || Effective(c, boost, later) == PRIORITY_CRITICAL
    ensures c.deadline.Some? && c.deadline.value - now <= boost ==> Effective(c, boost, later) == 1
    ensures c.deadline == None || later < c.deadline.value - boost ==>
              Effective(c, boost, now) == c.priority && Effective(c, boost, later) == c.priority
  {
  }

  /** Time only raises a command's urgency, in every situation, exactly when its own priority is not above critical. */
  lemma UrgencyGrowsIff(priority: int)
    ensures (forall deadline, boost, now, later | now <= later ::
               Effective(Command(priority, deadline), boost, later) <= Effective(Command(priority, deadline), boost, now))
       <==> priority >= PRIORITY_CRITICAL
  {
    if priority < PRIORITY_CRITICAL {
      var c := Command(priority, Some(1));
      assert Effective(c, 0, 1) == PRIORITY_CRITICAL && Effective(c, 0, 0) == priority;
    }
  }

  // ---------- the heap ----------

  predicate Before(a: Entry, b: Entry) {
    a.priority < b.priority || (a.priority == b.priority && a.counter < b.counter)
  }

  ghost predicate Ascending(h: seq<Entry>) { forall i, j | 0 <= i < j < |h| :: Before(h[i], h[j]) }

  /** `heappush` */
  function Push(h: seq<Entry>, e: Entry): (r: seq<Entry>)
    ensures multiset(r) == multiset(h) + multiset{e}
  {
    if h == [] || Before(e, h[0]) then [e] + h
    else
      assert h == [h[0]] + h[1..];
      [h[0]] + Push(h[1..], e)
  }

  lemma {:induction false} PushKeepsAscending(h: seq<Entry>, e: Entry)
    requires Ascending(h) && forall x | x in h :: x.counter != e.counter
    ensures Ascending(Push(h, e))
  {
    var r := Push(h, e);
    if h != [] && !Before(e, h[0]) {
      PushKeepsAscending(h[1..], e);
      var rest := Push(h[1..], e);
      assert h[0] in h;
      forall x | x in rest ensures Before(h[0], x) {
        assert x in multiset(rest);
        if x != e {
          assert x in h[1..];
          var i :| 0 < i < |h| && h[i] == x;
        }
      }
      forall i, j | 0 <= i < j < |r| ensures Before(r[i], r[j]) {
        assert r[j] == rest[j - 1] && rest[j - 1] in rest;
        if i > 0 { assert r[i] == rest[i - 1]; }
      }
    }
  }

  /** `heapify` */
  function Heapified(entries: seq<Entry>): (r: seq<Entry>)
    ensures multiset(r) == multiset(entries)
  {
    if entries == [] then []
    else
      assert entries == entries[..|entries| - 1] + [entries[|entries| - 1]];
      Push(Heapified(entries[..|entries| - 1]), entries[|entries| - 1])
  }

  ghost predicate DistinctCounters(h: seq<Entry>) { forall i, j | 0 <= i < j < |h| :: h[i].counter != h[j].counter }

  lemma {:induction false} HeapifiedAscending(entries: seq<Entry>)
    requires DistinctCounters(entries)
    ensures Ascending(Heapified(entries))
  {
    if entries != [] {
      var front, last := entries[..|entries| - 1], entries[|entries| - 1];
      HeapifiedAscending(front);
      forall x | x in Heapified(front) ensures x.counter != last.counter {
        assert x in multiset(Heapified(front));
        var i :| 0 <= i < |front| && front[i] == x;
        assert entries[i] == x;
      }
      PushKeepsAscending(Heapified(front), last);
    }
  }

  // ---------- the queue ----------

  /** Every entry with its priority recomputed; entry `i` sees the clock reading `readings(i)`. */
  function Refreshed(h: seq<Entry>, boost: int, readings: nat -> Time): seq<Entry> {
    seq(|h|, i requires 0 <= i < |h| => h[i].(priority := Effective(h[i].command, boost, readings(i))))
  }

  function Rebalanced(h: seq<Entry>, boost: int, readings: nat -> Time): seq<Entry> {
    Heapified(Refreshed(h, boost, readings))
  }

  class PriorityJobQueue {
    const boost: int
    var heap: seq<Entry>
    var counter: nat

    /** Entries in heap order under counters already handed out. */
    ghost predicate Valid()
      reads this
    {
      Sound(heap, counter)
    }

    constructor (boost: int)
      ensures this.boost == boost && Valid() && heap == [] && counter == 0
    {
      this.boost, heap, counter := boost, [], 0;
    }

    method Enqueue(c: Command, now: Time)
      requires Valid()
      modifies this
      ensures Valid() && counter == old(counter) + 1
      ensures heap == Push(old(heap), Entry(Effective(c, boost, now), old(counter), c))
    {
      var effective := Effective(c, boost, now);
      EnqueueKeepsSound(heap, counter, c, effective);
      heap := Push(heap, Entry(effective, counter, c));
      counter := counter + 1;
    }

    /** The head of the heap, by the priorities of the last push or rebalance. */
    function Peek(): (r: Option<Command>)
      reads this
      ensures r.None? <==> heap == []
    {
      if heap == [] then None else Some(heap[0].command)
    }

    method Rebalance(readings: nat -> Time)
      requires Valid()
      modifies this`heap
      ensures Valid() && heap == Rebalanced(old(heap), boost, readings)
    {
      hide Sound, Heapified;
      var updated: seq<Entry> := [];
      for i := 0 to |heap|
        invariant heap == old(heap)
        invariant updated == Refreshed(heap, boost, readings)[..i]
      {
        updated := updated + [heap[i].(priority := Effective(heap[i].command, boost, readings(i)))];
      }
      assert updated == Refreshed(heap, boost, readings);
      RebalancedSound(heap, counter, boost, readings);
      heap := Heapified(updated);
    }

    /** The entry that leaves carries the priority it was chosen by. */
    method Dequeue(readings: nat -> Time) returns (r: Option<Entry>)
      requires Valid()
      modifies this`heap
      ensures Valid()
      ensures old(heap) == [] ==> r == None && heap == []
      ensures old(heap) != [] ==>
        r.Some? && Rebalanced(old(heap), boost, readings) == [r.value] + heap
        && LeastTaken(old(heap), r.value, heap, boost, readings)
    {
      hide LeastTaken;
      if heap == [] {
        return None;
      }
      DequeueTakesLeast(heap, counter, boost, readings);
      Rebalance(readings);
      assert heap != [] by {
        assert |multiset(heap)| == |multiset(Refreshed(old(heap), boost, readings))|;
      }
      var e := heap[0];
      PopKeepsSound(heap, counter);
      heap := heap[1..];
      return Some(e);
    }

    /** Run commands until the queue is empty or one raises; `fails` decides which raise. Round `n` rebalances with
        the clock readings `clock(n)`. A command that raised has left the queue. */
    method Drain(fails: Entry -> bool, clock: nat -> nat -> Time) returns (done: seq<Entry>, raised: Option<Entry>)
      requires Valid()
      modifies this`heap
      ensures Valid()
      ensures raised.None? ==> heap == []
      ensures (heap, done + if raised.Some? then [raised.value] else [])
           == Rounds(old(heap), boost, clock, |done| + if raised.Some? then 1 else 0)
      ensures Counters(heap) + Counters(done) + (if raised.Some? then multiset{raised.value.counter} else multiset{})
           == Counters(old(heap))
      ensures (forall e | e in done :: !fails(e)) && (raised.Some? ==> fails(raised.value))
    {
      hide Sound, Rebalanced, LeastTaken, Counters, Rounds;
      done, raised := [], None;
      NoRounds(heap, boost, clock);
      while heap != []
        invariant Valid()
        invariant (heap, done) == Rounds(old(heap), boost, clock, |done|)
        invariant forall e | e in done :: !fails(e)
        decreases |heap|
      {
        ghost var before := heap;
        var next := Dequeue(clock(|done|));
        EmptyRebalance(before, boost, clock(|done|));
        NextRound(old(heap), boost, clock, |done|);
        if fails(next.value) {
          raised := next;
          RoundsKeepCounters(old(heap), boost, clock, |done| + 1);
          CountersSnoc(done, next.value);
          return;
        }
        done := done + [next.value];
      }
      RoundsKeepCounters(old(heap), boost, clock, |done|);
      assert done + [] == done;
    }
  }

  /** The heap and what left it after `n` rounds. */
  ghost function Rounds(h: seq<Entry>, boost: int, clock: nat -> nat -> Time, n: nat): (seq<Entry>, seq<Entry>) {
    if n == 0 then (h, [])
    else
      var (held, out) := Rounds(h, boost, clock, n - 1);
      var r := Rebalanced(held, boost, clock(n - 1));
      if r == [] then (held, out) else (r[1..], out + [r[0]])
  }

  lemma NoRounds(h: seq<Entry>, boost: int, clock: nat -> nat -> Time)
    ensures Rounds(h, boost, clock, 0) == (h, [])
  {
  }

  lemma NextRound(h: seq<Entry>, boost: int, clock: nat -> nat -> Time, n: nat)
    ensures var (held, out) := Rounds(h, boost, clock, n);
            var r := Rebalanced(held, boost, clock(n));
            Rounds(h, boost, clock, n + 1) == if r == [] then (held, out) else (r[1..], out + [r[0]])
  {
  }

  lemma {:induction false} RoundsKeepCounters(h: seq<Entry>, boost: int, clock: nat -> nat -> Time, n: nat)
    ensures Counters(Rounds(h, boost, clock, n).0) + Counters(Rounds(h, boost, clock, n).1) == Counters(h)
  {
    hide Rebalanced, Counters;
    NoCounters();
    if n > 0 {
      RoundsKeepCounters(h, boost, clock, n - 1);
      var (held, out) := Rounds(h, boost, clock, n - 1);
      var r := Rebalanced(held, boost, clock(n - 1));
      RebalancedKeepsCounters(held, boost, clock(n - 1));
      if r != [] {
        assert r == [r[0]] + r[1..];
        CountersCons(r[0], r[1..]);
        CountersSnoc(out, r[0]);
      }
    }
  }

  lemma NoCounters()
    ensures Counters([]) == multiset{}
  {
  }

  ghost predicate Sound(h: seq<Entry>, counter: nat) {
    Ascending(h) && DistinctCounters(h) && forall e | e in h :: e.counter < counter
  }

  lemma EnqueueKeepsSound(h: seq<Entry>, counter: nat, c: Command, effective: int)
    requires Sound(h, counter)
    ensures Sound(Push(h, Entry(effective, counter, c)), counter + 1)
  {
    var e := Entry(effective, counter, c);
    var r := Push(h, e);
    PushKeepsAscending(h, e);
    forall x | x in r ensures x.counter < counter + 1 && (x != e ==> x in h) {
      assert x in multiset(r);
    }
    AscendingDistinct(r, h, e);
  }

  lemma AscendingDistinct(r: seq<Entry>, h: seq<Entry>, e: Entry)
    requires Ascending(r) && multiset(r) == multiset(h) + multiset{e} && DistinctCounters(h)
    requires forall x | x in h :: x.counter != e.counter
    ensures DistinctCounters(r)
  {
    forall i, j | 0 <= i < j < |r| ensures r[i].counter != r[j].counter {
      assert Before(r[i], r[j]) && r[i] != r[j];
      assert r[i] in multiset(r) && r[j] in multiset(r);
      assert r[i] == e || r[i] in h;
      assert r[j] == e || r[j] in h;
    }
  }

  lemma HeapifiedSound(u: seq<Entry>, counter: nat)
    requires DistinctCounters(u) && forall e | e in u :: e.counter < counter
    ensures Sound(Heapified(u), counter)
  {
    hide Heapified, Before;
    HeapifiedAscending(u);
    var r := Heapified(u);
    forall x | x in r ensures x in u {
      assert x in multiset(r);
    }
    AscendingCounters(u, r);
  }

  lemma AscendingCounters(u: seq<Entry>, r: seq<Entry>)
    requires DistinctCounters(u) && Ascending(r) && forall x | x in r :: x in u
    ensures DistinctCounters(r)
  {
    forall i, j | 0 <= i < j < |r| ensures r[i].counter != r[j].counter {
      assert Before(r[i], r[j]) && r[i] in u && r[j] in u;
    }
  }

  lemma RebalancedSound(h: seq<Entry>, counter: nat, boost: int, readings: nat -> Time)
    requires Sound(h, counter)
    ensures Sound(Rebalanced(h, boost, readings), counter)
  {
    hide Heapified, Sound, Ascending;
    RefreshedCounters(h, counter, boost, readings);
    HeapifiedSound(Refreshed(h, boost, readings), counter);
  }

  lemma RefreshedCounters(h: seq<Entry>, counter: nat, boost: int, readings: nat -> Time)
    requires Sound(h, counter)
    ensures var u := Refreshed(h, boost, readings);
            DistinctCounters(u) && forall e | e in u :: e.counter < counter
  {
    var u := Refreshed(h, boost, readings);
    forall e | e in u ensures e.counter < counter {
      var i :| 0 <= i < |u| && u[i] == e;
      assert h[i] in h;
    }
  }

  lemma PopKeepsSound(h: seq<Entry>, counter: nat)
    requires Sound(h, counter) && h != []
    ensures Sound(h[1..], counter)
  {
    assert forall e | e in h[1..] :: e in h;
  }

  // ---------- what a dequeue returns ----------

  /** The commands held, each under its enqueue number. */
  ghost function Counters(h: seq<Entry>): multiset<nat> { multiset(seq(|h|, i requires 0 <= i < |h| => h[i].counter)) }

  lemma CountersSnoc(h: seq<Entry>, e: Entry)
    ensures Counters(h + [e]) == Counters(h) + multiset{e.counter}
  {
    assert seq(|h| + 1, i requires 0 <= i < |h| + 1 => (h + [e])[i].counter)
        == seq(|h|, i requires 0 <= i < |h| => h[i].counter) + [e.counter];
  }

  lemma CountersCons(e: Entry, h: seq<Entry>)
    ensures Counters([e] + h) == multiset{e.counter} + Counters(h)
  {
    assert seq(|h| + 1, i requires 0 <= i < |h| + 1 => ([e] + h)[i].counter)
        == [e.counter] + seq(|h|, i requires 0 <= i < |h| => h[i].counter);
  }

  lemma {:induction false} PushCounters(h: seq<Entry>, e: Entry)
    ensures Counters(Push(h, e)) == Counters(h) + multiset{e.counter}
  {
    if h == [] || Before(e, h[0]) {
      CountersCons(e, h);
    } else {
      assert h == [h[0]] + h[1..];
      CountersCons(h[0], h[1..]);
      CountersCons(h[0], Push(h[1..], e));
      PushCounters(h[1..], e);
    }
  }

  lemma {:induction false} HeapifiedCounters(entries: seq<Entry>)
    ensures Counters(Heapified(entries)) == Counters(entries)
  {
    if entries != [] {
      var front, last := entries[..|entries| - 1], entries[|entries| - 1];
      assert entries == front + [last];
      HeapifiedCounters(front);
      PushCounters(Heapified(front), last);
      CountersSnoc(front, last);
    }
  }

  lemma RebalancedKeepsCounters(h: seq<Entry>, boost: int, readings: nat -> Time)
    ensures Counters(Rebalanced(h, boost, readings)) == Counters(h)
  {
    var u := Refreshed(h, boost, readings);
    HeapifiedCounters(u);
    assert seq(|u|, i requires 0 <= i < |u| => u[i].counter) == seq(|h|, i requires 0 <= i < |h| => h[i].counter);
  }

  /** `e` was held, is gone, and every command left would have lost against it at the readings taken. */
  ghost predicate LeastTaken(before: seq<Entry>, e: Entry, after: seq<Entry>, boost: int, readings: nat -> Time) {
    && e in Refreshed(before, boost, readings)
    && multiset(Refreshed(before, boost, readings)) == multiset(after) + multiset{e}
    && forall x | x in after :: Before(e, x)
  }

  /** A dequeue takes the command least in effective priority now, then in enqueue order, and leaves all others. */
  lemma DequeueTakesLeast(h: seq<Entry>, counter: nat, boost: int, readings: nat -> Time)
    requires Sound(h, counter) && h != []
    ensures var r := Rebalanced(h, boost, readings);
            r != [] && LeastTaken(h, r[0], r[1..], boost, readings)
  {
    var u := Refreshed(h, boost, readings);
    RebalancedSound(h, counter, boost, readings);
    var r := Rebalanced(h, boost, readings);
    assert |multiset(r)| == |multiset(u)|;
    assert r == [r[0]] + r[1..];
    assert r[0] in multiset(r);
    forall x | x in r[1..] ensures Before(r[0], x) {
      var i :| 0 < i < |r| && r[i] == x;
    }
  }

  // ---------- whole histories ----------

  datatype Op = Add(command: Command, now: Time) | Remove(readings: nat -> Time)

  /** The heap, the number of commands enqueued, and the entries dequeued so far. */
  datatype History = History(heap: seq<Entry>, counter: nat, out: seq<Entry>)

  function After(s: History, op: Op, boost: int): History {
    match op
    case Add(c, now) =>
      s.(heap := Push(s.heap, Entry(Effective(c, boost, now), s.counter, c)), counter := s.counter + 1)
    case Remove(readings) =>
      var r := Rebalanced(s.heap, boost, readings);
      if r == [] then s else s.(heap := r[1..], out := s.out + [r[0]])
  }

  function Run(ops: seq<Op>, boost: int): History {
    if |ops| == 0 then History([], 0, []) else After(Run(ops[..|ops| - 1], boost), ops[|ops| - 1], boost)
  }

  function Adds(ops: seq<Op>): seq<Command> {
    if |ops| == 0 then []
    else Adds(ops[..|ops| - 1]) + if ops[|ops| - 1].Add? then [ops[|ops| - 1].command] else []
  }

  /** An entry carries the command that was enqueued under its number. */
  ghost predicate Genuine(e: Entry, added: seq<Command>) {
    e.counter < |added| && e.command == added[e.counter]
  }

  ghost predicate AllGenuine(h: seq<Entry>, added: seq<Command>) { forall e | e in h :: Genuine(e, added) }

  ghost predicate Upto(n: nat, m: multiset<nat>) { forall i: nat :: m[i] == if i < n then 1 else 0 }

  lemma RefreshedGenuine(h: seq<Entry>, boost: int, readings: nat -> Time, added: seq<Command>)
    requires AllGenuine(h, added)
    ensures AllGenuine(Rebalanced(h, boost, readings), added)
  {
    var u := Refreshed(h, boost, readings);
    var r := Rebalanced(h, boost, readings);
    forall e | e in r ensures Genuine(e, added) {
      assert e in multiset(r);
      var i :| 0 <= i < |u| && u[i] == e;
      assert h[i] in h;
    }
  }

  lemma PushGenuine(h: seq<Entry>, e: Entry, added: seq<Command>)
    requires AllGenuine(h, added) && e.counter == |added|
    ensures AllGenuine(Push(h, e), added + [e.command])
  {
    forall x | x in Push(h, e) ensures Genuine(x, added + [e.command]) {
      assert x in multiset(Push(h, e));
      if x != e { assert x in h && Genuine(x, added); }
    }
  }

  /** Every enqueued command is held or was dequeued, exactly once, with the command it was enqueued with. */
  ghost predicate AccountedFor(s: History, added: seq<Command>) {
    && Sound(s.heap, s.counter) && s.counter == |added|
    && AllGenuine(s.heap, added) && AllGenuine(s.out, added)
    && Upto(s.counter, Counters(s.heap) + Counters(s.out))
  }

  lemma {:induction false} EachCommandOnce(ops: seq<Op>, boost: int)
    ensures AccountedFor(Run(ops, boost), Adds(ops))
  {
    if |ops| == 0 {
      assert Counters([]) == multiset{};
    } else {
      hide AccountedFor, After;
      var front, op := ops[..|ops| - 1], ops[|ops| - 1];
      EachCommandOnce(front, boost);
      AfterAccountsFor(Run(front, boost), op, boost, Adds(front));
      assert !op.Add? ==> Adds(ops) == Adds(front);
    }
  }

  lemma AfterAccountsFor(s: History, op: Op, boost: int, added: seq<Command>)
    requires AccountedFor(s, added)
    ensures AccountedFor(After(s, op, boost), if op.Add? then added + [op.command] else added)
  {
    hide Sound, AllGenuine, Rebalanced, Counters, Push, Upto;
    if op.Add? {
      var e := Entry(Effective(op.command, boost, op.now), s.counter, op.command);
      EnqueueKeepsSound(s.heap, s.counter, op.command, e.priority);
      PushGenuine(s.heap, e, added);
      PushCounters(s.heap, e);
      GenuineLonger(s.out, added, op.command);
      UptoNext(s.counter, Counters(s.heap), Counters(s.out), Counters(Push(s.heap, e)));
    } else {
      var r := Rebalanced(s.heap, boost, op.readings);
      RebalancedSound(s.heap, s.counter, boost, op.readings);
      RefreshedGenuine(s.heap, boost, op.readings, added);
      RebalancedKeepsCounters(s.heap, boost, op.readings);
      if r != [] { MoveFirst(r, s.counter, s.out, added); }
    }
  }

  lemma UptoNext(n: nat, held: multiset<nat>, out: multiset<nat>, after: multiset<nat>)
    requires Upto(n, held + out) && after == held + multiset{n}
    ensures Upto(n + 1, after + out)
  {
    forall i: nat ensures (after + out)[i] == if i < n + 1 then 1 else 0 {
      assert (after + out)[i] == (held + out)[i] + if i == n then 1 else 0;
    }
  }

  lemma EmptyRebalance(h: seq<Entry>, boost: int, readings: nat -> Time)
    ensures |Rebalanced(h, boost, readings)| == |h|
  {
    assert |multiset(Rebalanced(h, boost, readings))| == |multiset(Refreshed(h, boost, readings))|;
  }

  lemma GenuineLonger(h: seq<Entry>, added: seq<Command>, c: Command)
    requires AllGenuine(h, added)
    ensures AllGenuine(h, added + [c])
  {
    forall e | e in h ensures Genuine(e, added + [c]) { assert Genuine(e, added); }
  }

  lemma MoveFirst(r: seq<Entry>, counter: nat, out: seq<Entry>, added: seq<Command>)
    requires r != [] && Sound(r, counter) && AllGenuine(r, added) && AllGenuine(out, added)
    ensures Sound(r[1..], counter) && AllGenuine(r[1..], added) && AllGenuine(out + [r[0]], added)
    ensures Counters(r[1..]) + Counters(out + [r[0]]) == Counters(r) + Counters(out)
  {
    hide Counters, Sound;
    PopKeepsSound(r, counter);
    assert r == [r[0]] + r[1..];
    CountersCons(r[0], r[1..]);
    CountersSnoc(out, r[0]);
    assert r[0] in r && forall e | e in r[1..] :: e in r;
  }

  // ---------- first in, first out ----------

  /** Entry `j` was enqueued after a like entry `i`, and its own reading makes it the more urgent one. */
  ghost predicate Overtakes(h: seq<Entry>, boost: int, readings: nat -> Time, i: nat, j: nat) {
    && i < |h| && j < |h| && h[i].command == h[j].command && h[i].counter < h[j].counter
    && Effective(h[j].command, boost, readings(j)) < Effective(h[i].command, boost, readings(i))
  }

  /** Overtaking takes a deadline whose boost begins between the two readings. */
  lemma OvertakesIff(h: seq<Entry>, boost: int, readings: nat -> Time, i: nat, j: nat)
    requires i < |h| && j < |h| && h[i].command == h[j].command && h[i].counter < h[j].counter
    ensures var c := h[i].command;
            Overtakes(h, boost, readings, i, j) <==>
              c.deadline.Some?
              && var start := c.deadline.value - boost;
                 (c.priority > PRIORITY_CRITICAL && readings(i) < start <= readings(j))
                 || (c.priority < PRIORITY_CRITICAL && readings(j) < start <= readings(i))
  {
  }

  /** `x` stands before `y`. */
  ghost predicate Precedes(r: seq<Entry>, x: Entry, y: Entry) {
    exists a, b | 0 <= a < b < |r| :: r[a] == x && r[b] == y
  }

  lemma AscendingOrder(r: seq<Entry>, x: Entry, y: Entry)
    requires Ascending(r) && x in r && y in r && x.counter != y.counter
    ensures Precedes(r, x, y) <==> Before(x, y)
    ensures Precedes(r, y, x) <==> !Before(x, y)
  {
    hide Before;
    var a :| 0 <= a < |r| && r[a] == x;
    var b :| 0 <= b < |r| && r[b] == y;
    BeforeIsStrict(x, y);
    if a < b { assert Precedes(r, x, y); } else { assert Precedes(r, y, x); }
  }

  lemma BeforeIsStrict(x: Entry, y: Entry)
    requires x.counter != y.counter
    ensures Before(x, y) <==> !Before(y, x)
  {
  }

  /** In a rebalanced heap, of any size, a later like entry stands before an earlier one exactly when it overtakes it. */
  lemma RebalanceSwapsIff(h: seq<Entry>, counter: nat, boost: int, readings: nat -> Time, i: nat, j: nat)
    requires Sound(h, counter) && i < |h| && j < |h|
    requires h[i].command == h[j].command && h[i].counter < h[j].counter
    ensures var r, u := Rebalanced(h, boost, readings), Refreshed(h, boost, readings);
            && (Precedes(r, u[j], u[i]) <==> Overtakes(h, boost, readings, i, j))
            && (Precedes(r, u[i], u[j]) <==> !Overtakes(h, boost, readings, i, j))
  {
    hide Precedes, Effective, Ascending, DistinctCounters;
    var r, u := Rebalanced(h, boost, readings), Refreshed(h, boost, readings);
    RebalancedSound(h, counter, boost, readings);
    assert u[i] in multiset(u) && u[j] in multiset(u);
    assert u[i] in multiset(r) && u[j] in multiset(r);
    AscendingOrder(r, u[i], u[j]);
  }

  /** The least entry overtakes some like one. */
  ghost predicate TakesOvertaker(h: seq<Entry>, boost: int, readings: nat -> Time) {
    exists i: nat, j: nat :: Overtakes(h, boost, readings, i, j) && IsLeast(h, boost, readings, j)
  }

  /** At these readings entry `j` goes before all others. */
  ghost predicate IsLeast(h: seq<Entry>, boost: int, readings: nat -> Time, j: nat) {
    var u := Refreshed(h, boost, readings);
    j < |h| && forall k | 0 <= k < |h| && k != j :: Before(u[j], u[k])
  }

  /** The least entry is the one a dequeue takes. */
  lemma LeastIsTaken(h: seq<Entry>, counter: nat, boost: int, readings: nat -> Time, j: nat)
    requires Sound(h, counter) && j < |h|
    ensures var r, u := Rebalanced(h, boost, readings), Refreshed(h, boost, readings);
            r != [] && (IsLeast(h, boost, readings, j) <==> r[0] == u[j])
  {
    hide Before;
    DequeueTakesLeast(h, counter, boost, readings);
    var r, u := Rebalanced(h, boost, readings), Refreshed(h, boost, readings);
    var t :| 0 <= t < |u| && u[t] == r[0];
    if r[0] == u[j] {
      forall k | 0 <= k < |h| && k != j ensures Before(u[j], u[k]) {
        assert h[j].counter != h[k].counter;
        RestHasOthers(r, u, k);
      }
    }
    if IsLeast(h, boost, readings, j) && t != j {
      assert h[j].counter != h[t].counter;
      RestHasOthers(r, u, j);
      BeforeIsStrict(u[j], u[t]);
    }
  }

  /** `first` went before every like command among the others. */
  ghost predicate Leads(first: Entry, others: seq<Entry>) {
    forall x | x in others && x.command == first.command :: first.counter < x.counter
  }

  ghost predicate InOrder(out: seq<Entry>, held: seq<Entry>) {
    forall q | 0 <= q < |out| :: Leads(out[q], out[q + 1..]) && Leads(out[q], held)
  }

  /** The entry taken leads every like one exactly when it overtakes none. */
  lemma LeastLeadsIff(h: seq<Entry>, counter: nat, boost: int, readings: nat -> Time)
    requires Sound(h, counter) && h != []
    ensures var r := Rebalanced(h, boost, readings);
            r != [] && (Leads(r[0], r[1..]) <==> !TakesOvertaker(h, boost, readings))
  {
    DequeueTakesLeast(h, counter, boost, readings);
    var r, u := Rebalanced(h, boost, readings), Refreshed(h, boost, readings);
    assert r[0] in u;
    var j :| 0 <= j < |u| && u[j] == r[0];
    LeastIsTaken(h, counter, boost, readings, j);
    if !Leads(r[0], r[1..]) {
      var x :| x in r[1..] && x.command == r[0].command && x.counter <= r[0].counter;
      OtherEntry(h, counter, boost, readings, x);
      var i :| 0 <= i < |u| && u[i] == x && i != j;
      assert Overtakes(h, boost, readings, i, j) && IsLeast(h, boost, readings, j);
    }
    if i: nat, k: nat :| Overtakes(h, boost, readings, i, k) && IsLeast(h, boost, readings, k) {
      LeastIsTaken(h, counter, boost, readings, k);
      RestHasOthers(r, u, i);
    }
  }

  /** Whatever else is left is another entry, and less urgent. */
  lemma OtherEntry(h: seq<Entry>, counter: nat, boost: int, readings: nat -> Time, x: Entry)
    requires Sound(h, counter) && h != []
    requires var r := Rebalanced(h, boost, readings); r != [] && x in r[1..]
    ensures var r, u := Rebalanced(h, boost, readings), Refreshed(h, boost, readings);
            x.counter != r[0].counter && Before(r[0], x) && x in u
  {
    hide Before;
    DequeueTakesLeast(h, counter, boost, readings);
    RebalancedSound(h, counter, boost, readings);
    var r, u := Rebalanced(h, boost, readings), Refreshed(h, boost, readings);
    var k :| 0 < k < |r| && r[k] == x;
    assert x in multiset(r);
  }

  lemma RestHasOthers(r: seq<Entry>, u: seq<Entry>, i: nat)
    requires r != [] && multiset(r) == multiset(u) && i < |u| && u[i].counter != r[0].counter
    ensures u[i] in r[1..]
  {
    assert u[i] in multiset(u);
    assert u[i] in multiset(r);
    var k :| 0 <= k < |r| && r[k] == u[i];
    assert r[1..][k - 1] == u[i];
  }

  lemma SameLeads(first: Entry, h: seq<Entry>, boost: int, readings: nat -> Time)
    ensures Leads(first, h) <==> Leads(first, Rebalanced(h, boost, readings))
  {
    var r, u := Rebalanced(h, boost, readings), Refreshed(h, boost, readings);
    forall x | x in r ensures exists y | y in h :: y.command == x.command && y.counter == x.counter {
      assert x in multiset(r);
      var i :| 0 <= i < |u| && u[i] == x;
      assert h[i] in h;
    }
    forall y | y in h ensures exists x | x in r :: y.command == x.command && y.counter == x.counter {
      var i :| 0 <= i < |h| && h[i] == y;
      assert u[i] in multiset(u);
      assert u[i] in multiset(r);
    }
  }

  /** No dequeue so far took an entry that overtook a like one. */
  ghost predicate NobodyOvertook(ops: seq<Op>, boost: int) {
    forall k | 0 <= k < |ops| && ops[k].Remove? :: !TakesOvertaker(Run(ops[..k], boost).heap, boost, ops[k].readings)
  }

  /** Like commands leave in the order they were enqueued, across any number of rebalances, exactly when no dequeue took
      one whose deadline boost began between its own reading and that of an earlier one. */
  lemma {:induction false} FirstInFirstOutIff(ops: seq<Op>, boost: int)
    ensures InOrder(Run(ops, boost).out, Run(ops, boost).heap) <==> NobodyOvertook(ops, boost)
  {
    if |ops| > 0 {
      hide Sound, Rebalanced, Leads, TakesOvertaker, Push, InOrder, NobodyOvertook;
      var front, op := ops[..|ops| - 1], ops[|ops| - 1];
      FirstInFirstOutIff(front, boost);
      EachCommandOnce(front, boost);
      LastOvertakes(ops, boost);
      var s := Run(front, boost);
      if op.Add? {
        AddKeepsOrder(s, op.command, Effective(op.command, boost, op.now), Adds(front));
      } else if s.heap == [] {
        EmptyRebalance(s.heap, boost, op.readings);
        NothingTaken(boost, op.readings);
      } else {
        RemoveKeepsOrderIff(s, boost, op.readings);
      }
    }
  }

  lemma LastOvertakes(ops: seq<Op>, boost: int)
    requires |ops| > 0
    ensures var front, op := ops[..|ops| - 1], ops[|ops| - 1];
            NobodyOvertook(ops, boost) <==>
              NobodyOvertook(front, boost) && (op.Remove? ==> !TakesOvertaker(Run(front, boost).heap, boost, op.readings))
  {
    hide TakesOvertaker, Run;
    var front := ops[..|ops| - 1];
    forall k | 0 <= k < |front| ensures front[..k] == ops[..k] && front[k] == ops[k] {}
  }

  lemma NothingTaken(boost: int, readings: nat -> Time)
    ensures !TakesOvertaker([], boost, readings)
  {
  }

  /** When no two like entries of any rebalanced heap straddle the start of their boost, order is kept. */
  lemma {:induction false} FirstInFirstOut(ops: seq<Op>, boost: int)
    requires forall k | 0 <= k < |ops| && ops[k].Remove? :: NoStraddle(Run(ops[..k], boost).heap, boost, ops[k].readings)
    ensures InOrder(Run(ops, boost).out, Run(ops, boost).heap)
  {
    hide Run, InOrder, Overtakes;
    FirstInFirstOutIff(ops, boost);
  }

  ghost predicate NoStraddle(h: seq<Entry>, boost: int, readings: nat -> Time) {
    forall i: nat, j: nat :: !Overtakes(h, boost, readings, i, j)
  }

  lemma AddKeepsOrder(s: History, c: Command, effective: int, added: seq<Command>)
    requires s.counter == |added| && AllGenuine(s.out, added)
    ensures InOrder(s.out, s.heap) <==> InOrder(s.out, Push(s.heap, Entry(effective, s.counter, c)))
  {
    var e := Entry(effective, s.counter, c);
    forall q | 0 <= q < |s.out| ensures Leads(s.out[q], s.heap) <==> Leads(s.out[q], Push(s.heap, e)) {
      assert s.out[q] in s.out && Genuine(s.out[q], added);
      forall x ensures x in Push(s.heap, e) <==> x in s.heap || x == e {
        assert x in Push(s.heap, e) <==> x in multiset(Push(s.heap, e));
      }
    }
  }

  lemma RemoveKeepsOrderIff(s: History, boost: int, readings: nat -> Time)
    requires Sound(s.heap, s.counter) && s.heap != []
    ensures var r := Rebalanced(s.heap, boost, readings);
            r != [] && (InOrder(s.out + [r[0]], r[1..]) <==> InOrder(s.out, s.heap) && !TakesOvertaker(s.heap, boost, readings))
  {
    hide Sound, Rebalanced, TakesOvertaker, Leads;
    LeastLeadsIff(s.heap, s.counter, boost, readings);
    var r := Rebalanced(s.heap, boost, readings);
    var out, n := s.out + [r[0]], |s.out|;
    forall q | 0 <= q < n
      ensures Leads(s.out[q], s.out[q + 1..]) && Leads(s.out[q], s.heap) <==> Leads(out[q], out[q + 1..]) && Leads(out[q], r[1..])
    {
      assert out[q + 1..] == s.out[q + 1..] + [r[0]] && r == [r[0]] + r[1..];
      SameLeads(s.out[q], s.heap, boost, readings);
      LeadsParts(s.out[q], s.out[q + 1..], [r[0]]);
      LeadsParts(s.out[q], [r[0]], r[1..]);
    }
    assert out[n] == r[0] && out[n + 1..] == [];
    LeadsNothing(r[0]);
  }

  lemma LeadsParts(first: Entry, a: seq<Entry>, b: seq<Entry>)
    ensures Leads(first, a + b) <==> Leads(first, a) && Leads(first, b)
  {
  }

  lemma LeadsNothing(first: Entry)
    ensures Leads(first, [])
  {
  }

  /** Order does fail: two like commands are enqueued, and the boost begins between their readings of one rebalance. */
  lemma {:induction false} StraddledDeadlineOvertakes(c: Command, boost: int, early: Time, readings: nat -> Time)
    requires c.deadline.Some? && c.priority > PRIORITY_CRITICAL
    requires readings(0) < c.deadline.value - boost <= readings(1)
    ensures var s := Run([Add(c, early), Add(c, early), Remove(readings)], boost);
            !InOrder(s.out, s.heap) && |s.out| == 1 && s.out[0].counter == 1
  {
    hide Run, Rebalanced, InOrder, Push, Effective;
    var p := Effective(c, boost, early);
    RunOfThree(Add(c, early), Add(c, early), Remove(readings), boost);
    PushTwo(p, c);
    StraddledPair(c, boost, p, readings);
    var a, b := Entry(c.priority, 0, c), Entry(PRIORITY_CRITICAL, 1, c);
    assert [b, a][1..] == [a] && [] + [b] == [b];
    LaterFirst(a, b);
  }

  lemma PushTwo(p: int, c: Command)
    ensures Push([], Entry(p, 0, c)) == [Entry(p, 0, c)]
    ensures Push([Entry(p, 0, c)], Entry(p, 1, c)) == [Entry(p, 0, c), Entry(p, 1, c)]
  {
    assert Push([], Entry(p, 1, c)) == [Entry(p, 1, c)];
  }

  lemma StraddledPair(c: Command, boost: int, p: int, readings: nat -> Time)
    requires c.deadline.Some? && c.priority > PRIORITY_CRITICAL
    requires readings(0) < c.deadline.value - boost <= readings(1)
    ensures Rebalanced([Entry(p, 0, c), Entry(p, 1, c)], boost, readings)
         == [Entry(PRIORITY_CRITICAL, 1, c), Entry(c.priority, 0, c)]
  {
    hide Heapified;
    var a, b := Entry(c.priority, 0, c), Entry(PRIORITY_CRITICAL, 1, c);
    assert Refreshed([Entry(p, 0, c), Entry(p, 1, c)], boost, readings) == [a, b];
    HeapOfTwo(a, b);
  }

  lemma LaterFirst(a: Entry, b: Entry)
    requires a.command == b.command && a.counter < b.counter
    ensures !InOrder([b], [a])
  {
    assert a in [a];
    assert !Leads([b][0], [a]);
  }

  lemma RunOfThree(a: Op, b: Op, c: Op, boost: int)
    ensures Run([a, b, c], boost) == After(After(After(History([], 0, []), a, boost), b, boost), c, boost)
  {
    hide After;
    assert [a, b, c][..2] == [a, b] && [a, b][..1] == [a] && [a][..0] == [];
    assert Run([a, b], boost) == After(Run([a], boost), b, boost);
  }

  lemma HeapOfTwo(a: Entry, b: Entry)
    requires Before(b, a)
    ensures Heapified([a, b]) == [b, a]
  {
    HeapOfOne(a);
    assert [a, b][..1] == [a];
  }

  lemma HeapOfOne(a: Entry)
    ensures Heapified([a]) == [a]
  {
    assert [a][..0] == [];
  }
}
