/** The in-process worker pool: a bounded queue, a trimmed status history, and workers that take from the queue.

    A task id is a number no earlier task had. `states` is the table of status objects: a worker keeps hold of the
    object it found, so its later changes reach the object even after the history dropped it. */
module WorkerPool {
  import opened Basics
  import opened Wrappers

  datatype Config = Config(workerCount: nat, queueSize: int, maxTracked: int)

  datatype TaskState = Queued | Running | Succeeded | Failed | Cancelled

  predicate Terminal(s: TaskState) { s == Succeeded || s == Failed || s == Cancelled }

  /** `order` and `tracked` are the history; `busy` says what each worker is processing; `idle` workers wait. */
  datatype Pool = Pool(
    running: bool, next: nat, queue: seq<nat>, order: seq<nat>, tracked: set<nat>,
    states: map<nat, TaskState>, busy: map<nat, nat>, idle: set<nat>)

  const Created := Pool(false, 0, [], [], {}, map[], map[], {})

  datatype Step =
    | Start | Stop | Submit
    | Take(worker: nat)
    | Conclude(worker: nat, succeeded: bool)

  /** asyncio.Queue: a size of zero or less is no bound. */
  predicate QueueFull(c: Config, queue: seq<nat>) { c.queueSize > 0 && |queue| >= c.queueSize }

  function Trimmed(order: seq<nat>, max: int): seq<nat> {
    if |order| > max then (if max < 0 then [] else order[|order| - max..]) else order
  }

  function Firsts(order: seq<nat>, k: nat): set<nat>
    requires k <= |order|
  {
    set i | 0 <= i < k :: order[i]
  }

  function Dropped(order: seq<nat>, max: int): set<nat> { Firsts(order, |order| - |Trimmed(order, max)|) }

  /** A negative history limit empties the history and raises before anything is queued. */
  function Submitted(c: Config, p: Pool): (r: (Pool, Result<nat, string>)) {
    if !p.running then (p, Err("Background worker pool is not running"))
    else if QueueFull(c, p.queue) then (p, Err("Background queue is full"))
    else
      var id := p.next;
      var order := p.order + [id];
      var trimmed := p.(order := Trimmed(order, c.maxTracked),
                        tracked := p.tracked + {id} - Dropped(order, c.maxTracked));
      if c.maxTracked < 0 then (trimmed, Err("pop from an empty deque"))
      else (trimmed.(next := id + 1, states := p.states[id := Queued], queue := p.queue + [id]), Ok(id))
  }

  /** The task at the head of the queue has no status any more: the worker raises KeyError and dies. */
  predicate TakesTrimmed(p: Pool, s: Step) {
    s.Take? && s.worker in p.idle && p.queue != [] && p.queue[0] !in p.tracked
  }

  function Taken(p: Pool, worker: nat): Pool
    requires worker in p.idle && p.queue != []
  {
    var id := p.queue[0];
    var took := p.(queue := p.queue[1..], idle := p.idle - {worker});
    if id !in p.tracked then took else took.(states := p.states[id := Running], busy := p.busy[worker := id])
  }

  function Concluded(p: Pool, worker: nat, succeeded: bool): Pool
    requires worker in p.busy
  {
    p.(states := p.states[p.busy[worker] := if succeeded then Succeeded else Failed],
       busy := p.busy - {worker}, idle := p.idle + {worker})
  }

  /** Cancel every worker; the queue keeps what nobody took. */
  function Stopped(p: Pool): Pool {
    if !p.running then p
    else
      p.(running := false, busy := map[], idle := {},
         states := map i | i in p.states :: if i in p.busy.Values then Cancelled else p.states[i])
  }

  function Started(c: Config, p: Pool): Pool {
    if p.running then p else p.(running := true, idle := Below(c.workerCount), busy := map[])
  }

  predicate Enabled(p: Pool, s: Step) {
    match s
    case Take(w) => w in p.idle && p.queue != []
    case Conclude(w, _) => w in p.busy
    case _ => true
  }

  function Next(c: Config, p: Pool, s: Step): Pool
    requires Enabled(p, s)
  {
    match s
    case Start => Started(c, p)
    case Stop => Stopped(p)
    case Submit => Submitted(c, p).0
    case Take(w) => Taken(p, w)
    case Conclude(w, succeeded) => Concluded(p, w, succeeded)
  }

  // ---------- the pool, in place ----------

  class BackgroundWorkerPool {
    const config: Config
    var running: bool
    var next: nat
    var queue: seq<nat>
    var order: seq<nat>
    var tracked: set<nat>
    var states: map<nat, TaskState>
    var busy: map<nat, nat>
    var idle: set<nat>

    function Value(): Pool
      reads this
    {
      Pool(running, next, queue, order, tracked, states, busy, idle)
    }

    constructor (config: Config)
      ensures this.config == config && Value() == Created
    {
      this.config := config;
      running, next, queue, order, tracked, states, busy, idle := false, 0, [], [], {}, map[], map[], {};
    }

    method StartWorkers()
      modifies this
      ensures Value() == Started(config, old(Value()))
      ensures running
      ensures if old(running) then idle == old(idle) && busy == old(busy)
              else forall w: nat :: (w in idle <==> w < config.workerCount) && w !in busy
      ensures queue == old(queue) && order == old(order) && tracked == old(tracked) && states == old(states) && next == old(next)
    {
      if running {
        return;
      }
      running := true;
      busy := map[];
      idle := Below(config.workerCount);
    }

    method StopWorkers()
      modifies this
      ensures Value() == Stopped(old(Value()))
      ensures !running && states.Keys == old(states).Keys
      ensures old(running) ==> |idle| == |busy| == 0
      ensures forall id | id in states ::
        states[id] == if old(running) && exists w | w in old(busy) :: old(busy)[w] == id then Cancelled else old(states)[id]
      ensures queue == old(queue) && order == old(order) && tracked == old(tracked) && next == old(next)
    {
      if !running {
        return;
      }
      running := false;
      states := map i | i in states :: if i in busy.Values then Cancelled else states[i];
      busy, idle := map[], {};
    }

    /** `_trim_status_history`; Err is the IndexError of popping an empty deque. */
    method TrimStatusHistory() returns (r: Result<(), string>)
      modifies this`order, this`tracked
      ensures order == Trimmed(old(order), config.maxTracked)
      ensures tracked == old(tracked) - Dropped(old(order), config.maxTracked)
      ensures r.Err? <==> config.maxTracked < 0
    {
      ghost var was, k := order, 0;
      while |order| > config.maxTracked
        invariant 0 <= k <= |was| && order == was[k..]
        invariant tracked == old(tracked) - Firsts(was, k)
        invariant k > 0 && config.maxTracked >= 0 ==> |order| >= config.maxTracked
        decreases |order|
      {
        if order == [] {
          return Err("pop from an empty deque");
        }
        var oldest := order[0];
        order := order[1..];
        tracked := tracked - {oldest};
        k := k + 1;
        assert Firsts(was, k) == Firsts(was, k - 1) + {oldest};
      }
      return Ok(());
    }

    method SubmitBatchIngest() returns (r: Result<nat, string>)
      modifies this
      ensures (Value(), r) == Submitted(config, old(Value()))
      ensures r.Ok? <==> old(running) && (config.queueSize <= 0 || |old(queue)| < config.queueSize) && config.maxTracked >= 0
      ensures r.Ok? ==> r.value == old(next) && queue == old(queue) + [r.value] && states == old(states)[r.value := Queued]
      ensures r.Err? ==> queue == old(queue) && states == old(states)
      ensures running == old(running) && busy == old(busy) && idle == old(idle)
    {
      if !running {
        return Err("Background worker pool is not running");
      }
      if QueueFull(config, queue) {
        return Err("Background queue is full");
      }
      var id := next;
      tracked := tracked + {id};
      order := order + [id];
      var trimmed := TrimStatusHistory();
      if trimmed.Err? {
        return Err("pop from an empty deque");
      }
      next := id + 1;
      states := states[id := Queued];
      queue := queue + [id];
      return Ok(id);
    }

    /** The head of one worker's loop; Err is the KeyError that kills it. */
    method TakeTask(worker: nat) returns (r: Result<nat, string>)
      requires worker in idle && queue != []
      modifies this
      ensures Value() == Taken(old(Value()), worker)
      ensures r.Err? <==> TakesTrimmed(old(Value()), Take(worker))
      ensures r.Ok? ==> r.value == old(queue)[0] && worker in busy && busy[worker] == r.value
      ensures r.Ok? ==> states == old(states)[r.value := Running]
      ensures r.Ok? <==> old(queue)[0] in old(tracked)
      ensures queue == old(queue)[1..] && worker !in idle && order == old(order) && tracked == old(tracked)
    {
      var id := queue[0];
      queue := queue[1..];
      idle := idle - {worker};
      if id !in tracked {
        return Err("KeyError");
      }
      states := states[id := Running];
      busy := busy[worker := id];
      return Ok(id);
    }

    method ConcludeTask(worker: nat, succeeded: bool)
      requires worker in busy
      modifies this
      ensures Value() == Concluded(old(Value()), worker, succeeded)
      ensures old(busy)[worker] in states && states[old(busy)[worker]] == (if succeeded then Succeeded else Failed)
      ensures forall id | id in old(states) && id != old(busy)[worker] :: id in states && states[id] == old(states)[id]
      ensures worker !in busy && worker in idle && (forall w | w in old(busy) && w != worker :: w in busy && busy[w] == old(busy)[w])
      ensures running == old(running) && queue == old(queue) && order == old(order) && tracked == old(tracked)
    {
      states := states[busy[worker] := if succeeded then Succeeded else Failed];
      busy := busy - {worker};
      idle := idle + {worker};
    }
  }

  // ---------- what every interleaving keeps ----------

  /** The newest ids, in order. */
  ghost predicate Newest(xs: seq<nat>, next: nat) {
    |xs| <= next && forall i | 0 <= i < |xs| :: xs[i] == next - |xs| + i
  }

  function Ids(xs: seq<nat>): set<nat> { set i | i in xs }

  ghost predicate History(c: Config, p: Pool) {
    && Newest(p.queue, p.next) && Newest(p.order, p.next)
    && (c.maxTracked >= 0 ==> |p.order| == Min(p.next, c.maxTracked))
    && (c.maxTracked < 0 ==> p.next == 0)
    && p.tracked == Ids(p.order)
    && (c.queueSize > 0 ==> |p.queue| <= c.queueSize)
  }

  /** Every task has a status object, and a queued one is marked so. */
  ghost predicate QueueMarked(next: nat, queue: seq<nat>, states: map<nat, TaskState>) {
    && (forall i: nat :: i in states <==> i < next)
    && forall i | i in queue :: i in states && states[i] == Queued
  }

  /** The running tasks are exactly those on a worker, each on one, and none of them is still queued. */
  ghost predicate OnWorkers(busy: map<nat, nat>, states: map<nat, TaskState>, taken: int) {
    && (forall w | w in busy :: busy[w] < taken && busy[w] in states && states[busy[w]] == Running)
    && (forall v, w | v in busy && w in busy && v != w :: busy[v] != busy[w])
    && forall i | i in states && states[i] == Running :: i in busy.Values
  }

  ghost predicate Staffed(p: Pool) {
    p.idle !! p.busy.Keys && (!p.running ==> p.busy == map[] && p.idle == {})
  }

  ghost predicate Placed(p: Pool) {
    && QueueMarked(p.next, p.queue, p.states)
    && OnWorkers(p.busy, p.states, p.next - |p.queue|)
    && Staffed(p)
  }

  lemma SubmitKeepsHistory(c: Config, p: Pool)
    requires History(c, p) && p.running && !QueueFull(c, p.queue)
    ensures History(c, Submitted(c, p).0)
  {
    hide Dropped, Trimmed, Newest, Ids;
    var order := p.order + [p.next];
    NewestAppended(p.order, p.next);
    NewestAppended(p.queue, p.next);
    TrackedIsOrder(order, p.next + 1, c.maxTracked);
    TrimmedIsNewest(order, p.next + 1, c.maxTracked);
    OneMoreId(p.order, p.next);
    if c.maxTracked < 0 { NothingIsNewest(order, c.maxTracked, p.next); }
  }

  lemma NewestAppended(xs: seq<nat>, next: nat)
    requires Newest(xs, next)
    ensures Newest(xs + [next], next + 1)
  {
  }

  lemma TrimmedIsNewest(order: seq<nat>, next: nat, max: int)
    requires Newest(order, next)
    ensures Newest(Trimmed(order, max), next)
    ensures max >= 0 ==> |Trimmed(order, max)| == Min(|order|, max)
  {
  }

  lemma OneMoreId(xs: seq<nat>, x: nat)
    ensures Ids(xs + [x]) == Ids(xs) + {x}
  {
  }

  lemma NothingIsNewest(order: seq<nat>, max: int, next: nat)
    requires max < 0
    ensures Newest(Trimmed(order, max), next)
  {
  }

  lemma TrackedIsOrder(order: seq<nat>, next: nat, max: int)
    requires Newest(order, next)
    ensures Ids(order) - Dropped(order, max) == Ids(Trimmed(order, max))
  {
    var after := Trimmed(order, max);
    var d := |order| - |after|;
    forall x | x in order ensures x in after <==> x !in Firsts(order, d) {
      var k :| 0 <= k < |order| && order[k] == x;
      if k >= d { assert after[k - d] == x; }
      if x in after {
        var j :| 0 <= j < |after| && after[j] == x;
        assert order[d + j] == x;
      }
    }
  }

  lemma NextKeepsHistory(c: Config, p: Pool, s: Step)
    requires Enabled(p, s) && History(c, p)
    ensures History(c, Next(c, p, s))
  {
    hide Trimmed, Dropped;
    if s.Submit? && p.running && !QueueFull(c, p.queue) { SubmitKeepsHistory(c, p); }
  }

  lemma SubmitKeepsPlaced(c: Config, p: Pool)
    requires Placed(p)
    ensures Placed(Submitted(c, p).0)
  {
    hide Trimmed, Dropped, QueueFull;
  }

  lemma TakeKeepsPlaced(p: Pool, w: nat)
    requires w in p.idle && p.queue != [] && Placed(p) && Newest(p.queue, p.next)
    ensures Placed(Taken(p, w))
  {
    var id := p.queue[0];
    assert id in p.queue;
    assert forall i | i in p.queue[1..] :: i in p.queue && i != id;
    var after := Taken(p, w);
    if id in p.tracked {
      assert after.busy.Values == p.busy.Values + {id} by {
        assert w !in p.busy;
        assert forall v | v in p.busy :: after.busy[v] == p.busy[v];
        assert after.busy[w] == id;
      }
    }
  }

  lemma ConcludeKeepsPlaced(p: Pool, w: nat, succeeded: bool)
    requires w in p.busy && Placed(p) && Newest(p.queue, p.next)
    ensures Placed(Concluded(p, w, succeeded))
  {
    var id := p.busy[w];
    var after := Concluded(p, w, succeeded);
    assert id !in p.queue;
    forall i | i in after.states && after.states[i] == Running ensures i in after.busy.Values {
      var v :| v in p.busy && p.busy[v] == i;
      assert v in after.busy && after.busy[v] == i;
    }
  }

  lemma StopKeepsPlaced(p: Pool)
    requires Placed(p) && Newest(p.queue, p.next)
    ensures Placed(Stopped(p))
  {
    if p.running {
      forall i | i in p.queue ensures i !in p.busy.Values {
        assert i >= p.next - |p.queue|;
      }
    }
  }

  lemma {:induction false} NextKeepsPlaced(c: Config, p: Pool, s: Step)
    requires Enabled(p, s) && History(c, p) && Placed(p)
    ensures Placed(Next(c, p, s))
  {
    hide Trimmed, Dropped, QueueFull, Newest, Taken, Concluded, Stopped, Submitted, QueueMarked, OnWorkers;
    match s
    case Start =>
    case Stop => StopKeepsPlaced(p);
    case Submit => SubmitKeepsPlaced(c, p);
    case Take(w) => TakeKeepsPlaced(p, w);
    case Conclude(w, succeeded) => ConcludeKeepsPlaced(p, w, succeeded);
  }

  // ---------- whole runs ----------

  /** The pool after a run, as long as every step was possible. */
  function Run(c: Config, steps: seq<Step>): Option<Pool> {
    if steps == [] then Some(Created)
    else
      var p := Run(c, steps[..|steps| - 1]);
      if p.Some? && Enabled(p.value, steps[|steps| - 1]) then Some(Next(c, p.value, steps[|steps| - 1])) else None
  }

  lemma {:induction false} AlwaysInv(c: Config, steps: seq<Step>)
    requires Run(c, steps).Some?
    ensures History(c, Run(c, steps).value) && Placed(Run(c, steps).value)
  {
    if steps == [] {
      assert Created.tracked == Ids(Created.order);
    } else {
      hide Next, History, Placed, Enabled;
      var front := steps[..|steps| - 1];
      AlwaysInv(c, front);
      NextKeepsHistory(c, Run(c, front).value, steps[|steps| - 1]);
      NextKeepsPlaced(c, Run(c, front).value, steps[|steps| - 1]);
    }
  }

  /** The queue is always a suffix of everything submitted, and of the history whenever that is long enough. */
  lemma {:induction false} QueueIsSuffixOfOrder(c: Config, steps: seq<Step>)
    requires Run(c, steps).Some? && 0 < c.queueSize <= c.maxTracked
    ensures var p := Run(c, steps).value;
            |p.queue| <= |p.order| && p.queue == p.order[|p.order| - |p.queue|..]
  {
    hide Run, Placed;
    AlwaysInv(c, steps);
  }

  /** A take fails exactly when the queue grew longer than the history. */
  lemma TakesTrimmedIff(c: Config, steps: seq<Step>, w: nat)
    requires Run(c, steps).Some? && Enabled(Run(c, steps).value, Take(w))
    ensures var p := Run(c, steps).value;
            TakesTrimmed(p, Take(w)) <==> |p.queue| > c.maxTracked
  {
    hide Run, Placed;
    AlwaysInv(c, steps);
    var p := Run(c, steps).value;
    var id := p.queue[0];
    assert id == p.next - |p.queue|;
    if |p.queue| <= c.maxTracked {
      assert p.order[|p.order| - |p.queue|] == id;
    }
  }

  /** Some run makes a worker take a task whose status is gone. */
  ghost predicate CanLoseATask(c: Config) {
    exists steps, w :: Loses(c, steps, w)
  }

  ghost predicate Loses(c: Config, steps: seq<Step>, w: nat) {
    Run(c, steps).Some? && TakesTrimmed(Run(c, steps).value, Take(w))
  }

  /** The configurations in which the queue can outgrow the history. */
  predicate Outgrows(c: Config) {
    c.workerCount >= 1 && c.maxTracked >= 0 && (c.queueSize <= 0 || c.queueSize > c.maxTracked)
  }

  function Submits(n: nat): seq<Step> { seq(n, _ => Submit) }

  lemma {:induction false} FillQueue(c: Config, n: nat)
    requires c.maxTracked >= 0 && (c.queueSize <= 0 || n <= c.queueSize)
    ensures var r := Run(c, [Start] + Submits(n));
            r.Some? && r.value.running && |r.value.queue| == n && r.value.idle == Below(c.workerCount)
  {
    var steps := [Start] + Submits(n);
    if n == 0 {
      assert steps[..0] == [];
    } else {
      assert steps[..|steps| - 1] == [Start] + Submits(n - 1);
      assert steps[|steps| - 1] == Submit;
      FillQueue(c, n - 1);
    }
  }

  /** No worker ever takes a task whose status was trimmed, in any interleaving, exactly for the configurations
      whose queue cannot outgrow the history. A queue size of zero or less is unbounded. */
  lemma CanLoseATaskIff(c: Config)
    ensures CanLoseATask(c) <==> Outgrows(c)
  {
    hide Run, TakesTrimmed, Submits;
    if Outgrows(c) {
      var n := c.maxTracked + 1;
      FillQueue(c, n);
      var steps := [Start] + Submits(n);
      assert 0 in Run(c, steps).value.idle;
      TakesTrimmedIff(c, steps, 0);
      assert Loses(c, steps, 0);
    }
    if CanLoseATask(c) {
      var steps, w :| Loses(c, steps, w);
      TrimmedIsEnabled(Run(c, steps).value, w);
      TakesTrimmedIff(c, steps, w);
      AlwaysInv(c, steps);
      NeedsWorkers(c, steps);
    }
  }

  lemma TrimmedIsEnabled(p: Pool, w: nat)
    requires TakesTrimmed(p, Take(w))
    ensures Enabled(p, Take(w))
  {
  }

  lemma {:induction false} NeedsWorkers(c: Config, steps: seq<Step>)
    requires Run(c, steps).Some?
    ensures forall w | w in Run(c, steps).value.idle || w in Run(c, steps).value.busy :: w < c.workerCount
  {
    if steps != [] { NeedsWorkers(c, steps[..|steps| - 1]); }
  }

  /** Every submitted task is waiting in the queue, running on exactly one worker, or finished; in a configuration that
      can lose tasks a fourth kind appears, taken after its status was dropped and marked queued for ever. */
  lemma EachTaskInOnePlace(c: Config, steps: seq<Step>, id: nat)
    requires Run(c, steps).Some? && !Outgrows(c) && id < Run(c, steps).value.next
    ensures var p := Run(c, steps).value;
            id in p.states
            && (id in p.queue <==> p.states[id] == Queued)
            && (id in p.busy.Values <==> p.states[id] == Running)
            && (forall v, w | v in p.busy && w in p.busy && p.busy[v] == p.busy[w] == id :: v == w)
  {
    hide Run;
    AlwaysInv(c, steps);
    if id !in Run(c, steps).value.queue { TakenTasksStarted(c, steps, id); }
  }

  lemma {:induction false} TakenTasksStarted(c: Config, steps: seq<Step>, id: nat)
    requires Run(c, steps).Some? && !Outgrows(c) && id < Run(c, steps).value.next
    requires id !in Run(c, steps).value.queue
    ensures id in Run(c, steps).value.states && Run(c, steps).value.states[id] != Queued
  {
    if steps != [] {
      var front, s := steps[..|steps| - 1], steps[|steps| - 1];
      var p := Run(c, front).value;
      AlwaysInv(c, front);
      AlwaysInv(c, steps);
      if s.Take? {
        if TakesTrimmed(p, s) {
          assert Loses(c, front, s.worker) && CanLoseATask(c);
          CanLoseATaskIff(c);
        }
        if id != p.queue[0] { TakenTasksStarted(c, front, id); }
      } else {
        if id < p.next && id !in p.queue { TakenTasksStarted(c, front, id); }
      }
    }
  }

  // ---------- statuses only move forward ----------

  predicate ForwardState(before: TaskState, after: TaskState) {
    after == before || (before == Queued && after == Running) || (before == Running && Terminal(after))
  }

  /** A status stays, or moves from queued to running, or from running to a terminal one. */
  ghost predicate Forward(before: Pool, after: Pool) {
    forall i | i in before.states :: i in after.states && ForwardState(before.states[i], after.states[i])
  }

  lemma StatusesMoveForward(c: Config, steps: seq<Step>, s: Step)
    requires Run(c, steps).Some? && Enabled(Run(c, steps).value, s)
    ensures Forward(Run(c, steps).value, Next(c, Run(c, steps).value, s))
  {
    hide Run;
    AlwaysInv(c, steps);
    var p := Run(c, steps).value;
    if s.Take? { assert p.queue[0] in p.queue; }
  }
}
