/** The worker's poll loop: persist a record, then commit its offset.

    `log` is the broker's record at each offset of each partition; it only grows, so a reader may see it whole. */
module OffsetWorker {
  import opened Wrappers
  import opened NotificationTables

  /** What a broker value can be before it is a request. */
  datatype BrokerValue = NoValue | NotJson | NotObject | NotARequest | Event(request: RequestEvent)

  datatype Record = Record(partition: nat, offset: nat)

  type Log = (nat, nat) -> BrokerValue

  /** `_decode_notification_request`, then the event's own validator. */
  function Decode(v: BrokerValue): Result<RequestEvent, string> {
    match v
    case NoValue => Err("Notification broker value is empty.")
    case NotJson => Err("Notification broker value is not valid JSON.")
    case NotObject => Err("Notification broker value must be a JSON object.")
    case NotARequest => Err("Invalid notification delivery request event.")
    case Event(e) => if ValidRequest(e) then Ok(e) else Err("Invalid notification delivery request event.")
  }

  predicate Decodes(log: Log, r: Record) { Decode(log(r.partition, r.offset)).Ok? }

  // ---------- offsets ----------

  type Offsets = map<nat, nat>

  /** The next offset of a partition; one never committed starts at the earliest. */
  function At(offsets: Offsets, partition: nat): nat {
    if partition in offsets then offsets[partition] else 0
  }

  function Passed(offsets: Offsets, r: Record): Offsets { offsets[r.partition := r.offset + 1] }

  /** The offsets after these records, in order. */
  function PassedAll(offsets: Offsets, records: seq<Record>): Offsets
    decreases |records|
  {
    if records == [] then offsets else PassedAll(Passed(offsets, records[0]), records[1..])
  }

  /** Each record is the next one of its partition. */
  ghost predicate Contiguous(offsets: Offsets, records: seq<Record>)
    decreases |records|
  {
    records == []
    || (records[0].offset == At(offsets, records[0].partition) && Contiguous(Passed(offsets, records[0]), records[1..]))
  }

  // ---------- the process, step by step ----------

  /** `pending` was fetched and not yet committed; `saved` says that its head has been persisted. */
  datatype Worker = Worker(
    committed: Offsets, position: Offsets, pending: seq<Record>, saved: bool, persisted: set<Record>)

  const Fresh := Worker(map[], map[], [], false, {})

  /** A crash is any end of the process: a kill, a database error, or a record that does not decode. */
  datatype Step = Fetch(records: seq<Record>) | Persist | Commit | Crash

  ghost predicate Enabled(log: Log, w: Worker, s: Step) {
    match s
    case Fetch(records) => w.pending == [] && Contiguous(w.position, records)
    case Persist => w.pending != [] && !w.saved && Decodes(log, w.pending[0])
    case Commit => w.pending != [] && w.saved
    case Crash => true
  }

  function Next(w: Worker, s: Step): Worker
    requires (s.Persist? || s.Commit?) ==> w.pending != []
  {
    match s
    case Fetch(records) => w.(pending := records, position := PassedAll(w.position, records))
    case Persist => w.(saved := true, persisted := w.persisted + {w.pending[0]})
    case Commit => w.(committed := Passed(w.committed, w.pending[0]), pending := w.pending[1..], saved := false)
    case Crash => w.(position := w.committed, pending := [], saved := false)
  }

  ghost predicate Feasible(log: Log, w: Worker, steps: seq<Step>)
    decreases |steps|
  {
    steps == [] || (Enabled(log, w, steps[0]) && Feasible(log, Next(w, steps[0]), steps[1..]))
  }

  function Run(w: Worker, steps: seq<Step>): Worker
    decreases |steps|
  {
    if steps == [] then w
    else if (steps[0].Persist? || steps[0].Commit?) && w.pending == [] then w
    else Run(Next(w, steps[0]), steps[1..])
  }

  /** Nothing below a committed offset was skipped, and everything persisted decoded. */
  ghost predicate Inv(log: Log, w: Worker) {
    && (forall p: nat, o: nat | o < At(w.committed, p) :: Record(p, o) in w.persisted)
    && (forall r | r in w.persisted :: Decodes(log, r))
    && Contiguous(w.committed, w.pending) && w.position == PassedAll(w.committed, w.pending)
    && (w.saved ==> w.pending != [] && w.pending[0] in w.persisted)
  }

  lemma NextKeepsInv(log: Log, w: Worker, s: Step)
    requires Enabled(log, w, s) && Inv(log, w)
    ensures Inv(log, Next(w, s))
  {
    if s.Commit? {
      var r := w.pending[0];
      forall p: nat, o: nat | o < At(Passed(w.committed, r), p) ensures Record(p, o) in w.persisted {
        if p == r.partition && o == r.offset { assert Record(p, o) == r; }
      }
    }
  }

  lemma {:induction false} RunKeepsInv(log: Log, w: Worker, steps: seq<Step>)
    requires Feasible(log, w, steps) && Inv(log, w)
    ensures Inv(log, Run(w, steps))
    decreases |steps|
  {
    hide Inv, Decodes;
    if steps != [] {
      NextKeepsInv(log, w, steps[0]);
      RunKeepsInv(log, Next(w, steps[0]), steps[1..]);
    }
  }

  /** Over any number of crashes and restarts, every record below a committed offset was persisted first. */
  lemma CommittedMeansPersisted(log: Log, steps: seq<Step>, r: Record)
    requires Feasible(log, Fresh, steps) && r.offset < At(Run(Fresh, steps).committed, r.partition)
    ensures r in Run(Fresh, steps).persisted && Decodes(log, r)
  {
    hide Decodes, Run, Feasible;
    RunKeepsInv(log, Fresh, steps);
    assert Record(r.partition, r.offset) == r;
  }

  /** A record that does not decode is never passed: its partition stands still at it for ever. */
  lemma PoisonBlocksItsPartition(log: Log, steps: seq<Step>, r: Record)
    requires Feasible(log, Fresh, steps) && !Decodes(log, r)
    ensures At(Run(Fresh, steps).committed, r.partition) <= r.offset
  {
    hide Decodes, Run, Feasible;
    RunKeepsInv(log, Fresh, steps);
    var w := Run(Fresh, steps);
    assert Record(r.partition, r.offset) == r;
    assert r.offset < At(w.committed, r.partition) ==> Record(r.partition, r.offset) in w.persisted;
  }

  /** Nothing is pending and the consumer stands at its committed offsets. */
  ghost predicate Settled(w: Worker) { w.pending == [] && !w.saved && w.position == w.committed }

  /** Fetch, persist and commit the next record of a partition. */
  function OneRecord(w: Worker, p: nat): seq<Step> {
    [Fetch([Record(p, At(w.committed, p))]), Persist, Commit]
  }

  lemma OneRecordHandled(log: Log, w: Worker, p: nat, rest: seq<Step>)
    requires Settled(w) && Decodes(log, Record(p, At(w.committed, p)))
    ensures var r := Record(p, At(w.committed, p));
            var w' := w.(committed := Passed(w.committed, r), position := Passed(w.committed, r), persisted := w.persisted + {r});
            && Settled(w') && At(w'.committed, p) == At(w.committed, p) + 1
            && Feasible(log, w, OneRecord(w, p) + rest) == Feasible(log, w', rest)
            && Run(w, OneRecord(w, p) + rest) == Run(w', rest)
  {
    hide Decodes, At, Run, Feasible;
    var r := Record(p, At(w.committed, p));
    assert PassedAll(w.position, [r]) == PassedAll(Passed(w.position, r), []);
    assert Contiguous(Passed(w.position, r), []) && Contiguous(w.position, [r]);
    assert OneRecord(w, p) + rest == [Fetch([r])] + ([Persist] + ([Commit] + rest));
    FirstStep(log, w, Fetch([r]), [Persist] + ([Commit] + rest));
    var w1 := Next(w, Fetch([r]));
    FirstStep(log, w1, Persist, [Commit] + rest);
    var w2 := Next(w1, Persist);
    FirstStep(log, w2, Commit, rest);
    PassedIsNext(w.committed, r);
  }

  lemma FirstStep(log: Log, w: Worker, s: Step, rest: seq<Step>)
    requires Enabled(log, w, s)
    ensures Feasible(log, w, [s] + rest) == Feasible(log, Next(w, s), rest)
    ensures Run(w, [s] + rest) == Run(Next(w, s), rest)
  {
    hide Decodes, Contiguous, PassedAll;
    assert ([s] + rest)[1..] == rest;
  }

  lemma PassedIsNext(offsets: Offsets, r: Record)
    ensures At(Passed(offsets, r), r.partition) == r.offset + 1
  {
  }

  /** While the records decode, the worker gets past them. */
  lemma {:induction false} GetsPast(log: Log, w: Worker, p: nat, o: nat) returns (steps: seq<Step>)
    requires Settled(w) && forall k: nat | k <= o :: Decodes(log, Record(p, k))
    ensures Feasible(log, w, steps) && At(Run(w, steps).committed, p) > o
    decreases o + 1 - At(w.committed, p)
  {
    hide Decodes, At, Run, Feasible, Passed, Settled;
    if At(w.committed, p) > o {
      steps := [];
      NoSteps(log, w);
    } else {
      var r := Record(p, At(w.committed, p));
      var w' := w.(committed := Passed(w.committed, r), position := Passed(w.committed, r), persisted := w.persisted + {r});
      OneRecordHandled(log, w, p, []);
      var rest := GetsPast(log, w', p, o);
      OneRecordHandled(log, w, p, rest);
      steps := OneRecord(w, p) + rest;
    }
  }

  lemma NoSteps(log: Log, w: Worker)
    ensures Feasible(log, w, []) && Run(w, []) == w
  {
  }

  /** Some run commits an offset past the record. */
  ghost predicate CanPass(log: Log, r: Record) {
    exists steps :: Passes(log, r, steps)
  }

  ghost predicate Passes(log: Log, r: Record, steps: seq<Step>) {
    Feasible(log, Fresh, steps) && r.offset < At(Run(Fresh, steps).committed, r.partition)
  }

  /** A record can be passed exactly when it and every record before it in its partition decode. */
  lemma CanPassIff(log: Log, r: Record)
    ensures CanPass(log, r) <==> forall k: nat | k <= r.offset :: Decodes(log, Record(r.partition, k))
  {
    hide Decodes, Run, Feasible, At;
    if CanPass(log, r) {
      var steps :| Passes(log, r, steps);
      forall k: nat | k <= r.offset ensures Decodes(log, Record(r.partition, k)) {
        CommittedMeansPersisted(log, steps, Record(r.partition, k));
      }
    }
    if forall k: nat | k <= r.offset :: Decodes(log, Record(r.partition, k)) {
      var steps := GetsPast(log, Fresh, r.partition, r.offset);
      assert Passes(log, r, steps);
    }
  }

  // ---------- the loop ----------

  /** How many leading records are handled without an exception. */
  function Handled(log: Log, fails: Record -> bool, records: seq<Record>): (n: nat)
    ensures n <= |records|
    ensures forall i | 0 <= i < n :: Decodes(log, records[i]) && !fails(records[i])
    ensures n < |records| ==> !Decodes(log, records[n]) || fails(records[n])
  {
    hide Decodes;
    if records == [] || !Decodes(log, records[0]) || fails(records[0]) then 0
    else 1 + Handled(log, fails, records[1..])
  }

  class NotificationWorker {
    var committed: Offsets
    ghost var persisted: set<Record>

    constructor ()
      ensures committed == map[] && persisted == {}
    {
      committed, persisted := map[], {};
    }

    /** `process_notification_record`; Err is any exception, and nothing counts as persisted then. */
    method ProcessRecord(log: Log, r: Record, fails: Record -> bool) returns (done: Result<(), string>)
      modifies this`persisted
      ensures done.Ok? <==> Decodes(log, r) && !fails(r)
      ensures persisted == if done.Ok? then old(persisted) + {r} else old(persisted)
    {
      var decoded := Decode(log(r.partition, r.offset));
      if decoded.Err? {
        return Err(decoded.error);
      }
      if fails(r) {
        return Err("database error");
      }
      persisted := persisted + {r};
      return Ok(());
    }

    /** One round of the endless loop over a polled batch; an exception ends the process at that record. */
    method HandleBatch(log: Log, records: seq<Record>, fails: Record -> bool) returns (r: Result<(), string>)
      modifies this
      ensures var n := Handled(log, fails, records);
              && (r.Ok? <==> n == |records|)
              && committed == PassedAll(old(committed), records[..n])
              && persisted == old(persisted) + (set x | x in records[..n])
    {
      hide Decodes, PassedAll;
      NothingPassed(committed);
      var i := 0;
      assert records[0..] == records;
      while i < |records|
        invariant 0 <= i <= |records|
        invariant Handled(log, fails, records) == i + Handled(log, fails, records[i..])
        invariant committed == PassedAll(old(committed), records[..i])
        invariant persisted == old(persisted) + set x | x in records[..i]
      {
        var done := ProcessRecord(log, records[i], fails);
        if done.Err? {
          return done;
        }
        PassedNext(old(committed), records[..i], records[i]);
        assert records[..i + 1] == records[..i] + [records[i]];
        assert records[i..][1..] == records[i + 1..];
        committed := Passed(committed, records[i]);
        i := i + 1;
      }
      assert records[..|records|] == records;
      return Ok(());
    }
  }

  lemma NothingPassed(offsets: Offsets)
    ensures PassedAll(offsets, []) == offsets
  {
  }

  lemma {:induction false} PassedNext(offsets: Offsets, records: seq<Record>, r: Record)
    ensures PassedAll(offsets, records + [r]) == Passed(PassedAll(offsets, records), r)
    decreases |records|
  {
    if records != [] {
      assert (records + [r])[1..] == records[1..] + [r];
      PassedNext(Passed(offsets, records[0]), records[1..], r);
    }
  }
}
