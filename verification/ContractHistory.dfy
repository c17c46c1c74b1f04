/** Whole histories of polls and acceptances: what the candidate counter, the drift events, the baseline
    chain and the incident responses amount to. */
module ContractHistory {
  import opened Wrappers
  import Incidents
  import NotificationTables
  import Flattening
  import opened ContractDiff
  import opened CandidateRuns
  import opened ContractBaselines

  /** `Elsewhere` is anything other components commit to the incident and outbox tables. */
  datatype Command =
    | PollSource(source: Option<Incidents.Source>, payload: Payload, clock: Clock, delivery: Delivery)
    | AcceptCandidate(sourceId: nat, requested: Option<nat>, actor: string, now: Time)
    | Elsewhere(incidents: seq<Incidents.Incident>, outbox: seq<NotificationTables.OutboxRow>)

  const Empty := Db([], [], [], [], [], [], [])

  /** The state after one command; a command that raises leaves it unchanged. */
  function Step(db: Db, c: Command): Db {
    match c
    case PollSource(source, payload, clock, delivery) =>
      if source.None? then db
      else
        var r := Poll(db, source.value, payload, clock, delivery);
        if r.Ok? then r.value else db
    case AcceptCandidate(sourceId, requested, actor, now) =>
      var r := Accept(db, sourceId, requested, actor, now);
      if r.Ok? then r.value else db
    case Elsewhere(incidents, outbox) => db.(incidents := incidents, outbox := outbox)
  }

  function Run(cs: seq<Command>): Db {
    if cs == [] then Empty else Step(Run(cs[..|cs| - 1]), cs[|cs| - 1])
  }

  /** What a poll shows against the accepted baseline in row `at`. */
  function ReadingOf(db: Db, at: nat, payload: Payload): Reading
    requires at < |db.baselines| && 0 < db.baselines[at].snapshotId <= |db.snapshots|
  {
    var structure := Flattening.Flat(payload, "");
    var accepted := Flattening.Flat(db.snapshots[db.baselines[at].snapshotId - 1].payload, "");
    if DiffContract(accepted, structure) == NoDiff then None else Some(structure)
  }

  predicate Commits(db: Db, c: Command) {
    c.PollSource? && c.source.Some? && Poll(db, c.source.value, c.payload, c.clock, c.delivery).Ok?
  }

  predicate Replaces(db: Db, c: Command, source: nat) {
    c.AcceptCandidate? && c.sourceId == source && Accept(db, source, c.requested, c.actor, c.now).Ok?
  }

  /** One command's effect on the readings a source has shown against its current baseline. */
  function NextReadings(db: Db, c: Command, source: nat, rs: seq<Reading>): seq<Reading> {
    if Replaces(db, c, source) then []
    else if Commits(db, c) && c.source.value.id == source then
      var at := ActiveBaseline(db.baselines, source);
      if at.Some? && 0 < db.baselines[at.value].snapshotId <= |db.snapshots|
      then rs + [ReadingOf(db, at.value, c.payload)]
      else []
    else rs
  }

  function Readings(cs: seq<Command>, source: nat): seq<Reading> {
    if cs == [] then []
    else NextReadings(Run(cs[..|cs| - 1]), cs[|cs| - 1], source, Readings(cs[..|cs| - 1], source))
  }

  // ---------- one row and its readings ----------

  /** The stored candidate summarises the readings. */
  ghost predicate Tracks(row: Baseline, rs: seq<Reading>) {
    && row.candidateCount == RunLength(rs)
    && row.candidateStructure == (if rs == [] then None else rs[|rs| - 1])
    && (row.candidateEvent.Some? <==> RunLength(rs) >= CONFIRMATION_POLLS)
  }

  lemma TracksNext(row: Baseline, rs: seq<Reading>, diff: Diff, snapshotId: nat, structure: Structure, now: Time, eventId: nat)
    requires Tracks(row, rs)
    ensures var next := rs + [if diff == NoDiff then None else Some(structure)];
            && Tracks(NextRow(row, diff, snapshotId, structure, now, eventId), next)
            && (Confirms(row, diff, snapshotId, structure, now) <==> RunLength(next) == CONFIRMATION_POLLS)
  {
    var next := rs + [if diff == NoDiff then None else Some(structure)];
    assert next[..|next| - 1] == rs;
    RunLengthIsTrailingRun(rs);
  }

  /** The row's snapshots exist, belong to its source, and the candidate is the later one. */
  ghost predicate Anchored(row: Baseline, snapshots: seq<Snapshot>) {
    && 0 < row.snapshotId <= |snapshots| && snapshots[row.snapshotId - 1].sourceId == row.sourceId
    && (row.candidateSnapshot.Some? <==> row.candidateStructure.Some?)
    && (row.candidateSnapshot.Some? ==>
          var id := row.candidateSnapshot.value;
          && row.snapshotId < id <= |snapshots| && snapshots[id - 1].sourceId == row.sourceId
          && row.candidateStructure == Some(Flattening.Flat(snapshots[id - 1].payload, "")))
  }

  lemma AnchoredIds(row: Baseline, snapshots: seq<Snapshot>)
    requires Anchored(row, snapshots)
    ensures 0 < row.snapshotId <= |snapshots|
    ensures row.candidateSnapshot.Some? ==> row.snapshotId < row.candidateSnapshot.value
  {
  }

  lemma AnchoredLater(row: Baseline, snapshots: seq<Snapshot>, more: Snapshot)
    requires Anchored(row, snapshots)
    ensures Anchored(row, snapshots + [more])
  {
    hide Flattening.Flat;
  }

  lemma AnchoredNext(row: Baseline, snapshots: seq<Snapshot>, payload: Payload, score: int, diff: Diff, now: Time, eventId: nat)
    requires Anchored(row, snapshots)
    ensures Anchored(NextRow(row, diff, |snapshots| + 1, Flattening.Flat(payload, ""), now, eventId),
                     snapshots + [Snapshot(row.sourceId, payload, score)])
  {
    hide Flattening.Flat;
  }

  // ---------- events ----------

  /** How many events were raised against one accepted snapshot of a source. */
  function Against(events: seq<DriftEvent>, source: nat, snapshot: nat): nat {
    if events == [] then 0
    else
      var e := events[|events| - 1];
      Against(events[..|events| - 1], source, snapshot)
      + if e.sourceId == source && e.previousSnapshot == snapshot then 1 else 0
  }

  lemma {:induction false} NoneAgainst(events: seq<DriftEvent>, source: nat, snapshot: nat)
    requires forall e | e in events && e.sourceId == source :: e.previousSnapshot < snapshot
    ensures Against(events, source, snapshot) == 0
  {
    if events != [] { NoneAgainst(events[..|events| - 1], source, snapshot); }
  }

  lemma AgainstAppend(events: seq<DriftEvent>, e: DriftEvent, source: nat, snapshot: nat)
    ensures Against(events + [e], source, snapshot)
         == Against(events, source, snapshot)
          + if e.sourceId == source && e.previousSnapshot == snapshot then 1 else 0
  {
    assert (events + [e])[..|events|] == events;
  }

  ghost predicate Counted(events: seq<DriftEvent>, source: nat, snapshot: nat, rs: seq<Reading>) {
    && Against(events, source, snapshot) == Confirmations(rs)
    && forall e | e in events && e.sourceId == source :: e.previousSnapshot <= snapshot
  }

  /** An event is exactly the difference of the two snapshots it names, and there is one. */
  ghost predicate Sound(e: DriftEvent, snapshots: seq<Snapshot>) {
    && 0 < e.previousSnapshot < e.currentSnapshot <= |snapshots|
    && snapshots[e.previousSnapshot - 1].sourceId == e.sourceId == snapshots[e.currentSnapshot - 1].sourceId
    && e.diff == DiffContract(Flattening.Flat(snapshots[e.previousSnapshot - 1].payload, ""),
                              Flattening.Flat(snapshots[e.currentSnapshot - 1].payload, ""))
    && e.diff != NoDiff
    && e == EventFor(e.sourceId, e.previousSnapshot, e.currentSnapshot, e.diff)
  }

  // ---------- looking up the active row ----------

  /** The active row of a source, if any, is the only one. */
  ghost predicate OneActive(rows: seq<Baseline>, source: nat) {
    forall i | 0 <= i < |rows| && rows[i].sourceId == source && rows[i].active ::
      ActiveBaseline(rows, source) == Some(i)
  }

  lemma {:induction false} LookupSame(a: seq<Baseline>, b: seq<Baseline>, source: nat)
    requires |a| == |b|
    requires forall i | 0 <= i < |a| :: (a[i].sourceId == source && a[i].active) <==> (b[i].sourceId == source && b[i].active)
    ensures ActiveBaseline(a, source) == ActiveBaseline(b, source)
  {
    if a != [] { LookupSame(a[..|a| - 1], b[..|b| - 1], source); }
  }

  lemma LookupAppend(rows: seq<Baseline>, r: Baseline, source: nat)
    ensures ActiveBaseline(rows + [r], source) ==
      if ActiveBaseline(rows, source).Some? then ActiveBaseline(rows, source)
      else if r.sourceId == source && r.active then Some(|rows|) else None
  {
    assert (rows + [r])[..|rows|] == rows;
  }

  // ---------- what every history keeps ----------

  ghost predicate AllAnchored(rows: seq<Baseline>, snapshots: seq<Snapshot>) {
    forall i | 0 <= i < |rows| && rows[i].active :: Anchored(rows[i], snapshots)
  }

  ghost predicate AllSound(events: seq<DriftEvent>, snapshots: seq<Snapshot>) {
    forall e | e in events :: Sound(e, snapshots)
  }

  /** The current baseline of a source against the readings it has seen. */
  ghost predicate Current(rows: seq<Baseline>, events: seq<DriftEvent>, source: nat, rs: seq<Reading>) {
    match ActiveBaseline(rows, source)
    case None => rs == [] && forall e | e in events :: e.sourceId != source
    case Some(at) => Tracks(rows[at], rs) && Counted(events, source, rows[at].snapshotId, rs)
  }

  ghost predicate Inv(db: Db, source: nat, rs: seq<Reading>) {
    && AllAnchored(db.baselines, db.snapshots)
    && AllSound(db.events, db.snapshots)
    && OneActive(db.baselines, source)
    && Current(db.baselines, db.events, source, rs)
  }

  // ---------- a poll against an active baseline ----------

  /** What a committed poll writes outside the incident and outbox tables. */
  function Judged(db: Db, at: nat, payload: Payload): Diff
    requires at < |db.baselines| && 0 < db.baselines[at].snapshotId <= |db.snapshots|
  {
    DiffContract(Flattening.Flat(db.snapshots[db.baselines[at].snapshotId - 1].payload, ""), Flattening.Flat(payload, ""))
  }

  lemma {:induction false} PollWrites(db: Db, at: nat, source: Incidents.Source, payload: Payload, clock: Clock, delivery: Delivery)
    requires ActiveBaseline(db.baselines, source.id) == Some(at)
    requires 0 < db.baselines[at].snapshotId <= |db.snapshots|
    requires Poll(db, source, payload, clock, delivery).Ok?
    ensures var after := Poll(db, source, payload, clock, delivery).value;
            var row, id, structure := db.baselines[at], |db.snapshots| + 1, Flattening.Flat(payload, "");
            var diff := Judged(db, at, payload);
            && after.snapshots == db.snapshots + [Snapshot(source.id, payload, CompatibilityScore(diff))]
            && after.baselines == db.baselines[at := NextRow(row, diff, id, structure, clock.seen, |db.events| + 1)]
            && after.events == (if Confirms(row, diff, id, structure, clock.seen)
                                then db.events + [EventFor(source.id, row.snapshotId, id, diff)] else db.events)
  {
    hide Flattening.Flat, DiffContract, CompatibilityScore, EventFor, Incidents.ApplyOp, Confirms, NextRow, Enqueued;
    var (polled, transitions) := PollAgainst(db, at, source, payload, clock);
    EnqueueKeeps(polled, transitions, delivery);
  }

  lemma NextRowKeeps(row: Baseline, diff: Diff, id: nat, structure: Structure, now: Time, eventId: nat)
    ensures var next := NextRow(row, diff, id, structure, now, eventId);
            next.id == row.id && next.sourceId == row.sourceId && next.active == row.active
            && next.snapshotId == row.snapshotId && next.version == row.version
            && next.promotedFrom == row.promotedFrom && next.activeKey == row.activeKey
  {
  }

  lemma SoundLater(events: seq<DriftEvent>, snapshots: seq<Snapshot>, more: Snapshot)
    requires AllSound(events, snapshots)
    ensures AllSound(events, snapshots + [more])
  {
    hide Flattening.Flat, DiffContract, EventFor;
    forall e | e in events ensures Sound(e, snapshots + [more]) {
      assert Sound(e, snapshots);
    }
  }

  lemma SoundNew(db: Db, at: nat, payload: Payload, score: int)
    requires at < |db.baselines| && Anchored(db.baselines[at], db.snapshots)
    requires Judged(db, at, payload) != NoDiff
    ensures var row := db.baselines[at];
            Sound(EventFor(row.sourceId, row.snapshotId, |db.snapshots| + 1, Judged(db, at, payload)),
                  db.snapshots + [Snapshot(row.sourceId, payload, score)])
  {
    hide Flattening.Flat, DiffContract, EventFor;
    var row := db.baselines[at];
    EventNames(row.sourceId, row.snapshotId, |db.snapshots| + 1, Judged(db, at, payload));
  }

  lemma EventNames(source: nat, previous: nat, current: nat, d: Diff)
    ensures var e := EventFor(source, previous, current, d);
            e.sourceId == source && e.previousSnapshot == previous && e.currentSnapshot == current && e.diff == d
  {
  }

  /** The tables a poll writes keep what does not depend on the source asked about. */
  lemma {:induction false} PollKeepsGlobal(db: Db, at: nat, source: Incidents.Source, payload: Payload, clock: Clock, delivery: Delivery)
    requires ActiveBaseline(db.baselines, source.id) == Some(at)
    requires AllAnchored(db.baselines, db.snapshots) && AllSound(db.events, db.snapshots)
    requires Poll(db, source, payload, clock, delivery).Ok?
    ensures var after := Poll(db, source, payload, clock, delivery).value;
            AllAnchored(after.baselines, after.snapshots) && AllSound(after.events, after.snapshots)
  {
    hide Poll, Flattening.Flat, DiffContract, EventFor, CompatibilityScore, NextRow, Anchored, Sound;
    var row := db.baselines[at];
    assert Anchored(row, db.snapshots);
    AnchoredIds(row, db.snapshots);
    PollWrites(db, at, source, payload, clock, delivery);
    var after := Poll(db, source, payload, clock, delivery).value;
    var diff := Judged(db, at, payload);
    var score := CompatibilityScore(diff);
    NextRowKeeps(row, diff, |db.snapshots| + 1, Flattening.Flat(payload, ""), clock.seen, |db.events| + 1);
    AnchoredNext(row, db.snapshots, payload, score, diff, clock.seen, |db.events| + 1);
    forall i | 0 <= i < |after.baselines| && after.baselines[i].active
      ensures Anchored(after.baselines[i], after.snapshots)
    {
      if i != at { AnchoredLater(db.baselines[i], db.snapshots, Snapshot(source.id, payload, score)); }
    }
    SoundLater(db.events, db.snapshots, Snapshot(source.id, payload, score));
    if Confirms(row, diff, |db.snapshots| + 1, Flattening.Flat(payload, ""), clock.seen) {
      SoundNew(db, at, payload, score);
    }
  }

  lemma {:induction false} PollAdvancesCurrent(db: Db, at: nat, source: Incidents.Source, payload: Payload, clock: Clock, delivery: Delivery,
                            rs: seq<Reading>)
    requires ActiveBaseline(db.baselines, source.id) == Some(at)
    requires 0 < db.baselines[at].snapshotId <= |db.snapshots|
    requires Current(db.baselines, db.events, source.id, rs)
    requires Poll(db, source, payload, clock, delivery).Ok?
    ensures var after := Poll(db, source, payload, clock, delivery).value;
            Current(after.baselines, after.events, source.id, rs + [ReadingOf(db, at, payload)])
    ensures var after := Poll(db, source, payload, clock, delivery).value;
            ActiveBaseline(after.baselines, source.id) == Some(at)
            && after.baselines[at].snapshotId == db.baselines[at].snapshotId
            && (|after.events| == |db.events| + 1 || after.events == db.events)
            && (|after.events| == |db.events| + 1 <==> RunLength(rs + [ReadingOf(db, at, payload)]) == CONFIRMATION_POLLS)
  {
    hide Poll, Flattening.Flat, DiffContract, EventFor, CompatibilityScore, NextRow, Confirms, Tracks, Confirmations, RunLength;
    var row, id, structure := db.baselines[at], |db.snapshots| + 1, Flattening.Flat(payload, "");
    PollWrites(db, at, source, payload, clock, delivery);
    var after := Poll(db, source, payload, clock, delivery).value;
    var diff := Judged(db, at, payload);
    NextRowKeeps(row, diff, id, structure, clock.seen, |db.events| + 1);
    LookupSame(db.baselines, after.baselines, source.id);
    TracksNext(row, rs, diff, id, structure, clock.seen, |db.events| + 1);
    ConfirmationsNext(rs, ReadingOf(db, at, payload));
    EventNames(source.id, row.snapshotId, id, diff);
    AgainstAppend(db.events, EventFor(source.id, row.snapshotId, id, diff), source.id, row.snapshotId);
  }

  lemma PollKeepsOthers(db: Db, at: nat, source: Incidents.Source, payload: Payload, clock: Clock, delivery: Delivery,
                        s: nat, rs: seq<Reading>)
    requires ActiveBaseline(db.baselines, source.id) == Some(at) && source.id != s
    requires 0 < db.baselines[at].snapshotId <= |db.snapshots|
    requires Current(db.baselines, db.events, s, rs)
    requires Poll(db, source, payload, clock, delivery).Ok?
    ensures var after := Poll(db, source, payload, clock, delivery).value;
            Current(after.baselines, after.events, s, rs)
  {
    hide Poll, Flattening.Flat, DiffContract, EventFor, CompatibilityScore, NextRow, Confirms, Tracks, Confirmations;
    var row, id, structure := db.baselines[at], |db.snapshots| + 1, Flattening.Flat(payload, "");
    PollWrites(db, at, source, payload, clock, delivery);
    var after := Poll(db, source, payload, clock, delivery).value;
    var diff := Judged(db, at, payload);
    NextRowKeeps(row, diff, id, structure, clock.seen, |db.events| + 1);
    LookupSame(db.baselines, after.baselines, s);
    EventNames(source.id, row.snapshotId, id, diff);
    var mine := ActiveBaseline(db.baselines, s);
    if mine.Some? {
      AgainstAppend(db.events, EventFor(source.id, row.snapshotId, id, diff), s, db.baselines[mine.value].snapshotId);
    }
  }

  lemma {:induction false} PollKeepsOneActive(db: Db, at: nat, source: Incidents.Source, payload: Payload, clock: Clock, delivery: Delivery, s: nat)
    requires ActiveBaseline(db.baselines, source.id) == Some(at)
    requires 0 < db.baselines[at].snapshotId <= |db.snapshots|
    requires OneActive(db.baselines, s)
    requires Poll(db, source, payload, clock, delivery).Ok?
    ensures OneActive(Poll(db, source, payload, clock, delivery).value.baselines, s)
  {
    hide Poll, Flattening.Flat, DiffContract, EventFor, CompatibilityScore, NextRow, Confirms;
    PollWrites(db, at, source, payload, clock, delivery);
    var after := Poll(db, source, payload, clock, delivery).value;
    NextRowKeeps(db.baselines[at], Judged(db, at, payload), |db.snapshots| + 1, Flattening.Flat(payload, ""), clock.seen,
                 |db.events| + 1);
    LookupSame(db.baselines, after.baselines, s);
  }

  lemma ConfirmationsNext(rs: seq<Reading>, r: Reading)
    ensures Confirmations(rs + [r]) == Confirmations(rs) + if RunLength(rs + [r]) == CONFIRMATION_POLLS then 1 else 0
  {
    assert (rs + [r])[..|rs|] == rs;
  }

  // ---------- the first poll of a source ----------

  lemma FirstPollWrites(db: Db, source: Incidents.Source, payload: Payload, clock: Clock, delivery: Delivery)
    requires ActiveBaseline(db.baselines, source.id).None?
    ensures Poll(db, source, payload, clock, delivery) ==
      Ok(db.(snapshots := db.snapshots + [Snapshot(source.id, payload, MAX_SCORE)],
             baselines := db.baselines + [FirstBaseline(|db.baselines| + 1, source, |db.snapshots| + 1, clock.seen)]))
  {
    hide BaselineKey;
  }

  lemma FirstIsAnchored(db: Db, source: Incidents.Source, payload: Payload, now: Time)
    ensures Anchored(FirstBaseline(|db.baselines| + 1, source, |db.snapshots| + 1, now),
                     db.snapshots + [Snapshot(source.id, payload, MAX_SCORE)])
  {
    hide BaselineKey;
  }

  lemma NothingTracked(row: Baseline)
    requires row.candidateCount == 0 && row.candidateStructure == None && row.candidateEvent == None
    ensures Tracks(row, [])
  {
  }

  lemma NothingCounted(events: seq<DriftEvent>, source: nat, snapshot: nat)
    requires Against(events, source, snapshot) == 0
    requires forall e | e in events && e.sourceId == source :: e.previousSnapshot <= snapshot
    ensures Counted(events, source, snapshot, [])
  {
  }

  lemma {:induction false} FirstPollKeeps(db: Db, source: Incidents.Source, payload: Payload, clock: Clock, delivery: Delivery,
                       s: nat, rs: seq<Reading>)
    requires Inv(db, s, rs) && ActiveBaseline(db.baselines, source.id).None?
    ensures Poll(db, source, payload, clock, delivery).Ok?
    ensures Inv(Poll(db, source, payload, clock, delivery).value, s, if source.id == s then [] else rs)
  {
    hide Poll, Flattening.Flat, Sound, Anchored, BaselineKey, Tracks, Counted;
    FirstPollWrites(db, source, payload, clock, delivery);
    var first := FirstBaseline(|db.baselines| + 1, source, |db.snapshots| + 1, clock.seen);
    var snapshot := Snapshot(source.id, payload, MAX_SCORE);
    LookupAppend(db.baselines, first, s);
    SoundLater(db.events, db.snapshots, snapshot);
    FirstIsAnchored(db, source, payload, clock.seen);
    forall i | 0 <= i < |db.baselines| && db.baselines[i].active ensures Anchored(db.baselines[i], db.snapshots + [snapshot]) {
      AnchoredLater(db.baselines[i], db.snapshots, snapshot);
    }
    if source.id == s {
      NoneAgainst(db.events, s, first.snapshotId);
      NothingTracked(first);
      NothingCounted(db.events, s, first.snapshotId);
    }
  }

  // ---------- accepting ----------

  lemma AcceptWrites(db: Db, c: Command)
    requires c.AcceptCandidate? && Accept(db, c.sourceId, c.requested, c.actor, c.now).Ok?
    ensures var at := ActiveBaseline(db.baselines, c.sourceId);
            at.Some? && db.baselines[at.value].candidateSnapshot.Some?
            && var row := db.baselines[at.value];
               Step(db, c) == db.(baselines := db.baselines[at.value := Superseded(row, c.now)]
                                  + [Promoted(|db.baselines| + 1, row, row.candidateSnapshot.value, c.actor, c.now)])
  {
    hide BaselineKey;
  }

  lemma PromotedIsAnchored(db: Db, row: Baseline, actor: string, now: Time)
    requires Anchored(row, db.snapshots) && row.candidateSnapshot.Some?
    ensures Anchored(Promoted(|db.baselines| + 1, row, row.candidateSnapshot.value, actor, now), db.snapshots)
  {
    hide BaselineKey, Flattening.Flat;
  }

  lemma AcceptKeepsAnchors(db: Db, c: Command)
    requires c.AcceptCandidate? && AllAnchored(db.baselines, db.snapshots)
    requires Accept(db, c.sourceId, c.requested, c.actor, c.now).Ok?
    ensures AllAnchored(Step(db, c).baselines, Step(db, c).snapshots)
  {
    hide BaselineKey, Anchored, Step, Accept;
    AcceptWrites(db, c);
    var row := db.baselines[ActiveBaseline(db.baselines, c.sourceId).value];
    assert Anchored(row, db.snapshots);
    PromotedIsAnchored(db, row, c.actor, c.now);
  }

  lemma AcceptStartsOver(db: Db, c: Command, rs: seq<Reading>)
    requires c.AcceptCandidate? && AllAnchored(db.baselines, db.snapshots)
    requires OneActive(db.baselines, c.sourceId) && Current(db.baselines, db.events, c.sourceId, rs)
    requires Accept(db, c.sourceId, c.requested, c.actor, c.now).Ok?
    ensures OneActive(Step(db, c).baselines, c.sourceId)
    ensures Current(Step(db, c).baselines, Step(db, c).events, c.sourceId, [])
  {
    hide BaselineKey, Tracks, Against, Confirmations, Anchored, Step, Accept;
    AcceptWrites(db, c);
    var s, at := c.sourceId, ActiveBaseline(db.baselines, c.sourceId).value;
    var row := db.baselines[at];
    var id := row.candidateSnapshot.value;
    var middle := db.baselines[at := Superseded(row, c.now)];
    var promoted := Promoted(|db.baselines| + 1, row, id, c.actor, c.now);
    assert Anchored(row, db.snapshots);
    AnchoredIds(row, db.snapshots);
    NobodyActive(db.baselines, middle, s, at);
    LookupAppend(middle, promoted, s);
    NothingTracked(promoted);
    NoneAgainst(db.events, s, id);
    NothingCounted(db.events, s, id);
  }

  lemma AcceptLeavesOthers(db: Db, c: Command, s: nat, rs: seq<Reading>)
    requires c.AcceptCandidate? && c.sourceId != s
    requires OneActive(db.baselines, s) && Current(db.baselines, db.events, s, rs)
    requires Accept(db, c.sourceId, c.requested, c.actor, c.now).Ok?
    ensures OneActive(Step(db, c).baselines, s) && Current(Step(db, c).baselines, Step(db, c).events, s, rs)
  {
    hide BaselineKey, Tracks, Counted, Step, Accept;
    AcceptWrites(db, c);
    var at := ActiveBaseline(db.baselines, c.sourceId).value;
    var row := db.baselines[at];
    var middle := db.baselines[at := Superseded(row, c.now)];
    LookupSame(db.baselines, middle, s);
    LookupAppend(middle, Promoted(|db.baselines| + 1, row, row.candidateSnapshot.value, c.actor, c.now), s);
  }

  lemma {:induction false} AcceptKeeps(db: Db, c: Command, s: nat, rs: seq<Reading>)
    requires c.AcceptCandidate?
    requires Inv(db, s, rs) && OneActive(db.baselines, c.sourceId)
    requires Accept(db, c.sourceId, c.requested, c.actor, c.now).Ok?
    ensures Inv(Step(db, c), s, if c.sourceId == s then [] else rs)
  {
    hide AllAnchored, OneActive, Current, AllSound, Step, Accept;
    AcceptWrites(db, c);
    AcceptKeepsAnchors(db, c);
    if c.sourceId == s { AcceptStartsOver(db, c, rs); } else { AcceptLeavesOthers(db, c, s, rs); }
  }

  lemma NobodyActive(rows: seq<Baseline>, after: seq<Baseline>, s: nat, at: nat)
    requires OneActive(rows, s) && ActiveBaseline(rows, s) == Some(at)
    requires |after| == |rows| && !after[at].active
    requires forall i | 0 <= i < |rows| && i != at :: after[i] == rows[i]
    ensures ActiveBaseline(after, s).None?
  {
  }

  // ---------- every history ----------

  lemma {:induction false} HistoryKeeps(cs: seq<Command>, s: nat)
    ensures Inv(Run(cs), s, Readings(cs, s))
    decreases |cs|, 0
  {
    if cs != [] {
      var front, c := cs[..|cs| - 1], cs[|cs| - 1];
      HistoryKeeps(front, s);
      StepKeeps(front, c, s);
    } else {
      assert Inv(Empty, s, []);
    }
  }

  lemma {:induction false} StepKeeps(front: seq<Command>, c: Command, s: nat)
    requires Inv(Run(front), s, Readings(front, s))
    ensures Inv(Step(Run(front), c), s, NextReadings(Run(front), c, s, Readings(front, s)))
    decreases |front|, 2
  {
    hide Poll, Accept, Run, Readings, Current, AllSound, Anchored, OneActive, ReadingOf;
    var db, rs := Run(front), Readings(front, s);
    match c
    case Elsewhere(_, _) =>
    case AcceptCandidate(t, requested, actor, now) =>
      HistoryKeepsOther(front, t);
      if Accept(db, t, requested, actor, now).Ok? { AcceptKeeps(db, c, s, rs); }
    case PollSource(source, payload, clock, delivery) =>
      if Commits(db, c) {
        var at := ActiveBaseline(db.baselines, source.value.id);
        if at.Some? {
          assert Anchored(db.baselines[at.value], db.snapshots);
          AnchoredIds(db.baselines[at.value], db.snapshots);
          PollKeepsGlobal(db, at.value, source.value, payload, clock, delivery);
          PollKeepsOneActive(db, at.value, source.value, payload, clock, delivery, s);
          if source.value.id == s {
            PollAdvancesCurrent(db, at.value, source.value, payload, clock, delivery, rs);
          } else {
            PollKeepsOthers(db, at.value, source.value, payload, clock, delivery, s, rs);
          }
        } else {
          FirstPollKeeps(db, source.value, payload, clock, delivery, s, rs);
        }
      }
  }

  lemma {:induction false} HistoryKeepsOther(cs: seq<Command>, t: nat)
    ensures OneActive(Run(cs).baselines, t)
    decreases |cs|, 1
  {
    hide Current, AllSound, AllAnchored, OneActive;
    HistoryKeeps(cs, t);
  }

  // ---------- main results on candidates and events ----------

  /** At every moment the stored counter is the length of the current run of one drifting structure. */
  lemma {:induction false} CounterIsRunLength(cs: seq<Command>, s: nat)
    ensures var at := ActiveBaseline(Run(cs).baselines, s);
            at.Some? ==>
              var row, rs := Run(cs).baselines[at.value], Readings(cs, s);
              && row.candidateCount == RunLength(rs)
              && row.candidateStructure == (if rs == [] then None else rs[|rs| - 1])
              && (row.candidateEvent.Some? <==> RunLength(rs) >= CONFIRMATION_POLLS)
  {
    hide Readings, Run, RunLength, AllSound, AllAnchored, OneActive, Counted;
    HistoryKeeps(cs, s);
  }

  /** As many events were raised against the current baseline as its readings have maximal runs of three or more. */
  lemma {:induction false} EventsAreLongRuns(cs: seq<Command>, s: nat)
    ensures var at := ActiveBaseline(Run(cs).baselines, s);
            at.Some? ==>
              Against(Run(cs).events, s, Run(cs).baselines[at.value].snapshotId) == |LongRuns(Readings(cs, s))|
  {
    hide Readings, Run, AllSound, AllAnchored, OneActive, Tracks, Against, LongRuns, Confirmations;
    HistoryKeeps(cs, s);
    ConfirmationsAreLongRuns(Readings(cs, s));
  }

  lemma OneMore(cs: seq<Command>, c: Command, s: nat)
    ensures Run(cs + [c]) == Step(Run(cs), c)
    ensures Readings(cs + [c], s) == NextReadings(Run(cs), c, s, Readings(cs, s))
  {
    hide Step, NextReadings;
    assert (cs + [c])[..|cs|] == cs;
  }

  /** A committed poll raises an event exactly when its reading is the third of a maximal run. */
  lemma {:induction false} EventAtThird(cs: seq<Command>, c: Command)
    requires Commits(Run(cs), c)
    ensures var s, rs := c.source.value.id, Readings(cs + [c], c.source.value.id);
            && (|Run(cs + [c]).events| == |Run(cs).events| + 1 <==> |rs| >= 3 && LongRunAt(rs, |rs| - 3))
            && (|Run(cs + [c]).events| == |Run(cs).events| + 1 || Run(cs + [c]).events == Run(cs).events)
  {
    hide Run, Readings, Poll, AllSound, OneActive, LongRunAt, Anchored, ReadingOf;
    var db, s := Run(cs), c.source.value.id;
    assert (cs + [c])[..|cs|] == cs;
    OneMore(cs, c, s);
    HistoryKeeps(cs, s);
    ConfirmedAtThird(Readings(cs + [c], s));
    var at := ActiveBaseline(db.baselines, s);
    if at.Some? {
      assert Anchored(db.baselines[at.value], db.snapshots);
      AnchoredIds(db.baselines[at.value], db.snapshots);
      PollAdvancesCurrent(db, at.value, c.source.value, c.payload, c.clock, c.delivery, Readings(cs, s));
    } else {
      FirstPollWrites(db, c.source.value, c.payload, c.clock, c.delivery);
    }
  }

  /** Every event ever raised is the exact, nonempty difference of two snapshots of its own source, earlier to later. */
  lemma {:induction false} EventsAreSound(cs: seq<Command>, e: DriftEvent)
    requires e in Run(cs).events
    ensures Sound(e, Run(cs).snapshots)
  {
    hide Run, Sound, AllAnchored, OneActive, Current;
    HistoryKeeps(cs, 0);
  }

  /** Snapshots are only appended, and an accepted row keeps its snapshot. */
  ghost predicate Extends(before: Db, after: Db) {
    && |before.snapshots| <= |after.snapshots| && after.snapshots[..|before.snapshots|] == before.snapshots
    && |before.baselines| <= |after.baselines|
    && forall i | 0 <= i < |before.baselines| :: after.baselines[i].snapshotId == before.baselines[i].snapshotId
  }

  lemma {:induction false} StepExtends(cs: seq<Command>, c: Command)
    ensures Extends(Run(cs), Step(Run(cs), c))
  {
    hide Run, Poll, Accept, AllSound, OneActive, Current, Flattening.Flat, DiffContract, CompatibilityScore, EventFor, NextRow, Confirms;
    var db := Run(cs);
    match c
    case Elsewhere(_, _) =>
    case AcceptCandidate(t, requested, actor, now) =>
      if Accept(db, t, requested, actor, now).Ok? { AcceptWrites(db, c); }
    case PollSource(source, payload, clock, delivery) =>
      if Commits(db, c) {
        HistoryKeeps(cs, 0);
        var at := ActiveBaseline(db.baselines, source.value.id);
        if at.Some? {
          assert Anchored(db.baselines[at.value], db.snapshots);
          PollWrites(db, at.value, source.value, payload, clock, delivery);
          NextRowKeeps(db.baselines[at.value], Judged(db, at.value, payload), |db.snapshots| + 1,
                       Flattening.Flat(payload, ""), clock.seen, |db.events| + 1);
        } else {
          FirstPollWrites(db, source.value, payload, clock, delivery);
        }
      }
  }

  lemma {:induction false} RunExtends(cs: seq<Command>, more: seq<Command>)
    ensures Extends(Run(cs), Run(cs + more))
  {
    hide Step;
    if more == [] {
      assert cs + more == cs;
    } else {
      var front := more[..|more| - 1];
      RunExtends(cs, front);
      assert (cs + more)[..|cs + more| - 1] == cs + front;
      StepExtends(cs + front, more[|more| - 1]);
    }
  }

  /** Once a candidate is accepted, its structure never drifts against the new baseline, however long that stays. */
  lemma AcceptedNeverDrifts(cs: seq<Command>, c: Command, more: seq<Command>, payload: Payload)
    requires c.AcceptCandidate? && Replaces(Run(cs), c, c.sourceId)
    requires var before := ActiveBaseline(Run(cs).baselines, c.sourceId);
             before.Some? && Run(cs).baselines[before.value].candidateStructure == Some(Flattening.Flat(payload, ""))
    ensures var at, later := |Run(cs).baselines|, Run(cs + [c] + more);
            && ActiveBaseline(Run(cs + [c]).baselines, c.sourceId) == Some(at)
            && at < |later.baselines| && 0 < later.baselines[at].snapshotId <= |later.snapshots|
            && ReadingOf(later, at, payload) == None
  {
    hide Run, Readings, AllSound, Accept, Flattening.Flat, DiffContract, Step, Tracks, Counted;
    var db := Run(cs);
    assert (cs + [c])[..|cs|] == cs;
    OneMore(cs, c, c.sourceId);
    HistoryKeeps(cs, c.sourceId);
    AcceptWrites(db, c);
    var at := ActiveBaseline(db.baselines, c.sourceId).value;
    var row := db.baselines[at];
    assert Anchored(row, db.snapshots);
    var middle := db.baselines[at := Superseded(row, c.now)];
    var promoted := Promoted(|db.baselines| + 1, row, row.candidateSnapshot.value, c.actor, c.now);
    NobodyActive(db.baselines, middle, c.sourceId, at);
    LookupAppend(middle, promoted, c.sourceId);
    DiffReflexive(Flattening.Flat(payload, ""));
    RunExtends(cs + [c], more);
    SameSnapshot(db.snapshots, Run(cs + [c] + more).snapshots, row.candidateSnapshot.value);
  }

  lemma SameSnapshot(before: seq<Snapshot>, after: seq<Snapshot>, id: nat)
    requires 0 < id <= |before| <= |after| && after[..|before|] == before
    ensures after[id - 1] == before[id - 1]
  {
    assert after[..|before|][id - 1] == after[id - 1];
  }

  lemma DiffReflexive(flat: Structure)
    ensures DiffContract(flat, flat) == NoDiff
  {
    DiffEmptyIff(flat, flat);
  }
}
