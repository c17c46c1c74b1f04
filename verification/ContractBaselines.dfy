/** Contract snapshots, accepted baselines and their candidates, and the drift events they raise.

    A row's id is its position in its table plus one. A structure fingerprint is the structure itself. */
module ContractBaselines {
  import opened Wrappers
  import Keys
  import Incidents
  import IncidentNotifications
  import NotificationTables
  import Flattening
  import opened ContractDiff
  import opened CandidateRuns

  type Time = int
  type Structure = map<string, string>
  type Payload = seq<Flattening.Member>

  datatype Snapshot = Snapshot(sourceId: nat, payload: Payload, score: int)

  datatype Baseline = Baseline(
    id: nat, sourceId: nat, tenantId: Option<nat>, snapshotId: nat, promotedFrom: Option<nat>, version: nat,
    active: bool, activeKey: Option<string>, acceptedBy: string, acceptedAt: Time, supersededAt: Option<Time>,
    candidateSnapshot: Option<nat>, candidateStructure: Option<Structure>, candidateCount: nat,
    candidateEvent: Option<nat>, candidateFirstSeen: Option<Time>, candidateLastSeen: Option<Time>)

  datatype DriftEvent = DriftEvent(
    sourceId: nat, previousSnapshot: nat, currentSnapshot: nat, event: EventType, severity: Severity,
    diff: Diff, score: int, summary: string)

  /** The "incident" observation written for a drift event that needs a response. */
  datatype Observation = Observation(sourceId: nat, tenantId: Option<nat>, driftEvent: nat, severity: Severity)

  datatype AgentRun = AgentRun(observationId: nat)

  datatype Db = Db(
    snapshots: seq<Snapshot>, baselines: seq<Baseline>, events: seq<DriftEvent>, observations: seq<Observation>,
    agentRuns: seq<AgentRun>, incidents: seq<Incidents.Incident>, outbox: seq<NotificationTables.OutboxRow>)

  /** The clock readings of one poll: candidate stamp, incident stamp, cooldown check. */
  datatype Clock = Clock(seen: Time, reported: Time, checked: Time)

  /** Where notifications go; outside broker mode nothing is enqueued. */
  datatype Delivery = Delivery(brokerMode: bool, channels: seq<NotificationTables.Channel>)

  function BaselineKey(source: nat): string { "source:" + Keys.Dec(source) }

  /** The first active row of a source. */
  function ActiveBaseline(rows: seq<Baseline>, source: nat): (r: Option<nat>)
    ensures r.Some? ==> r.value < |rows| && rows[r.value].sourceId == source && rows[r.value].active
    ensures r.None? ==> forall i | 0 <= i < |rows| :: rows[i].sourceId != source || !rows[i].active
  {
    if rows == [] then None
    else
      var earlier := ActiveBaseline(rows[..|rows| - 1], source);
      if earlier.Some? then earlier
      else if rows[|rows| - 1].sourceId == source && rows[|rows| - 1].active then Some(|rows| - 1)
      else None
  }

  // ---------- one poll, on values ----------

  function FirstBaseline(id: nat, source: Incidents.Source, snapshotId: nat, now: Time): Baseline {
    Baseline(id, source.id, source.tenantId, snapshotId, None, 1, true, Some(BaselineKey(source.id)),
             "system:first-observation", now, None, None, None, 0, None, None, None)
  }

  /** `_clear_candidate`. */
  function Cleared(row: Baseline): Baseline {
    row.(candidateSnapshot := None, candidateStructure := None, candidateCount := 0, candidateEvent := None,
         candidateFirstSeen := None, candidateLastSeen := None)
  }

  /** The candidate after one more drifting poll, before any event. */
  function Observed(row: Baseline, snapshotId: nat, structure: Structure, now: Time): Baseline {
    var counted :=
      if row.candidateStructure == Some(structure) then row.(candidateCount := row.candidateCount + 1)
      else row.(candidateStructure := Some(structure), candidateCount := 1, candidateEvent := None,
                candidateFirstSeen := Some(now));
    counted.(candidateSnapshot := Some(snapshotId), candidateLastSeen := Some(now))
  }

  /** Whether a poll raises an event. */
  predicate Confirms(row: Baseline, diff: Diff, snapshotId: nat, structure: Structure, now: Time) {
    diff != NoDiff
    && Observed(row, snapshotId, structure, now).candidateCount >= CONFIRMATION_POLLS
    && Observed(row, snapshotId, structure, now).candidateEvent.None?
  }

  function NextRow(row: Baseline, diff: Diff, snapshotId: nat, structure: Structure, now: Time, eventId: nat): Baseline {
    if diff == NoDiff then Cleared(row)
    else if Confirms(row, diff, snapshotId, structure, now) then
      Observed(row, snapshotId, structure, now).(candidateEvent := Some(eventId))
    else Observed(row, snapshotId, structure, now)
  }

  function SummaryOf(d: Diff): string {
    var added := if d.added != [] then ["added=" + Keys.Dec(|d.added|)] else [];
    var removed := if d.removed != [] then ["removed=" + Keys.Dec(|d.removed|)] else [];
    var changed := if d.typeChanged != map[] then ["type_changed=" + Keys.Dec(|d.typeChanged|)] else [];
    if EventTypeOf(d) == NoEvent then "No schema drift detected."
    else EventTypeName(EventTypeOf(d)) + " drift detected (" + CommaJoined(added + removed + changed) + ")."
  }

  function CommaJoined(parts: seq<string>): string {
    if parts == [] then "" else if |parts| == 1 then parts[0] else parts[0] + ", " + CommaJoined(parts[1..])
  }

  function EventTypeName(e: EventType): string {
    match e case NoEvent => "none" case NonBreaking => "non_breaking" case Breaking => "breaking"
  }

  function SeverityName(s: Severity): string {
    match s
    case NoSeverity => "none"
    case Low => "low"
    case Medium => "medium"
    case High => "high"
    case Critical => "critical"
  }

  function EventFor(source: nat, previous: nat, current: nat, d: Diff): DriftEvent {
    var score := CompatibilityScore(d);
    DriftEvent(source, previous, current, EventTypeOf(d), SeverityOf(EventTypeOf(d), score), d, score, SummaryOf(d))
  }

  predicate Responds(e: DriftEvent) { RequiresIncidentResponse(e.event, e.severity) }

  function DriftReport(source: Incidents.Source, e: DriftEvent): Incidents.Op {
    Incidents.Report(source, Keys.Drift, SeverityName(e.severity), e.summary)
  }

  /** A confirmed event, with the incident transition, observation and agent run of one that needs a response. */
  function Raise(db: Db, source: Incidents.Source, e: DriftEvent, clock: Clock)
    : (r: (Db, seq<Incidents.Transition>))
    ensures IncidentNotifications.InRange(r.1, |r.0.incidents|)
  {
    var recorded := db.(events := db.events + [e]);
    if !Responds(e) then (recorded, [])
    else
      var (incidents, t) := Incidents.ApplyOp(db.incidents, DriftReport(source, e), clock.reported, clock.checked);
      (recorded.(incidents := incidents,
                 observations := db.observations + [Observation(source.id, source.tenantId, |db.events| + 1, e.severity)],
                 agentRuns := db.agentRuns + [AgentRun(|db.observations| + 1)]),
       [t.value])
  }

  /** A poll of a source that has an active baseline, up to the enqueue. */
  function PollAgainst(db: Db, at: nat, source: Incidents.Source, payload: Payload, clock: Clock)
    : (r: (Db, seq<Incidents.Transition>))
    requires at < |db.baselines|
    requires 0 < db.baselines[at].snapshotId <= |db.snapshots|
    ensures IncidentNotifications.InRange(r.1, |r.0.incidents|)
  {
    var row := db.baselines[at];
    var snapshotId := |db.snapshots| + 1;
    var structure := Flattening.Flat(payload, "");
    var diff := DiffContract(Flattening.Flat(db.snapshots[row.snapshotId - 1].payload, ""), structure);
    var recorded := db.(
      snapshots := db.snapshots + [Snapshot(source.id, payload, CompatibilityScore(diff))],
      baselines := db.baselines[at := NextRow(row, diff, snapshotId, structure, clock.seen, |db.events| + 1)]);
    if Confirms(row, diff, snapshotId, structure, clock.seen) then
      Raise(recorded, source, EventFor(source.id, row.snapshotId, snapshotId, diff), clock)
    else (recorded, [])
  }

  function Enqueued(db: Db, transitions: seq<Incidents.Transition>, delivery: Delivery): Result<Db, string>
    requires IncidentNotifications.InRange(transitions, |db.incidents|)
  {
    if !delivery.brokerMode then Ok(db)
    else
      match IncidentNotifications.EnqueueRequests(
              IncidentNotifications.Queued(db.incidents, db.outbox), transitions, delivery.channels)
      case Ok(q) => Ok(db.(incidents := q.incidents, outbox := q.outbox))
      case Err(e) => Err(e)
  }

  /** `create_contract_snapshot` for a live source; Err rolls everything back. */
  function Poll(db: Db, source: Incidents.Source, payload: Payload, clock: Clock, delivery: Delivery): Result<Db, string> {
    match ActiveBaseline(db.baselines, source.id)
    case None =>
      Ok(db.(snapshots := db.snapshots + [Snapshot(source.id, payload, MAX_SCORE)],
             baselines := db.baselines
                        + [FirstBaseline(|db.baselines| + 1, source, |db.snapshots| + 1, clock.seen)]))
    case Some(at) =>
      if !(0 < db.baselines[at].snapshotId <= |db.snapshots|) then Err("Accepted baseline snapshot is missing.")
      else
        var (polled, transitions) := PollAgainst(db, at, source, payload, clock);
        Enqueued(polled, transitions, delivery)
  }

  // ---------- accepting a candidate, on values ----------

  /** `candidate_snapshot_id or baseline.candidate_snapshot_id`: an id of zero counts as not given. */
  function Selected(row: Baseline, requested: Option<nat>): Option<nat> {
    if requested.Some? && requested.value != 0 then requested else row.candidateSnapshot
  }

  function Superseded(row: Baseline, now: Time): Baseline {
    row.(active := false, activeKey := None, supersededAt := Some(now))
  }

  function Promoted(id: nat, row: Baseline, snapshotId: nat, actor: string, now: Time): Baseline {
    Baseline(id, row.sourceId, row.tenantId, snapshotId, Some(row.id), row.version + 1, true,
             Some(BaselineKey(row.sourceId)), actor, now, None, None, None, 0, None, None, None)
  }

  /** `accept_contract_baseline` on the source's active baseline. */
  function Accept(db: Db, source: nat, requested: Option<nat>, actor: string, now: Time): Result<Db, string> {
    match ActiveBaseline(db.baselines, source)
    case None => Err("Contract baseline not established.")
    case Some(at) =>
      var row := db.baselines[at];
      if Selected(row, requested).None? || row.candidateSnapshot.None? then
        Err("No candidate contract is available for acceptance.")
      else if Selected(row, requested) != row.candidateSnapshot then
        Err("The selected snapshot is not the current contract candidate.")
      else
        var id := Selected(row, requested).value;
        if !(0 < id <= |db.snapshots|) || db.snapshots[id - 1].sourceId != row.sourceId then
          Err("The candidate snapshot is unavailable.")
        else
          Ok(db.(baselines := db.baselines[at := Superseded(row, now)]
                            + [Promoted(|db.baselines| + 1, row, id, actor, now)]))
  }

  // ---------- what the two operations write, column by column ----------

  /** Everything but the candidate columns stands. */
  ghost predicate SameBaseline(r: Baseline, r': Baseline) {
    && r'.id == r.id && r'.sourceId == r.sourceId && r'.tenantId == r.tenantId && r'.snapshotId == r.snapshotId
    && r'.promotedFrom == r.promotedFrom && r'.version == r.version && r'.active == r.active && r'.activeKey == r.activeKey
    && r'.acceptedBy == r.acceptedBy && r'.acceptedAt == r.acceptedAt && r'.supersededAt == r.supersededAt
  }

  ghost predicate NoCandidate(r: Baseline) {
    && r.candidateSnapshot == None && r.candidateStructure == None && r.candidateCount == 0
    && r.candidateEvent == None && r.candidateFirstSeen == None && r.candidateLastSeen == None
  }

  /** A poll without drift forgets the candidate; one with drift counts it again or starts a new one. */
  ghost predicate CandidateTracked(r: Baseline, r': Baseline, drifts: bool, snapshotId: nat, structure: Structure, now: Time) {
    && SameBaseline(r, r')
    && if !drifts then NoCandidate(r')
       else
         && r'.candidateSnapshot == Some(snapshotId) && r'.candidateStructure == Some(structure)
         && r'.candidateLastSeen == Some(now)
         && if r.candidateStructure == Some(structure) then
              && r'.candidateCount == r.candidateCount + 1 && r'.candidateEvent == r.candidateEvent
              && r'.candidateFirstSeen == r.candidateFirstSeen
            else r'.candidateCount == 1 && r'.candidateEvent == None && r'.candidateFirstSeen == Some(now)
  }

  /** Version 1 of a source that had no baseline. */
  ghost predicate FirstAccepted(r: Baseline, id: nat, source: Incidents.Source, snapshotId: nat, now: Time) {
    && r.id == id && r.sourceId == source.id && r.tenantId == source.tenantId && r.snapshotId == snapshotId
    && r.promotedFrom == None && r.version == 1 && r.active && r.activeKey == Some(BaselineKey(source.id))
    && r.acceptedBy == "system:first-observation" && r.acceptedAt == now && r.supersededAt == None && NoCandidate(r)
  }

  /** The promoted candidate: the next version, linked to the baseline it replaces. */
  ghost predicate NextAccepted(r: Baseline, r': Baseline, id: nat, actor: string, now: Time) {
    && r'.id == id && r'.sourceId == r.sourceId && r'.tenantId == r.tenantId && Some(r'.snapshotId) == r.candidateSnapshot
    && r'.promotedFrom == Some(r.id) && r'.version == r.version + 1 && r'.active && r'.activeKey == Some(BaselineKey(r.sourceId))
    && r'.acceptedBy == actor && r'.acceptedAt == now && r'.supersededAt == None && NoCandidate(r')
  }

  /** The replaced baseline gives up its key and keeps its history. */
  ghost predicate NowSuperseded(r: Baseline, r': Baseline, now: Time) {
    && !r'.active && r'.activeKey == None && r'.supersededAt == Some(now)
    && r'.id == r.id && r'.sourceId == r.sourceId && r'.tenantId == r.tenantId && r'.snapshotId == r.snapshotId
    && r'.promotedFrom == r.promotedFrom && r'.version == r.version
    && r'.acceptedBy == r.acceptedBy && r'.acceptedAt == r.acceptedAt
    && r'.candidateSnapshot == r.candidateSnapshot && r'.candidateStructure == r.candidateStructure
    && r'.candidateCount == r.candidateCount && r'.candidateEvent == r.candidateEvent
    && r'.candidateFirstSeen == r.candidateFirstSeen && r'.candidateLastSeen == r.candidateLastSeen
  }

  ghost predicate OnlyBaseline(before: seq<Baseline>, after: seq<Baseline>, i: nat) {
    i < |before| <= |after| && forall k | 0 <= k < |before| && k != i :: after[k] == before[k]
  }

  ghost predicate Grew<T>(before: seq<T>, after: seq<T>, last: T) { after == before + [last] }

  /** The event compares the accepted snapshot with the new one and is graded by their difference. */
  ghost predicate EventCompares(e: DriftEvent, source: nat, previous: nat, current: nat, d: Diff) {
    && e.sourceId == source && e.previousSnapshot == previous && e.currentSnapshot == current && e.diff == d
    && Graded(d, e.event, e.severity, e.score)
  }

  /** The first poll of a source accepts what it saw. */
  ghost predicate PolledFirst(before: Db, after: Db, source: Incidents.Source, payload: Payload, now: Time) {
    && Grew(before.snapshots, after.snapshots, Snapshot(source.id, payload, 100))
    && |after.baselines| == |before.baselines| + 1 && after.baselines[..|before.baselines|] == before.baselines
    && FirstAccepted(after.baselines[|before.baselines|], |before.baselines| + 1, source, |before.snapshots| + 1, now)
    && after.events == before.events && after.incidents == before.incidents && after.outbox == before.outbox
    && after.observations == before.observations && after.agentRuns == before.agentRuns
  }

  /** Every later poll scores its snapshot, tracks the candidate, and raises one event at the third sighting in a row. */
  ghost predicate PolledAgain(before: Db, after: Db, at: nat, source: Incidents.Source, payload: Payload, now: Time)
    requires at < |before.baselines| && 0 < before.baselines[at].snapshotId <= |before.snapshots|
  {
    var row, snapshotId, structure := before.baselines[at], |before.snapshots| + 1, Flattening.Flat(payload, "");
    var d := DiffContract(Flattening.Flat(before.snapshots[row.snapshotId - 1].payload, ""), structure);
    && Grew(before.snapshots, after.snapshots, Snapshot(source.id, payload, if Points(d) <= 100 then 100 - Points(d) else 0))
    && |after.baselines| == |before.baselines| && OnlyBaseline(before.baselines, after.baselines, at)
    && exists tracked :: CandidateTracked(row, tracked, Points(d) > 0, snapshotId, structure, now)
         && if Points(d) > 0 && tracked.candidateCount >= 3 && tracked.candidateEvent == None then
              && after.baselines[at] == tracked.(candidateEvent := Some(|before.events| + 1))
              && |after.events| == |before.events| + 1 && after.events[..|before.events|] == before.events
              && EventCompares(after.events[|before.events|], source.id, row.snapshotId, snapshotId, d)
            else after.baselines[at] == tracked && after.events == before.events
  }

  /** What a committed poll leaves. */
  ghost predicate Polled(before: Db, after: Db, source: Incidents.Source, payload: Payload, now: Time) {
    match ActiveBaseline(before.baselines, source.id)
    case None => PolledFirst(before, after, source, payload, now)
    case Some(at) =>
      0 < before.baselines[at].snapshotId <= |before.snapshots| && PolledAgain(before, after, at, source, payload, now)
  }

  lemma PollMeans(db: Db, source: Incidents.Source, payload: Payload, clock: Clock, delivery: Delivery)
    ensures var r := Poll(db, source, payload, clock, delivery);
            r.Ok? ==> Polled(db, r.value, source, payload, clock.seen)
  {
    hide PolledAgain, PollAgainst, Enqueued;
    var at := ActiveBaseline(db.baselines, source.id);
    if at.Some? && 0 < db.baselines[at.value].snapshotId <= |db.snapshots| {
      var polled, transitions := PollAgainst(db, at.value, source, payload, clock).0, PollAgainst(db, at.value, source, payload, clock).1;
      var r := Enqueued(polled, transitions, delivery);
      PollAgainstMeans(db, at.value, source, payload, clock);
      EnqueueKeeps(polled, transitions, delivery);
      if r.Ok? { EnqueuedPolls(db, polled, r.value, at.value, source, payload, clock.seen); }
    }
  }

  lemma EnqueuedPolls(before: Db, polled: Db, after: Db, at: nat, source: Incidents.Source, payload: Payload, now: Time)
    requires at < |before.baselines| && 0 < before.baselines[at].snapshotId <= |before.snapshots|
    requires PolledAgain(before, polled, at, source, payload, now)
    requires after == polled.(incidents := after.incidents, outbox := after.outbox)
    ensures PolledAgain(before, after, at, source, payload, now)
  {
    hide Flattening.Flat, DiffContract, Points, Graded, CandidateTracked;
  }

  lemma PollAgainstMeans(db: Db, at: nat, source: Incidents.Source, payload: Payload, clock: Clock)
    requires at < |db.baselines| && 0 < db.baselines[at].snapshotId <= |db.snapshots|
    ensures PolledAgain(db, PollAgainst(db, at, source, payload, clock).0, at, source, payload, clock.seen)
  {
    hide Flattening.Flat, DiffContract, Points, Graded, CompatibilityScore, SeverityOf, EventTypeOf, CandidateTracked, SummaryOf,
         Incidents.ApplyOp, Responds, Observed;
    var row := db.baselines[at];
    var structure := Flattening.Flat(payload, "");
    var d := DiffContract(Flattening.Flat(db.snapshots[row.snapshotId - 1].payload, ""), structure);
    GradeIsExact(d);
    ScoreIsExact(d);
    TrackedHolds(row, d, |db.snapshots| + 1, structure, clock.seen);
  }

  lemma ScoreIsExact(d: Diff)
    ensures CompatibilityScore(d) == if Points(d) <= 100 then 100 - Points(d) else 0
  {
  }

  lemma TrackedHolds(row: Baseline, d: Diff, snapshotId: nat, structure: Structure, now: Time)
    ensures CandidateTracked(row, if d == NoDiff then Cleared(row) else Observed(row, snapshotId, structure, now),
                             d != NoDiff, snapshotId, structure, now)
  {
  }

  // ---------- the repository, in place ----------

  class ContractRepository {
    var snapshots: seq<Snapshot>
    var baselines: seq<Baseline>
    var events: seq<DriftEvent>
    var observations: seq<Observation>
    var agentRuns: seq<AgentRun>
    var incidents: seq<Incidents.Incident>
    var outbox: seq<NotificationTables.OutboxRow>

    function State(): Db
      reads this
    {
      Db(snapshots, baselines, events, observations, agentRuns, incidents, outbox)
    }

    constructor ()
      ensures State() == Db([], [], [], [], [], [], [])
    {
      snapshots, baselines, events, observations, agentRuns, incidents, outbox := [], [], [], [], [], [], [];
    }

    /** The candidate bookkeeping of one poll; `confirmed` asks for an event. */
    method TrackCandidate(at: nat, diff: Diff, snapshotId: nat, structure: Structure, now: Time)
      returns (confirmed: bool)
      requires at < |baselines|
      modifies this`baselines
      ensures |baselines| == |old(baselines)|
      ensures confirmed == Confirms(old(baselines[at]), diff, snapshotId, structure, now)
      ensures forall eventId ::
        var row := old(baselines)[at];
        old(baselines)[at := NextRow(row, diff, snapshotId, structure, now, eventId)]
        == (if confirmed then baselines[at := baselines[at].(candidateEvent := Some(eventId))] else baselines)
      ensures OnlyBaseline(old(baselines), baselines, at)
      ensures CandidateTracked(old(baselines)[at], baselines[at], diff != NoDiff, snapshotId, structure, now)
      ensures confirmed <==> diff != NoDiff && baselines[at].candidateCount >= 3 && baselines[at].candidateEvent == None
    {
      var row := baselines[at];
      if diff.added == [] && diff.removed == [] && diff.typeChanged == map[] {
        row := row.(candidateSnapshot := None, candidateStructure := None, candidateCount := 0,
                    candidateEvent := None, candidateFirstSeen := None, candidateLastSeen := None);
        baselines := baselines[at := row];
        return false;
      }
      if row.candidateStructure == Some(structure) {
        row := row.(candidateCount := row.candidateCount + 1);
      } else {
        row := row.(candidateStructure := Some(structure), candidateCount := 1);
        row := row.(candidateEvent := None, candidateFirstSeen := Some(now));
      }
      row := row.(candidateSnapshot := Some(snapshotId), candidateLastSeen := Some(now));
      baselines := baselines[at := row];
      return row.candidateCount >= CONFIRMATION_POLLS && row.candidateEvent.None?;
    }

    method RaiseEvent(source: Incidents.Source, e: DriftEvent, clock: Clock)
      returns (transitions: seq<Incidents.Transition>)
      modifies this`events, this`incidents, this`observations, this`agentRuns
      ensures (State(), transitions) == Raise(old(State()), source, e, clock)
    {
      hide Responds;
      transitions := [];
      events := events + [e];
      if Responds(e) {
        var (after, t) := Incidents.ApplyOp(incidents, DriftReport(source, e), clock.reported, clock.checked);
        incidents := after;
        transitions := [t.value];
        observations := observations + [Observation(source.id, source.tenantId, |events|, e.severity)];
        agentRuns := agentRuns + [AgentRun(|observations|)];
      }
    }

    /** What follows once the new snapshot is flushed and an active baseline is found. */
    method CompareWithBaseline(at: nat, source: Incidents.Source, payload: Payload, clock: Clock)
      returns (transitions: seq<Incidents.Transition>, eventId: Option<nat>)
      requires at < |baselines| && snapshots != [] && 0 < baselines[at].snapshotId < |snapshots|
      modifies this
      ensures (State(), transitions) ==
              PollAgainst(old(State()).(snapshots := old(snapshots)[..|old(snapshots)| - 1]), at, source, payload, clock)
      ensures eventId == if |events| > |old(events)| then Some(|events|) else None
    {
      hide Flattening.Flat, DiffContract, CompatibilityScore, EventFor, Raise, Confirms, NextRow;
      ghost var before := State().(snapshots := snapshots[..|snapshots| - 1]);
      var snapshotId := |snapshots|;
      var accepted := baselines[at].snapshotId;
      var baselineFlat := Flattening.FlattenSchema(snapshots[accepted - 1].payload, "");
      var currentFlat := Flattening.FlattenSchema(payload, "");
      var diff := DiffContract(baselineFlat, currentFlat);
      snapshots := snapshots[|snapshots| - 1 := Snapshot(source.id, payload, CompatibilityScore(diff))];
      assert snapshots == before.snapshots + [Snapshot(source.id, payload, CompatibilityScore(diff))];
      var confirmed := TrackCandidate(at, diff, snapshotId, currentFlat, clock.seen);
      ghost var row := before.baselines[at];
      assert before.baselines[at := NextRow(row, diff, snapshotId, currentFlat, clock.seen, |before.events| + 1)]
        == (if confirmed then baselines[at := baselines[at].(candidateEvent := Some(|before.events| + 1))] else baselines);
      transitions, eventId := [], None;
      if confirmed {
        eventId := Some(|events| + 1);
        baselines := baselines[at := baselines[at].(candidateEvent := eventId)];
        RaiseAppendsOneEvent(State(), source, EventFor(source.id, accepted, snapshotId, diff), clock);
        transitions := RaiseEvent(source, EventFor(source.id, accepted, snapshotId, diff), clock);
      }
    }

    /** The outbox half of the transaction; on Err nothing was written. */
    method EnqueueTransitions(transitions: seq<Incidents.Transition>, delivery: Delivery) returns (r: Result<(), string>)
      requires IncidentNotifications.InRange(transitions, |incidents|)
      modifies this`incidents, this`outbox
      ensures match Enqueued(old(State()), transitions, delivery)
              case Ok(after) => r == Ok(()) && State() == after
              case Err(e) => r == Err(e) && State() == old(State())
    {
      hide IncidentNotifications.EnqueueRequests;
      if !delivery.brokerMode {
        return Ok(());
      }
      var queued := IncidentNotifications.EnqueueRequests(
        IncidentNotifications.Queued(incidents, outbox), transitions, delivery.channels);
      if queued.Err? {
        return Err(queued.error);
      }
      incidents, outbox := queued.value.incidents, queued.value.outbox;
      return Ok(());
    }

    /** Returns the ids of the snapshot and of the event; both are None for a missing source. */
    method CreateContractSnapshot(source: Option<Incidents.Source>, payload: Payload, clock: Clock, delivery: Delivery)
      returns (r: Result<(Option<nat>, Option<nat>), string>)
      modifies this
      ensures source.None? ==> r == Ok((None, None)) && State() == old(State())
      ensures source.Some? ==>
        match Poll(old(State()), source.value, payload, clock, delivery)
        case Ok(after) => State() == after
          && r == Ok((Some(|after.snapshots|), if |after.events| > |old(events)| then Some(|after.events|) else None))
        case Err(e) => r == Err(e) && State() == old(State())
      ensures source.Some? && r.Ok? ==> Polled(old(State()), State(), source.value, payload, clock.seen)
    {
      hide PollAgainst, Enqueued, Polled;
      if source.None? {
        return Ok((None, None));
      }
      var src := source.value;
      var saved := State();
      PollMeans(saved, src, payload, clock, delivery);
      snapshots := snapshots + [Snapshot(src.id, payload, MAX_SCORE)];
      assert State().(snapshots := snapshots[..|snapshots| - 1]) == saved;
      var found := ActiveBaseline(baselines, src.id);
      if found.None? {
        baselines := baselines + [FirstBaseline(|baselines| + 1, src, |snapshots|, clock.seen)];
        return Ok((Some(|snapshots|), None));
      }
      if !(0 < baselines[found.value].snapshotId < |snapshots|) {
        snapshots := saved.snapshots;
        return Err("Accepted baseline snapshot is missing.");
      }
      var transitions, eventId := CompareWithBaseline(found.value, src, payload, clock);
      PollAppendsOneSnapshot(saved, found.value, src, payload, clock);
      ghost var polled := State();
      var queued := EnqueueTransitions(transitions, delivery);
      EnqueueKeeps(polled, transitions, delivery);
      if queued.Err? {
        snapshots, baselines, events := saved.snapshots, saved.baselines, saved.events;
        observations, agentRuns := saved.observations, saved.agentRuns;
        incidents, outbox := saved.incidents, saved.outbox;
        return Err(queued.error);
      }
      return Ok((Some(|snapshots|), eventId));
    }

    method AcceptContractBaseline(source: nat, requested: Option<nat>, actor: string, now: Time)
      returns (r: Result<nat, string>)
      modifies this`baselines
      ensures match Accept(old(State()), source, requested, actor, now)
              case Ok(after) => State() == after && r == Ok(|after.baselines|)
              case Err(e) => r == Err(e) && baselines == old(baselines)
      ensures r.Ok? <==>
        var at := ActiveBaseline(old(baselines), source);
        && at.Some? && Acceptable(old(State()), old(baselines)[at.value], requested)
      ensures r.Ok? ==>
        var at, n := ActiveBaseline(old(baselines), source).value, |old(baselines)|;
        && r.value == |baselines| == n + 1 && OnlyBaseline(old(baselines), baselines, at)
        && NowSuperseded(old(baselines)[at], baselines[at], now)
        && NextAccepted(old(baselines)[at], baselines[n], n + 1, actor, now)
    {
      AcceptMeans(State(), source, requested, actor, now);
      hide Promoted, Selected, Superseded, Acceptable, NowSuperseded, NextAccepted;
      var found := ActiveBaseline(baselines, source);
      if found.None? {
        return Err("Contract baseline not established.");
      }
      var row := baselines[found.value];
      var selected := Selected(row, requested);
      if selected.None? || row.candidateSnapshot.None? {
        return Err("No candidate contract is available for acceptance.");
      }
      if selected != row.candidateSnapshot {
        return Err("The selected snapshot is not the current contract candidate.");
      }
      var id := selected.value;
      if !(0 < id <= |snapshots|) || snapshots[id - 1].sourceId != row.sourceId {
        return Err("The candidate snapshot is unavailable.");
      }
      baselines := baselines[found.value := Superseded(row, now)];
      baselines := baselines + [Promoted(|baselines| + 1, row, id, actor, now)];
      return Ok(|baselines|);
    }
  }

  /** There is a candidate, the request is for it or for none in particular, and its snapshot is one of the source's. */
  ghost predicate Acceptable(db: Db, row: Baseline, requested: Option<nat>) {
    match row.candidateSnapshot
    case None => false
    case Some(id) =>
      && (requested == None || requested == Some(0) || requested == Some(id))
      && 0 < id <= |db.snapshots| && db.snapshots[id - 1].sourceId == row.sourceId
  }

  lemma AcceptMeans(db: Db, source: nat, requested: Option<nat>, actor: string, now: Time)
    ensures var at, r := ActiveBaseline(db.baselines, source), Accept(db, source, requested, actor, now);
            && (r.Ok? <==> at.Some? && Acceptable(db, db.baselines[at.value], requested))
            && (r.Ok? ==>
                  var n := |db.baselines|;
                  && |r.value.baselines| == n + 1 && OnlyBaseline(db.baselines, r.value.baselines, at.value)
                  && NowSuperseded(db.baselines[at.value], r.value.baselines[at.value], now)
                  && NextAccepted(db.baselines[at.value], r.value.baselines[n], n + 1, actor, now))
  {
  }

  lemma RaiseAppendsOneEvent(db: Db, source: Incidents.Source, e: DriftEvent, clock: Clock)
    ensures Raise(db, source, e, clock).0.events == db.events + [e]
  {
    hide Responds;
  }

  lemma PollAppendsOneSnapshot(db: Db, at: nat, source: Incidents.Source, payload: Payload, clock: Clock)
    requires at < |db.baselines| && 0 < db.baselines[at].snapshotId <= |db.snapshots|
    ensures |PollAgainst(db, at, source, payload, clock).0.snapshots| == |db.snapshots| + 1
  {
    hide Flattening.Flat, DiffContract, CompatibilityScore, EventFor, Incidents.ApplyOp, Confirms, NextRow;
  }

  /** Enqueuing touches incidents and the outbox alone. */
  lemma EnqueueKeeps(db: Db, transitions: seq<Incidents.Transition>, delivery: Delivery)
    requires IncidentNotifications.InRange(transitions, |db.incidents|)
    ensures var r := Enqueued(db, transitions, delivery);
            r.Ok? ==> r.value == db.(incidents := r.value.incidents, outbox := r.value.outbox)
  {
    hide IncidentNotifications.EnqueueRequests;
  }
}
