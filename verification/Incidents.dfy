/** Dependency incidents: deduplicated lifecycles driven by health samples.

    A table is a sequence of rows; a row's id is its position plus one. */
module Incidents {
  import opened Wrappers
  import opened Keys

  type Time = int

  datatype Status = Open | Acknowledged | Resolved

  datatype Source = Source(
    id: nat, tenantId: Option<nat>, failureThreshold: nat, latencyThreshold: Option<real>, cooldown: int)

  datatype Sample = Sample(sourceId: nat, sampledAt: Time, isSuccess: bool, latency: real)

  datatype Incident = Incident(
    sourceId: nat, tenantId: Option<nat>, trigger: Trigger, fingerprint: string, activeKey: Option<string>,
    status: Status, severity: string, summary: string, occurrence: nat, firstSeen: Time, lastSeen: Time,
    acknowledgedAt: Option<Time>, acknowledgedBy: Option<string>,
    resolvedAt: Option<Time>, resolvedBy: Option<string>, lastNotification: Option<Time>)

  datatype Change = Opened | Deduplicated | Closed

  /** `incident` is the position of the row in the table. */
  datatype Transition = Transition(incident: nat, change: Change, shouldNotify: bool)

  /** What one trigger asks of the incident table. */
  datatype Op =
    | Report(source: Source, trigger: Trigger, severity: string, summary: string)
    | Recover(source: Source, trigger: Trigger, actor: string)

  function KeyOf(source: Source, trigger: Trigger): string {
    Fingerprint(source.tenantId, source.id, trigger)
  }

  function OpKey(op: Op): string { KeyOf(op.source, op.trigger) }

  // ---------- lookups ----------

  /** The first row carrying an active key. */
  function ActiveAt(incidents: seq<Incident>, key: string): (r: Option<nat>)
    ensures r.Some? ==> r.value < |incidents| && incidents[r.value].activeKey == Some(key)
    ensures r.Some? ==> forall i :: 0 <= i < r.value ==> incidents[i].activeKey != Some(key)
    ensures r.None? ==> forall i :: 0 <= i < |incidents| ==> incidents[i].activeKey != Some(key)
  {
    if incidents == [] then None
    else
      var last := |incidents| - 1;
      var earlier := ActiveAt(incidents[..last], key);
      if earlier.Some? then earlier
      else if incidents[last].activeKey == Some(key) then Some(last)
      else None
  }

  predicate NotificationDue(incident: Incident, cooldown: int, later: Time) {
    incident.lastNotification.None? || later - incident.lastNotification.value >= cooldown
  }

  // ---------- transitions, on values ----------

  function NewIncident(op: Op, now: Time): Incident
    requires op.Report?
  {
    Incident(op.source.id, op.source.tenantId, op.trigger, OpKey(op), Some(OpKey(op)), Open, op.severity,
             op.summary, 1, now, now, None, None, None, None, None)
  }

  /** Effect of one op; `now` stamps the row and `later >= now` is the second clock reading, the one
      the cooldown is judged by. */
  function ApplyOp(incidents: seq<Incident>, op: Op, now: Time, later: Time): (seq<Incident>, Option<Transition>) {
    var at := ActiveAt(incidents, OpKey(op));
    match op
    case Report(source, trigger, severity, summary) =>
      if at.None? then
        (incidents + [NewIncident(op, now)], Some(Transition(|incidents|, Opened, true)))
      else
        var row := incidents[at.value].(lastSeen := now, occurrence := incidents[at.value].occurrence + 1,
                                        severity := severity, summary := summary);
        (incidents[at.value := row],
         Some(Transition(at.value, Deduplicated, NotificationDue(row, source.cooldown, later))))
    case Recover(source, trigger, actor) =>
      if at.None? then (incidents, None)
      else
        var row := incidents[at.value].(status := Resolved, activeKey := None, resolvedAt := Some(now),
                                        resolvedBy := Some(actor), lastSeen := now);
        (incidents[at.value := row], Some(Transition(at.value, Closed, false)))
  }

  function ApplyOps(incidents: seq<Incident>, ops: seq<Op>, now: Time, later: Time): (r: (seq<Incident>, seq<Transition>))
    ensures |r.0| >= |incidents|
    ensures forall i | 0 <= i < |r.1| :: r.1[i].incident < |r.0|
  {
    if ops == [] then (incidents, [])
    else
      var (before, ts) := ApplyOps(incidents, ops[..|ops| - 1], now, later);
      var (after, t) := ApplyOp(before, ops[|ops| - 1], now, later);
      (after, if t.Some? then ts + [t.value] else ts)
  }

  lemma SingleOp(incidents: seq<Incident>, op: Op, now: Time, later: Time)
    ensures ApplyOps(incidents, [op], now, later).0 == ApplyOp(incidents, op, now, later).0
    ensures ApplyOps(incidents, [op], now, later).1 ==
            var t := ApplyOp(incidents, op, now, later).1; if t.Some? then [t.value] else []
  {
    hide ApplyOp;
    assert [op][..|[op]| - 1] == [];
  }

  lemma {:induction false} OpsConcat(incidents: seq<Incident>, a: seq<Op>, b: seq<Op>, now: Time, later: Time)
    ensures var middle := ApplyOps(incidents, a, now, later);
            var end := ApplyOps(middle.0, b, now, later);
            && ApplyOps(incidents, a + b, now, later).0 == end.0
            && ApplyOps(incidents, a + b, now, later).1 == middle.1 + end.1
  {
    hide ApplyOp;
    if b == [] {
      assert a + b == a;
    } else {
      OpsConcat(incidents, a, b[..|b| - 1], now, later);
      assert (a + b)[..|a + b| - 1] == a + b[..|b| - 1];
      assert (a + b)[|a + b| - 1] == b[|b| - 1];
    }
  }

  function Acknowledge(incidents: seq<Incident>, i: nat, actor: string, now: Time): Result<seq<Incident>, string>
    requires i < |incidents|
  {
    if incidents[i].status != Open then Err("Only an open incident can be acknowledged.")
    else Ok(incidents[i := incidents[i].(status := Acknowledged, acknowledgedAt := Some(now),
                                         acknowledgedBy := Some(actor))])
  }

  function ResolveById(incidents: seq<Incident>, i: nat, actor: string, now: Time): Result<seq<Incident>, string>
    requires i < |incidents|
  {
    if incidents[i].status == Resolved then Err("Only an active incident can be resolved.")
    else Ok(incidents[i := incidents[i].(status := Resolved, activeKey := None, resolvedAt := Some(now),
                                         resolvedBy := Some(actor))])
  }

  // ---------- health policy ----------

  function SamplesOf(samples: seq<Sample>, source: nat): seq<Sample> {
    if samples == [] then []
    else
      var rest := SamplesOf(samples[..|samples| - 1], source);
      var last := samples[|samples| - 1];
      if last.sourceId == source then rest + [last] else rest
  }

  /** Place a sample into a list ordered by sampled_at, newest first. */
  function InsertNewest(x: Sample, sorted: seq<Sample>): seq<Sample> {
    if sorted == [] || sorted[0].sampledAt <= x.sampledAt then [x] + sorted
    else [sorted[0]] + InsertNewest(x, sorted[1..])
  }

  function NewestFirst(xs: seq<Sample>): seq<Sample> {
    if xs == [] then [] else InsertNewest(xs[|xs| - 1], NewestFirst(xs[..|xs| - 1]))
  }

  /** `ORDER BY sampled_at DESC LIMIT threshold` over one source's samples. */
  function Recent(samples: seq<Sample>, source: nat, limit: nat): seq<Sample> {
    var sorted := NewestFirst(SamplesOf(samples, source));
    if |sorted| <= limit then sorted else sorted[..limit]
  }

  predicate Slow(x: Sample, threshold: real) { x.isSuccess && x.latency >= threshold }
  predicate Fast(x: Sample, threshold: real) { x.isSuccess && x.latency < threshold }

  function AvailabilityOps(source: Source, recent: seq<Sample>, sample: Sample): seq<Op> {
    if |recent| >= source.failureThreshold && forall x | x in recent :: !x.isSuccess then
      [Report(source, Availability, "critical", "consecutive probes failed")]
    else if sample.isSuccess then [Recover(source, Availability, "health-probe-recovery")]
    else []
  }

  function LatencyOps(source: Source, recent: seq<Sample>, sample: Sample): seq<Op> {
    if source.latencyThreshold.None? then []
    else
      var threshold := source.latencyThreshold.value;
      if |recent| >= source.failureThreshold && forall x | x in recent :: Slow(x, threshold) then
        [Report(source, Latency, "warning", "consecutive probes exceeded the latency threshold")]
      else if Fast(sample, threshold) then [Recover(source, Latency, "health-probe-recovery")]
      else []
  }

  function HealthOps(source: Source, recent: seq<Sample>, sample: Sample): seq<Op> {
    AvailabilityOps(source, recent, sample) + LatencyOps(source, recent, sample)
  }

  // ---------- what the operations do to a row, column by column ----------

  /** What no operation changes. */
  ghost predicate SameIncident(r: Incident, r': Incident) {
    && r'.sourceId == r.sourceId && r'.tenantId == r.tenantId && r'.trigger == r.trigger
    && r'.fingerprint == r.fingerprint && r'.firstSeen == r.firstSeen && r'.lastNotification == r.lastNotification
  }

  /** A first occurrence: open, seen once, and never acknowledged, resolved or announced. */
  ghost predicate JustOpened(r: Incident, source: Source, trigger: Trigger, severity: string, summary: string, now: Time) {
    && r.sourceId == source.id && r.tenantId == source.tenantId && r.trigger == trigger
    && r.fingerprint == Fingerprint(source.tenantId, source.id, trigger) && r.activeKey == Some(r.fingerprint)
    && r.status == Open && r.severity == severity && r.summary == summary
    && r.occurrence == 1 && r.firstSeen == now && r.lastSeen == now
    && r.acknowledgedAt == None && r.acknowledgedBy == None && r.resolvedAt == None && r.resolvedBy == None
    && r.lastNotification == None
  }

  /** One more occurrence of an active incident, which stays as acknowledged as it was. */
  ghost predicate SeenAgain(r: Incident, r': Incident, severity: string, summary: string, now: Time) {
    && SameIncident(r, r') && r'.occurrence == r.occurrence + 1 && r'.lastSeen == now
    && r'.severity == severity && r'.summary == summary && r'.status == r.status && r'.activeKey == r.activeKey
    && r'.acknowledgedAt == r.acknowledgedAt && r'.acknowledgedBy == r.acknowledgedBy
    && r'.resolvedAt == r.resolvedAt && r'.resolvedBy == r.resolvedBy
  }

  /** A resolved row has given its active key up. */
  ghost predicate NowResolved(r: Incident, r': Incident, actor: string, now: Time) {
    && SameIncident(r, r') && r'.status == Resolved && r'.activeKey == None
    && r'.resolvedAt == Some(now) && r'.resolvedBy == Some(actor)
    && r'.occurrence == r.occurrence && r'.severity == r.severity && r'.summary == r.summary
    && r'.acknowledgedAt == r.acknowledgedAt && r'.acknowledgedBy == r.acknowledgedBy
  }

  ghost predicate NowAcknowledged(r: Incident, r': Incident, actor: string, now: Time) {
    && SameIncident(r, r') && r'.status == Acknowledged && r'.activeKey == r.activeKey
    && r'.acknowledgedAt == Some(now) && r'.acknowledgedBy == Some(actor)
    && r'.resolvedAt == r.resolvedAt && r'.resolvedBy == r.resolvedBy && r'.lastSeen == r.lastSeen
    && r'.occurrence == r.occurrence && r'.severity == r.severity && r'.summary == r.summary
  }

  /** Only row `i` may differ. */
  ghost predicate OnlyIncident(before: seq<Incident>, after: seq<Incident>, i: nat) {
    i < |before| == |after| && forall k | 0 <= k < |before| && k != i :: after[k] == before[k]
  }

  /** No row carries the active key of this condition. */
  ghost predicate NotActive(incidents: seq<Incident>, source: Source, trigger: Trigger) {
    forall i | 0 <= i < |incidents| :: incidents[i].activeKey != Some(Fingerprint(source.tenantId, source.id, trigger))
  }

  /** A report opens an incident, or counts on the active one and notifies once the cooldown has passed. */
  ghost predicate Reported(before: seq<Incident>, after: seq<Incident>, t: Transition, source: Source, trigger: Trigger,
                           severity: string, summary: string, now: Time, later: Time)
  {
    if NotActive(before, source, trigger) then
      && |after| == |before| + 1 && after[..|before|] == before && JustOpened(after[|before|], source, trigger, severity, summary, now)
      && t == Transition(|before|, Opened, true)
    else
      && OnlyIncident(before, after, t.incident)
      && before[t.incident].activeKey == Some(Fingerprint(source.tenantId, source.id, trigger))
      && SeenAgain(before[t.incident], after[t.incident], severity, summary, now) && t.change == Deduplicated
      && (t.shouldNotify <==> match before[t.incident].lastNotification
                              case None => true
                              case Some(last) => later - last >= source.cooldown)
  }

  /** A recovery resolves the active incident without a notification, or finds none. */
  ghost predicate RecoveredFrom(before: seq<Incident>, after: seq<Incident>, t: Option<Transition>, source: Source,
                                trigger: Trigger, actor: string, now: Time)
  {
    if NotActive(before, source, trigger) then t == None && after == before
    else
      && t.Some? && OnlyIncident(before, after, t.value.incident) && t.value.change == Closed && !t.value.shouldNotify
      && before[t.value.incident].activeKey == Some(Fingerprint(source.tenantId, source.id, trigger))
      && NowResolved(before[t.value.incident], after[t.value.incident], actor, now)
      && after[t.value.incident].lastSeen == now
  }

  // ---------- the repository, in place ----------

  /** The incident and sample tables of one database. */
  class IncidentRepository {
    var incidents: seq<Incident>
    var samples: seq<Sample>

    constructor ()
      ensures incidents == [] && samples == []
    {
      incidents, samples := [], [];
    }

    method OpenOrUpdateIncident(source: Source, trigger: Trigger, severity: string, summary: string,
                                now: Time, later: Time)
      returns (t: Transition)
      modifies this`incidents
      ensures (incidents, Some(t)) == ApplyOp(old(incidents), Report(source, trigger, severity, summary), now, later)
      ensures Reported(old(incidents), incidents, t, source, trigger, severity, summary, now, later)
    {
      hide Fingerprint;
      var key := KeyOf(source, trigger);
      var found := ActiveAt(incidents, key);
      if found.None? {
        var row := Incident(source.id, source.tenantId, trigger, key, Some(key), Open, severity, summary, 1,
                            now, now, None, None, None, None, None);
        incidents := incidents + [row];
        return Transition(|incidents| - 1, Opened, true);
      }
      var i := found.value;
      var row := incidents[i];
      row := row.(lastSeen := now);
      row := row.(occurrence := row.occurrence + 1);
      row := row.(severity := severity);
      row := row.(summary := summary);
      incidents := incidents[i := row];
      return Transition(i, Deduplicated, NotificationDue(row, source.cooldown, later));
    }

    method ResolveActiveIncident(source: Source, trigger: Trigger, actor: string, now: Time)
      returns (t: Option<Transition>)
      modifies this`incidents
      ensures forall later :: (incidents, t) == ApplyOp(old(incidents), Recover(source, trigger, actor), now, later)
      ensures RecoveredFrom(old(incidents), incidents, t, source, trigger, actor, now)
    {
      hide Fingerprint;
      var found := ActiveAt(incidents, KeyOf(source, trigger));
      if found.None? {
        return None;
      }
      var row := incidents[found.value];
      row := row.(status := Resolved, activeKey := None);
      row := row.(resolvedAt := Some(now), resolvedBy := Some(actor));
      row := row.(lastSeen := now);
      incidents := incidents[found.value := row];
      return Some(Transition(found.value, Closed, false));
    }

    /** The availability half of `reconcile_health_incidents`. */
    method ReconcileAvailability(source: Source, recent: seq<Sample>, sample: Sample, now: Time, later: Time)
      returns (transitions: seq<Transition>)
      modifies this`incidents
      ensures (incidents, transitions) == ApplyOps(old(incidents), AvailabilityOps(source, recent, sample), now, later)
    {
      transitions := [];
      if |recent| >= source.failureThreshold && forall x | x in recent :: !x.isSuccess {
        SingleOp(incidents, Report(source, Availability, "critical", "consecutive probes failed"), now, later);
        var t := OpenOrUpdateIncident(source, Availability, "critical", "consecutive probes failed", now, later);
        transitions := [t];
      } else if sample.isSuccess {
        SingleOp(incidents, Recover(source, Availability, "health-probe-recovery"), now, later);
        var t := ResolveActiveIncident(source, Availability, "health-probe-recovery", now);
        if t.Some? { transitions := [t.value]; }
      }
    }

    /** The latency half, skipped for a source without a latency threshold. */
    method ReconcileLatency(source: Source, recent: seq<Sample>, sample: Sample, now: Time, later: Time)
      returns (transitions: seq<Transition>)
      modifies this`incidents
      ensures (incidents, transitions) == ApplyOps(old(incidents), LatencyOps(source, recent, sample), now, later)
    {
      transitions := [];
      if source.latencyThreshold.None? {
        return;
      }
      var limit := source.latencyThreshold.value;
      if |recent| >= source.failureThreshold && forall x | x in recent :: Slow(x, limit) {
        SingleOp(incidents, Report(source, Latency, "warning", "consecutive probes exceeded the latency threshold"), now, later);
        var t := OpenOrUpdateIncident(source, Latency, "warning",
                                      "consecutive probes exceeded the latency threshold", now, later);
        transitions := [t];
      } else if Fast(sample, limit) {
        SingleOp(incidents, Recover(source, Latency, "health-probe-recovery"), now, later);
        var t := ResolveActiveIncident(source, Latency, "health-probe-recovery", now);
        if t.Some? { transitions := [t.value]; }
      }
    }

    /** Apply both policies after the sample row was flushed. */
    method ReconcileHealthIncidents(source: Source, sample: Sample, now: Time, later: Time)
      returns (transitions: seq<Transition>)
      modifies this`incidents
      ensures (incidents, transitions) ==
              ApplyOps(old(incidents), HealthOps(source, Recent(samples, source.id, source.failureThreshold), sample),
                       now, later)
    {
      var recent := Recent(samples, source.id, source.failureThreshold);
      OpsConcat(incidents, AvailabilityOps(source, recent, sample), LatencyOps(source, recent, sample), now, later);
      var first := ReconcileAvailability(source, recent, sample, now, later);
      var second := ReconcileLatency(source, recent, sample, now, later);
      transitions := first + second;
    }

    method AcknowledgeIncident(i: nat, actor: string, now: Time) returns (r: Result<(), string>)
      requires i < |incidents|
      modifies this`incidents
      ensures match Acknowledge(old(incidents), i, actor, now)
              case Ok(after) => r == Ok(()) && incidents == after
              case Err(e) => r == Err(e) && incidents == old(incidents)
      ensures r.Ok? <==> old(incidents)[i].status == Open
      ensures if r.Ok? then OnlyIncident(old(incidents), incidents, i) && NowAcknowledged(old(incidents)[i], incidents[i], actor, now)
              else incidents == old(incidents)
    {
      if incidents[i].status != Open {
        return Err("Only an open incident can be acknowledged.");
      }
      var row := incidents[i];
      row := row.(status := Acknowledged);
      row := row.(acknowledgedAt := Some(now), acknowledgedBy := Some(actor));
      incidents := incidents[i := row];
      return Ok(());
    }

    method ResolveIncident(i: nat, actor: string, now: Time) returns (r: Result<(), string>)
      requires i < |incidents|
      modifies this`incidents
      ensures match ResolveById(old(incidents), i, actor, now)
              case Ok(after) => r == Ok(()) && incidents == after
              case Err(e) => r == Err(e) && incidents == old(incidents)
      ensures r.Ok? <==> old(incidents)[i].status == Open || old(incidents)[i].status == Acknowledged
      ensures if r.Ok? then OnlyIncident(old(incidents), incidents, i) && NowResolved(old(incidents)[i], incidents[i], actor, now)
                            && incidents[i].lastSeen == old(incidents)[i].lastSeen
              else incidents == old(incidents)
    {
      if incidents[i].status != Open && incidents[i].status != Acknowledged {
        return Err("Only an active incident can be resolved.");
      }
      var row := incidents[i];
      row := row.(status := Resolved, activeKey := None);
      row := row.(resolvedAt := Some(now), resolvedBy := Some(actor));
      incidents := incidents[i := row];
      return Ok(());
    }
  }
}
