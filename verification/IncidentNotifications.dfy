/** Turning incident transitions into outbox requests, inside the incident's own transaction. */
module IncidentNotifications {
  import opened Wrappers
  import opened Keys
  import Incidents
  import opened NotificationTables

  type Incident = Incidents.Incident
  type Transition = Incidents.Transition

  /** The request event of an incident row; the row's id is its position plus one. */
  function RequestFor(incident: Incident, position: nat, channels: seq<Channel>): RequestEvent {
    RequestEvent(MessageId(position + 1, incident.occurrence), position + 1, incident.sourceId, incident.tenantId,
                 incident.severity, incident.summary, incident.trigger, incident.occurrence, incident.lastSeen,
                 channels)
  }

  datatype Queued = Queued(incidents: seq<Incident>, outbox: seq<OutboxRow>)

  predicate InRange(transitions: seq<Transition>, n: nat) {
    forall i | 0 <= i < |transitions| :: transitions[i].incident < n
  }

  /** Err is the exception that makes the caller roll the whole incident transaction back. */
  function EnqueueEach(q: Queued, transitions: seq<Transition>, channels: seq<Channel>): (r: Result<Queued, string>)
    requires InRange(transitions, |q.incidents|)
    ensures r.Ok? ==> |r.value.incidents| == |q.incidents|
  {
    if transitions == [] then Ok(q)
    else
      var t := transitions[|transitions| - 1];
      var before := EnqueueEach(q, transitions[..|transitions| - 1], channels);
      if before.Err? || !t.shouldNotify then before
      else
        var row := before.value.incidents[t.incident];
        var event := RequestFor(row, t.incident, channels);
        if !ValidRequest(event) then Err("validation")
        else Ok(Queued(
          before.value.incidents[t.incident := row.(lastNotification := Some(row.lastSeen))],
          AddOutbox(before.value.outbox, RequestKey(event.messageId), Request(event), event.tenantId)))
  }

  /** In broker mode an empty channel list is refused even when nothing is due. */
  function EnqueueRequests(q: Queued, transitions: seq<Transition>, channels: seq<Channel>): (r: Result<Queued, string>)
    requires InRange(transitions, |q.incidents|)
    ensures r.Ok? ==> |r.value.incidents| == |q.incidents|
  {
    if channels == [] then Err("Broker notification delivery requires at least one valid default channel.")
    else EnqueueEach(q, transitions, channels)
  }

  // ---------- what an enqueue leaves behind ----------

  /** Some transition asks for a notification of this incident. */
  ghost predicate Announces(transitions: seq<Transition>, i: nat) {
    exists k | 0 <= k < |transitions| :: transitions[k].incident == i && transitions[k].shouldNotify
  }

  /** The event speaks of the incident as it stands. */
  ghost predicate Tells(e: RequestEvent, r: Incident, i: nat, channels: seq<Channel>) {
    && e.messageId == MessageId(i + 1, r.occurrence) && e.incidentId == i + 1 && e.sourceId == r.sourceId
    && e.tenantId == r.tenantId && e.severity == r.severity && e.summary == r.summary && e.trigger == r.trigger
    && e.occurrence == r.occurrence && e.occurredAt == r.lastSeen && e.channels == channels
  }

  /** Announced rows are stamped with their last occurrence, the others stand. */
  ghost predicate Stamped(before: seq<Incident>, after: seq<Incident>, transitions: seq<Transition>) {
    && |after| == |before|
    && forall i | 0 <= i < |before| ::
         after[i] == if Announces(transitions, i) then before[i].(lastNotification := Some(before[i].lastSeen)) else before[i]
  }

  /** A row asking for one announced incident, not yet attempted. */
  ghost predicate AsksFor(row: OutboxRow, incidents: seq<Incident>, i: nat, channels: seq<Channel>) {
    && i < |incidents| && row.payload.Request? && Tells(row.payload.request, incidents[i], i, channels)
    && row.key == RequestKey(row.payload.request.messageId) && row.tenantId == incidents[i].tenantId
    && row.publishedAt == None && row.attempts == 0 && row.nextAttemptAt == None && row.leaseExpiresAt == None
    && row.claimToken == None && row.lastError == None
  }

  ghost predicate AsksForSome(row: OutboxRow, incidents: seq<Incident>, transitions: seq<Transition>, channels: seq<Channel>) {
    exists i: nat :: Announces(transitions, i) && AsksFor(row, incidents, i, channels)
  }

  ghost predicate HasKey(outbox: seq<OutboxRow>, key: string) {
    exists n | 0 <= n < |outbox| :: outbox[n].key == key
  }

  /** The outbox gained requests of announced incidents alone, and holds one of each. */
  ghost predicate Asked(incidents: seq<Incident>, before: seq<OutboxRow>, after: seq<OutboxRow>, transitions: seq<Transition>,
                        channels: seq<Channel>)
  {
    && |before| <= |after| && after[..|before|] == before
    && (forall n | |before| <= n < |after| :: AsksForSome(after[n], incidents, transitions, channels))
    && forall i | 0 <= i < |incidents| && Announces(transitions, i) ::
         HasKey(after, RequestKey(MessageId(i + 1, incidents[i].occurrence)))
  }

  /** The enqueue succeeds exactly when there is a channel and every announced incident makes a valid request. */
  ghost predicate Enqueueable(incidents: seq<Incident>, transitions: seq<Transition>, channels: seq<Channel>) {
    forall i | 0 <= i < |incidents| && Announces(transitions, i) ::
      exists e :: ValidRequest(e) && Tells(e, incidents[i], i, channels)
  }

  lemma RequestTells(r: Incident, i: nat, channels: seq<Channel>, e: RequestEvent)
    ensures Tells(RequestFor(r, i, channels), r, i, channels)
    ensures Tells(e, r, i, channels) ==> e == RequestFor(r, i, channels)
  {
  }

  /** One more transition. */
  lemma AnnouncesNext(transitions: seq<Transition>, t: Transition, i: nat)
    ensures Announces(transitions + [t], i) <==> Announces(transitions, i) || (t.incident == i && t.shouldNotify)
  {
    var all := transitions + [t];
    if Announces(transitions, i) {
      var k :| 0 <= k < |transitions| && transitions[k].incident == i && transitions[k].shouldNotify;
      assert all[k] == transitions[k];
    }
    if t.incident == i && t.shouldNotify { assert all[|transitions|] == t; }
  }

  lemma StampedNext(before: seq<Incident>, middle: seq<Incident>, transitions: seq<Transition>, t: Transition)
    requires t.incident < |before| && Stamped(before, middle, transitions)
    ensures Stamped(before, if t.shouldNotify then middle[t.incident := middle[t.incident].(lastNotification := Some(middle[t.incident].lastSeen))]
                            else middle, transitions + [t])
  {
    hide Announces;
    forall i: nat | i < |before|
      ensures Announces(transitions + [t], i) <==> Announces(transitions, i) || (t.incident == i && t.shouldNotify)
    {
      AnnouncesNext(transitions, t, i);
    }
  }

  lemma AskedNext(incidents: seq<Incident>, before: seq<OutboxRow>, middle: seq<OutboxRow>, transitions: seq<Transition>,
                  t: Transition, channels: seq<Channel>)
    requires t.incident < |incidents| && Asked(incidents, before, middle, transitions, channels)
    ensures var e := RequestFor(incidents[t.incident], t.incident, channels);
            Asked(incidents, before,
                  if t.shouldNotify then AddOutbox(middle, RequestKey(e.messageId), Request(e), e.tenantId) else middle,
                  transitions + [t], channels)
  {
    hide Announces, AsksForSome, HasKey, MessageId, RequestKey, AddOutbox;
    var e := RequestFor(incidents[t.incident], t.incident, channels);
    var key := RequestKey(e.messageId);
    var after := if t.shouldNotify then AddOutbox(middle, key, Request(e), e.tenantId) else middle;
    forall i: nat ensures Announces(transitions + [t], i) <==> Announces(transitions, i) || (t.incident == i && t.shouldNotify) {
      AnnouncesNext(transitions, t, i);
    }
    AddOutboxAdds(middle, key, Request(e), e.tenantId);
    forall n | |before| <= n < |after| ensures AsksForSome(after[n], incidents, transitions + [t], channels) {
      if n < |middle| {
        StillAsks(middle[n], incidents, transitions, t, channels);
      } else {
        NewRowAsks(incidents, transitions, t, channels);
      }
    }
    forall i | 0 <= i < |incidents| && Announces(transitions + [t], i)
      ensures HasKey(after, RequestKey(MessageId(i + 1, incidents[i].occurrence)))
    {
      if Announces(transitions, i) { KeepsKeys(middle, after, RequestKey(MessageId(i + 1, incidents[i].occurrence))); }
    }
  }

  lemma AddOutboxAdds(outbox: seq<OutboxRow>, key: string, payload: Payload, tenantId: Option<nat>)
    ensures var after := AddOutbox(outbox, key, payload, tenantId);
            && |outbox| <= |after| && after[..|outbox|] == outbox && HasKey(after, key)
            && forall n | |outbox| <= n < |after| :: after[n] == NewOutboxRow(key, payload, tenantId)
  {
    if KeyAt(outbox, key).None? { assert AddOutbox(outbox, key, payload, tenantId)[|outbox|].key == key; }
  }

  lemma KeepsKeys(outbox: seq<OutboxRow>, after: seq<OutboxRow>, key: string)
    requires HasKey(outbox, key) && |outbox| <= |after| && after[..|outbox|] == outbox
    ensures HasKey(after, key)
  {
    var n :| 0 <= n < |outbox| && outbox[n].key == key;
    assert after[..|outbox|][n] == after[n];
  }

  lemma StillAsks(row: OutboxRow, incidents: seq<Incident>, transitions: seq<Transition>, t: Transition, channels: seq<Channel>)
    requires AsksForSome(row, incidents, transitions, channels)
    ensures AsksForSome(row, incidents, transitions + [t], channels)
  {
    hide AsksFor;
    var i: nat :| Announces(transitions, i) && AsksFor(row, incidents, i, channels);
    AnnouncesNext(transitions, t, i);
  }

  lemma NewRowAsks(incidents: seq<Incident>, transitions: seq<Transition>, t: Transition, channels: seq<Channel>)
    requires t.incident < |incidents| && t.shouldNotify
    ensures var e := RequestFor(incidents[t.incident], t.incident, channels);
            AsksForSome(NewOutboxRow(RequestKey(e.messageId), Request(e), e.tenantId), incidents, transitions + [t], channels)
  {
    var e := RequestFor(incidents[t.incident], t.incident, channels);
    AnnouncesNext(transitions, t, t.incident);
    assert AsksFor(NewOutboxRow(RequestKey(e.messageId), Request(e), e.tenantId), incidents, t.incident, channels);
  }

  /** Enqueuing stamps exactly the announced incidents and asks for exactly them, or fails for an invalid request. */
  lemma {:induction false} EnqueueMeans(q: Queued, transitions: seq<Transition>, channels: seq<Channel>)
    requires InRange(transitions, |q.incidents|)
    ensures var r := EnqueueEach(q, transitions, channels);
            && (r.Ok? <==> Enqueueable(q.incidents, transitions, channels))
            && (r.Ok? ==> Stamped(q.incidents, r.value.incidents, transitions)
                          && Asked(q.incidents, q.outbox, r.value.outbox, transitions, channels))
  {
    if transitions == [] {
    } else {
      var front, t := transitions[..|transitions| - 1], transitions[|transitions| - 1];
      assert transitions == front + [t];
      EnqueueMeans(q, front, channels);
      var before := EnqueueEach(q, front, channels);
      EnqueueableNext(q.incidents, front, t, channels);
      if before.Ok? {
        StampedNext(q.incidents, before.value.incidents, front, t);
        AskedNext(q.incidents, q.outbox, before.value.outbox, front, t, channels);
        SameRequestFor(q.incidents, before.value.incidents, front, t.incident, channels);
      }
    }
  }

  lemma SameRequestFor(before: seq<Incident>, after: seq<Incident>, transitions: seq<Transition>, i: nat, channels: seq<Channel>)
    requires i < |before| && Stamped(before, after, transitions)
    ensures RequestFor(after[i], i, channels) == RequestFor(before[i], i, channels)
  {
  }

  lemma EnqueueableNext(incidents: seq<Incident>, transitions: seq<Transition>, t: Transition, channels: seq<Channel>)
    requires t.incident < |incidents|
    ensures Enqueueable(incidents, transitions + [t], channels)
       <==> && Enqueueable(incidents, transitions, channels)
            && (t.shouldNotify ==> ValidRequest(RequestFor(incidents[t.incident], t.incident, channels)))
  {
    hide Announces, ValidRequest, Tells, RequestFor;
    forall i: nat ensures Announces(transitions + [t], i) <==> Announces(transitions, i) || (t.incident == i && t.shouldNotify) {
      AnnouncesNext(transitions, t, i);
    }
    forall e | t.shouldNotify && Tells(e, incidents[t.incident], t.incident, channels)
      ensures e == RequestFor(incidents[t.incident], t.incident, channels)
    {
      RequestTells(incidents[t.incident], t.incident, channels, e);
    }
    if t.shouldNotify {
      var e := RequestFor(incidents[t.incident], t.incident, channels);
      RequestTells(incidents[t.incident], t.incident, channels, e);
    }
  }

  /** The incident and outbox tables one transaction writes together. */
  class IncidentNotifier {
    var incidents: seq<Incident>
    var outbox: seq<OutboxRow>

    constructor (incidents: seq<Incident>, outbox: seq<OutboxRow>)
      ensures this.incidents == incidents && this.outbox == outbox
    {
      this.incidents, this.outbox := incidents, outbox;
    }

    /** On Err nothing that was written is committed. */
    method EnqueueIncidentNotificationRequests(transitions: seq<Transition>, brokerMode: bool, channels: seq<Channel>)
      returns (r: Result<(), string>)
      requires InRange(transitions, |incidents|)
      modifies this
      ensures !brokerMode ==> r == Ok(()) && incidents == old(incidents) && outbox == old(outbox)
      ensures brokerMode ==>
        match EnqueueRequests(Queued(old(incidents), old(outbox)), transitions, channels)
        case Ok(q) => r == Ok(()) && incidents == q.incidents && outbox == q.outbox
        case Err(e) => r == Err(e) && incidents == old(incidents) && outbox == old(outbox)
      ensures r.Ok? <==> !brokerMode || (channels != [] && Enqueueable(old(incidents), transitions, channels))
      ensures brokerMode && r.Ok? ==>
        && Stamped(old(incidents), incidents, transitions)
        && Asked(old(incidents), old(outbox), outbox, transitions, channels)
    {
      hide Enqueueable, Stamped, Asked;
      EnqueueMeans(Queued(incidents, outbox), transitions, channels);
      if !brokerMode {
        return Ok(());
      }
      if channels == [] {
        return Err("Broker notification delivery requires at least one valid default channel.");
      }
      var savedIncidents, savedOutbox := incidents, outbox;
      ghost var q := Queued(incidents, outbox);
      assert transitions[..0] == [];
      for i := 0 to |transitions|
        invariant |incidents| == |q.incidents|
        invariant EnqueueEach(q, transitions[..i], channels) == Ok(Queued(incidents, outbox))
      {
        var t := transitions[i];
        assert transitions[..i + 1][..i] == transitions[..i];
        if t.shouldNotify {
          var row := incidents[t.incident];
          var event := RequestFor(row, t.incident, channels);
          if !ValidRequest(event) {
            incidents, outbox := savedIncidents, savedOutbox;
            ErrPropagates(q, transitions, i + 1, channels);
            return Err("validation");
          }
          outbox := AddOutbox(outbox, RequestKey(event.messageId), Request(event), event.tenantId);
          row := row.(lastNotification := Some(row.lastSeen));
          incidents := incidents[t.incident := row];
        }
      }
      assert transitions[..|transitions|] == transitions;
      return Ok(());
    }
  }

  lemma {:induction false} ErrPropagates(q: Queued, transitions: seq<Transition>, n: nat, channels: seq<Channel>)
    requires InRange(transitions, |q.incidents|) && n <= |transitions|
    requires EnqueueEach(q, transitions[..n], channels).Err?
    ensures EnqueueEach(q, transitions, channels) == EnqueueEach(q, transitions[..n], channels)
  {
    if n == |transitions| {
      assert transitions[..n] == transitions;
    } else {
      var front := transitions[..|transitions| - 1];
      assert front[..n] == transitions[..n];
      ErrPropagates(q, front, n, channels);
    }
  }
}
