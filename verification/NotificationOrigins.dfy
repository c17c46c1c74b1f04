/** From incidents to requests: every notification asked for has exactly one outbox row, and the
    notifications of one incident keep their distance. */
module NotificationOrigins {
  import opened Wrappers
  import opened Keys
  import Incidents
  import opened IncidentLifecycle
  import opened NotificationTables
  import P = NotificationProtocol
  import IN = IncidentNotifications
  import S = NotificationSafety

  type Notice = P.Notice
  type Row = Incidents.Incident

  function IdOf(n: Notice): string { MessageId(n.incident + 1, n.occurrence) }

  ghost predicate Requested(outbox: seq<OutboxRow>, messageId: string) {
    exists j | 0 <= j < |outbox| :: outbox[j].payload.Request? && outbox[j].payload.request.messageId == messageId
  }

  ghost predicate Noticed(due: seq<Notice>, messageId: string) {
    exists a | 0 <= a < |due| :: IdOf(due[a]) == messageId
  }

  /** A past notice is about a row that exists, at an occurrence it had reached. */
  ghost predicate Past(incidents: seq<Row>, n: Notice) {
    && n.incident < |incidents| && n.occurrence <= incidents[n.incident].occurrence
    && incidents[n.incident].lastNotification.Some?
  }

  /** At least `gap` apart, when a gap is claimed at all. */
  predicate Spaced(early: Incidents.Time, late: Incidents.Time, gap: Option<nat>) {
    gap.Some? ==> late - early >= gap.value
  }

  ghost predicate NoticeInv(incidents: seq<Row>, due: seq<Notice>, gap: Option<nat>) {
    && (forall a | 0 <= a < |due| ::
         && Past(incidents, due[a])
         && (gap.Some? ==> due[a].stamp <= incidents[due[a].incident].lastNotification.value))
    && (forall a, b | 0 <= a < b < |due| && due[a].incident == due[b].incident ::
         due[a].occurrence != due[b].occurrence && Spaced(due[a].stamp, due[b].stamp, gap))
  }

  /** Notices and request rows name each other. */
  ghost predicate RequestInv(outbox: seq<OutboxRow>, due: seq<Notice>) {
    && (forall a | 0 <= a < |due| :: Requested(outbox, IdOf(due[a])))
    && (forall j | 0 <= j < |outbox| && outbox[j].payload.Request? :: Noticed(due, outbox[j].payload.request.messageId))
  }

  // ---------- what a batch of ops leaves for the enqueuer ----------

  ghost predicate Paced(ops: seq<Incidents.Op>, now: Incidents.Time, later: Incidents.Time, gap: Option<nat>) {
    forall i | 0 <= i < |ops| && ops[i].Report? :: Spaced(later - now, ops[i].source.cooldown, gap)
  }

  /** A notifying transition is about a row just stamped, at an occurrence not seen before, rested long enough. */
  ghost predicate Ready(before: seq<Row>, after: seq<Row>, t: Incidents.Transition, now: Incidents.Time, gap: Option<nat>) {
    && t.incident < |after| && after[t.incident].lastSeen == now && after[t.incident].occurrence >= 1
    && (t.incident < |before| ==> after[t.incident].occurrence > before[t.incident].occurrence)
    && (after[t.incident].lastNotification.Some? ==> Spaced(after[t.incident].lastNotification.value, now, gap))
  }

  ghost predicate Advanced(before: seq<Row>, after: seq<Row>) {
    && |before| <= |after|
    && (forall i | 0 <= i < |before| ::
         && after[i].occurrence >= before[i].occurrence && after[i].lastNotification == before[i].lastNotification
         && after[i].fingerprint == before[i].fingerprint)
    && (forall i | |before| <= i < |after| :: after[i].lastNotification == None)
  }

  ghost predicate Apart(ts: seq<Incidents.Transition>) {
    forall i, j | 0 <= i < j < |ts| && ts[i].shouldNotify && ts[j].shouldNotify :: ts[i].incident != ts[j].incident
  }

  ghost predicate Touches(ops: seq<Incidents.Op>, key: string) {
    exists i | 0 <= i < |ops| :: Incidents.OpKey(ops[i]) == key
  }

  /** One op touches one row: the one that carries its key. */
  lemma {:induction false} OneOp(incidents: seq<Row>, op: Incidents.Op, now: Incidents.Time, later: Incidents.Time, gap: Option<nat>)
    requires TableInv(incidents) && (op.Report? ==> Spaced(later - now, op.source.cooldown, gap))
    ensures var (after, t) := Incidents.ApplyOp(incidents, op, now, later);
            && Advanced(incidents, after)
            && (forall i | 0 <= i < |incidents| && incidents[i].fingerprint != Incidents.OpKey(op) :: after[i] == incidents[i])
            && (t.Some? && t.value.shouldNotify ==>
                  Ready(incidents, after, t.value, now, gap) && after[t.value.incident].fingerprint == Incidents.OpKey(op))
  {
    hide Fingerprint, Incidents.ActiveAt;
    var at := Incidents.ActiveAt(incidents, Incidents.OpKey(op));
    if at.Some? { assert RowInv(incidents[at.value]); }
  }

  ghost predicate OpsOutcome(incidents: seq<Row>, ops: seq<Incidents.Op>, after: seq<Row>, ts: seq<Incidents.Transition>,
                             now: Incidents.Time, gap: Option<nat>) {
    && Advanced(incidents, after) && Apart(ts)
    && forall j | 0 <= j < |ts| && ts[j].shouldNotify ::
         Ready(incidents, after, ts[j], now, gap) && Touches(ops, after[ts[j].incident].fingerprint)
  }

  lemma {:induction false} OpsOutcomeHolds(incidents: seq<Row>, ops: seq<Incidents.Op>, now: Incidents.Time, later: Incidents.Time,
                                           gap: Option<nat>)
    requires TableInv(incidents) && P.DistinctKeys(ops) && Paced(ops, now, later, gap)
    ensures var (after, ts) := Incidents.ApplyOps(incidents, ops, now, later);
            TableInv(after) && OpsOutcome(incidents, ops, after, ts, now, gap)
  {
    hide TableInv, Incidents.ApplyOp, Incidents.OpKey, Ready, Active;
    if ops != [] {
      var front, op := ops[..|ops| - 1], ops[|ops| - 1];
      OpsOutcomeHolds(incidents, front, now, later, gap);
      var (middle, us) := Incidents.ApplyOps(incidents, front, now, later);
      var (after, t) := Incidents.ApplyOp(middle, op, now, later);
      OpEffect(middle, op, now, later, "");
      OneOp(middle, op, now, later, gap);
      var ts := if t.Some? then us + [t.value] else us;
      NextOp(incidents, front, op, middle, us, after, t, now, gap);
    }
  }

  lemma NextOp(incidents: seq<Row>, front: seq<Incidents.Op>, op: Incidents.Op, middle: seq<Row>, us: seq<Incidents.Transition>,
               after: seq<Row>, t: Option<Incidents.Transition>, now: Incidents.Time, gap: Option<nat>)
    requires OpsOutcome(incidents, front, middle, us, now, gap)
    requires !Touches(front, Incidents.OpKey(op)) && Advanced(middle, after)
    requires forall i | 0 <= i < |middle| && middle[i].fingerprint != Incidents.OpKey(op) :: after[i] == middle[i]
    requires t.Some? && t.value.shouldNotify ==>
               Ready(middle, after, t.value, now, gap) && after[t.value.incident].fingerprint == Incidents.OpKey(op)
    ensures OpsOutcome(incidents, front + [op], after, if t.Some? then us + [t.value] else us, now, gap)
  {
    hide Incidents.OpKey;
    var ts := if t.Some? then us + [t.value] else us;
    var ops := front + [op];
    forall j | 0 <= j < |ts| && ts[j].shouldNotify
      ensures Ready(incidents, after, ts[j], now, gap) && Touches(ops, after[ts[j].incident].fingerprint)
      ensures j < |us| ==> middle[ts[j].incident].fingerprint != Incidents.OpKey(op) && ts[j].incident < |middle|
    {
      if j < |us| {
        var m :| 0 <= m < |front| && Incidents.OpKey(front[m]) == middle[us[j].incident].fingerprint;
        assert ops[m] == front[m];
      } else {
        assert ops[|front|] == op;
      }
    }
    assert Advanced(incidents, after);
    forall i, j | 0 <= i < j < |ts| && ts[i].shouldNotify && ts[j].shouldNotify ensures ts[i].incident != ts[j].incident {
      if j == |us| {
        assert after[ts[i].incident] == middle[ts[i].incident];
        assert after[ts[j].incident].fingerprint == Incidents.OpKey(op);
      }
    }
  }

  // ---------- what enqueueing makes of it ----------

  ghost predicate Novel(incidents: seq<Row>, due: seq<Notice>, t: Incidents.Transition, gap: Option<nat>) {
    && t.incident < |incidents| && incidents[t.incident].occurrence >= 1
    && (forall a | 0 <= a < |due| && due[a].incident == t.incident :: due[a].occurrence < incidents[t.incident].occurrence)
    && (incidents[t.incident].lastNotification.Some? ==>
          Spaced(incidents[t.incident].lastNotification.value, incidents[t.incident].lastSeen, gap))
  }

  ghost predicate Mentioned(ts: seq<Incidents.Transition>, incident: nat) {
    exists j | 0 <= j < |ts| :: ts[j].shouldNotify && ts[j].incident == incident
  }

  /** Enqueueing only stamps the rows it notifies about. */
  ghost predicate Stamped(before: seq<Row>, after: seq<Row>, ts: seq<Incidents.Transition>) {
    && |after| == |before|
    && (forall i | 0 <= i < |before| && !Mentioned(ts, i) :: after[i] == before[i])
    && (forall i | 0 <= i < |before| :: after[i] == before[i].(lastNotification := after[i].lastNotification))
  }

  lemma StampOne(incidents: seq<Row>, due: seq<Notice>, t: Incidents.Transition, gap: Option<nat>)
    requires NoticeInv(incidents, due, gap) && Novel(incidents, due, t, gap)
    ensures var row := incidents[t.incident];
            NoticeInv(incidents[t.incident := row.(lastNotification := Some(row.lastSeen))],
                      due + [P.Notice(t.incident, row.occurrence, row.lastSeen)], gap)
  {
    var row := incidents[t.incident];
    var after := incidents[t.incident := row.(lastNotification := Some(row.lastSeen))];
    var due' := due + [P.Notice(t.incident, row.occurrence, row.lastSeen)];
    forall a | 0 <= a < |due'|
      ensures Past(after, due'[a]) && (gap.Some? ==> due'[a].stamp <= after[due'[a].incident].lastNotification.value)
    {
      if a < |due| { assert Past(incidents, due[a]); }
    }
    forall a, b | 0 <= a < b < |due'| && due'[a].incident == due'[b].incident
      ensures due'[a].occurrence != due'[b].occurrence && Spaced(due'[a].stamp, due'[b].stamp, gap)
    {
      if b == |due| { assert Past(incidents, due[a]); }
    }
  }

  lemma {:induction false} RequestOne(outbox: seq<OutboxRow>, due: seq<Notice>, n: Notice, e: RequestEvent)
    requires RequestInv(outbox, due) && e.messageId == IdOf(n)
    requires forall i | 0 <= i < |outbox| :: P.KeyedRow(outbox[i])
    ensures RequestInv(AddOutbox(outbox, RequestKey(e.messageId), Request(e), e.tenantId), due + [n])
  {
    hide IdOf, ValidRequest, ValidDeadLetter, MessageId, RequestKey, DeadLetterKey;
    var key := RequestKey(e.messageId);
    var o', due' := AddOutbox(outbox, key, Request(e), e.tenantId), due + [n];
    assert due'[|due|] == n;
    forall j | 0 <= j < |o'| && o'[j].payload.Request? ensures Noticed(due', o'[j].payload.request.messageId) {
      if j < |outbox| {
        var a :| 0 <= a < |due| && IdOf(due[a]) == outbox[j].payload.request.messageId;
        assert due'[a] == due[a];
      }
    }
    forall a | 0 <= a < |due'| ensures Requested(o', IdOf(due'[a])) {
      if a < |due| {
        var j :| 0 <= j < |outbox| && outbox[j].payload.Request? && outbox[j].payload.request.messageId == IdOf(due[a]);
        assert o'[j] == outbox[j];
      } else if KeyAt(outbox, key).None? {
        assert o'[|outbox|].payload == Request(e);
      } else {
        TakenKey(outbox, e, KeyAt(outbox, key).value);
      }
    }
  }

  /** A taken request key is held by a request for the same message. */
  lemma TakenKey(outbox: seq<OutboxRow>, e: RequestEvent, j: nat)
    requires j < |outbox| && P.KeyedRow(outbox[j]) && outbox[j].key == RequestKey(e.messageId)
    ensures outbox[j].payload.Request? && outbox[j].payload.request.messageId == e.messageId
  {
    match outbox[j].payload
    case Request(f) => StripPrefix("notification-request:", f.messageId, e.messageId);
    case DeadLetter(d) => KeysDisjoint(e.messageId, d.deliveryId);
  }

  lemma StampedStep(a: seq<Row>, b: seq<Row>, front: seq<Incidents.Transition>, t: Incidents.Transition)
    requires Stamped(a, b, front) && t.incident < |a|
    ensures Stamped(a, b, front + [t])
    ensures t.shouldNotify ==>
              Stamped(a, b[t.incident := b[t.incident].(lastNotification := Some(b[t.incident].lastSeen))], front + [t])
  {
    MentionGrows(front, t);
  }

  lemma {:induction false} EnqueueStamps(q: IN.Queued, ts: seq<Incidents.Transition>, channels: seq<Channel>)
    requires IN.InRange(ts, |q.incidents|)
    ensures IN.EnqueueEach(q, ts, channels).Ok? ==> Stamped(q.incidents, IN.EnqueueEach(q, ts, channels).value.incidents, ts)
    ensures forall n | n in P.NoticesOf(q.incidents, ts) :: Mentioned(ts, n.incident)
  {
    hide Stamped, Mentioned, ValidRequest, AddOutbox, MessageId, RequestKey;
    if ts == [] {
      StampedNone(q.incidents);
    } else {
      var front, t := ts[..|ts| - 1], ts[|ts| - 1];
      assert ts == front + [t];
      EnqueueStamps(q, front, channels);
      MentionGrows(front, t);
      var before := IN.EnqueueEach(q, front, channels);
      if before.Ok? { StampedStep(q.incidents, before.value.incidents, front, t); }
    }
  }

  lemma StampedNone(a: seq<Row>)
    ensures Stamped(a, a, [])
  {
  }

  /** The next request of the batch, given what the earlier ones left. */
  lemma {:induction false} EnqueueNext(q: IN.Queued, b: IN.Queued, front: seq<Incidents.Transition>, t: Incidents.Transition, channels: seq<Channel>,
                    due: seq<Notice>, gap: Option<nat>)
    requires t.incident < |q.incidents| && Stamped(q.incidents, b.incidents, front) && !Mentioned(front, t.incident)
    requires NoticeInv(b.incidents, due, gap) && RequestInv(b.outbox, due) && S.AllKeyed(b.outbox)
    requires Novel(q.incidents, due, t, gap)
    ensures var row := q.incidents[t.incident];
            var e, n := IN.RequestFor(row, t.incident, channels), P.Notice(t.incident, row.occurrence, row.lastSeen);
            && b.incidents[t.incident] == row
            && NoticeInv(b.incidents[t.incident := row.(lastNotification := Some(row.lastSeen))], due + [n], gap)
            && RequestInv(AddOutbox(b.outbox, RequestKey(e.messageId), Request(e), e.tenantId), due + [n])
  {
    hide NoticeInv, RequestInv, ValidRequest, MessageId, RequestKey, IdOf, AddOutbox, S.AllKeyed, Mentioned;
    var row := q.incidents[t.incident];
    assert b.incidents[t.incident] == row;
    StampOne(b.incidents, due, t, gap);
    IdOfRequest(row, t.incident, channels);
    Keyed(b.outbox);
    RequestOne(b.outbox, due, P.Notice(t.incident, row.occurrence, row.lastSeen), IN.RequestFor(row, t.incident, channels));
  }

  lemma {:induction false} EnqueueKeeps(q: IN.Queued, ts: seq<Incidents.Transition>, channels: seq<Channel>, due: seq<Notice>,
                                        gap: Option<nat>)
    requires IN.InRange(ts, |q.incidents|) && Apart(ts)
    requires NoticeInv(q.incidents, due, gap) && RequestInv(q.outbox, due) && S.AllKeyed(q.outbox)
    requires forall j | 0 <= j < |ts| && ts[j].shouldNotify :: Novel(q.incidents, due, ts[j], gap)
    ensures var r, notices := IN.EnqueueEach(q, ts, channels), P.NoticesOf(q.incidents, ts);
            r.Ok? ==> NoticeInv(r.value.incidents, due + notices, gap) && RequestInv(r.value.outbox, due + notices)
  {
    hide NoticeInv, RequestInv, ValidRequest, MessageId, RequestKey, IdOf, AddOutbox, S.AllKeyed, Novel, Stamped;
    if ts == [] {
      assert due + [] == due;
    } else {
      var front, t := ts[..|ts| - 1], ts[|ts| - 1];
      EnqueueKeeps(q, front, channels, due, gap);
      EnqueueStamps(q, front, channels);
      S.EnqueueKeepsKeys(q, front, channels);
      var before, notices := IN.EnqueueEach(q, front, channels), P.NoticesOf(q.incidents, front);
      if before.Ok? && t.shouldNotify {
        assert !Mentioned(front, t.incident);
        var row := q.incidents[t.incident];
        var n := P.Notice(t.incident, row.occurrence, row.lastSeen);
        assert due + P.NoticesOf(q.incidents, ts) == (due + notices) + [n];
        assert Novel(q.incidents, due, t, gap);
        StillNovel(q.incidents, due, notices, t, gap);
        EnqueueNext(q, before.value, front, t, channels, due + notices, gap);
      }
    }
  }

  lemma Keyed(outbox: seq<OutboxRow>)
    requires S.AllKeyed(outbox)
    ensures forall i | 0 <= i < |outbox| :: P.KeyedRow(outbox[i])
  {
  }

  lemma IdOfRequest(row: Row, position: nat, channels: seq<Channel>)
    ensures IN.RequestFor(row, position, channels).messageId == IdOf(P.Notice(position, row.occurrence, row.lastSeen))
  {
  }

  lemma MentionGrows(front: seq<Incidents.Transition>, t: Incidents.Transition)
    ensures forall i: nat :: Mentioned(front + [t], i) <==> Mentioned(front, i) || (t.shouldNotify && t.incident == i)
  {
    var ts := front + [t];
    forall i: nat ensures Mentioned(ts, i) <==> Mentioned(front, i) || (t.shouldNotify && t.incident == i) {
      assert ts[|front|] == t;
      if Mentioned(front, i) {
        var j :| 0 <= j < |front| && front[j].shouldNotify && front[j].incident == i;
        assert ts[j] == front[j];
      }
    }
  }

  lemma StillNovel(incidents: seq<Row>, due: seq<Notice>, notices: seq<Notice>, t: Incidents.Transition, gap: Option<nat>)
    requires Novel(incidents, due, t, gap)
    requires forall n | n in notices :: n.incident != t.incident
    ensures Novel(incidents, due + notices, t, gap)
  {
  }

  // ---------- every step ----------

  ghost predicate OriginInv(s: P.System, gap: Option<nat>) {
    TableInv(s.incidents) && NoticeInv(s.incidents, s.due, gap) && RequestInv(s.tables.outbox, s.due)
  }

  lemma AdvanceKeepsNotices(before: seq<Row>, after: seq<Row>, due: seq<Notice>, gap: Option<nat>)
    requires NoticeInv(before, due, gap) && Advanced(before, after)
    ensures NoticeInv(after, due, gap)
  {
    forall a | 0 <= a < |due|
      ensures Past(after, due[a]) && (gap.Some? ==> due[a].stamp <= after[due[a].incident].lastNotification.value)
    {
      assert Past(before, due[a]);
    }
  }

  lemma ReadyIsNovel(before: seq<Row>, after: seq<Row>, due: seq<Notice>, t: Incidents.Transition, now: Incidents.Time, gap: Option<nat>)
    requires NoticeInv(before, due, gap) && Ready(before, after, t, now, gap)
    ensures Novel(after, due, t, gap)
  {
    forall a | 0 <= a < |due| && due[a].incident == t.incident ensures due[a].occurrence < after[t.incident].occurrence {
      assert Past(before, due[a]);
    }
  }

  lemma StampsKeepTable(before: seq<Row>, after: seq<Row>, ts: seq<Incidents.Transition>)
    requires TableInv(before) && Stamped(before, after, ts)
    ensures TableInv(after)
  {
    hide Mentioned, Fingerprint;
    forall i | 0 <= i < |after|
      ensures RowInv(after[i]) && after[i].activeKey == before[i].activeKey
    {
      assert RowInv(before[i]) && after[i] == before[i].(lastNotification := after[i].lastNotification);
    }
  }

  lemma {:induction false} TransactionKeeps(s: P.System, ops: seq<Incidents.Op>, channels: seq<Channel>, now: Incidents.Time, later: Incidents.Time,
                         gap: Option<nat>)
    requires OriginInv(s, gap) && S.AllKeyed(s.tables.outbox) && P.DistinctKeys(ops) && Paced(ops, now, later, gap)
    ensures OriginInv(P.TransactIncidents(s, ops, channels, now, later), gap)
  {
    hide TableInv, NoticeInv, RequestInv, S.AllKeyed, Incidents.ApplyOps, IN.EnqueueEach, P.NoticesOf, Novel, Ready, Advanced, Stamped;
    var (after, ts) := Incidents.ApplyOps(s.incidents, ops, now, later);
    var q := IN.Queued(after, s.tables.outbox);
    OpsOutcomeHolds(s.incidents, ops, now, later, gap);
    AdvanceKeepsNotices(s.incidents, after, s.due, gap);
    forall j | 0 <= j < |ts| && ts[j].shouldNotify ensures Novel(after, s.due, ts[j], gap) {
      ReadyIsNovel(s.incidents, after, s.due, ts[j], now, gap);
    }
    EnqueueKeeps(q, ts, channels, s.due, gap);
    EnqueueStamps(q, ts, channels);
    var r := IN.EnqueueEach(q, ts, channels);
    if r.Ok? { StampsKeepTable(after, r.value.incidents, ts); }
  }

  lemma OperatorKeeps(incidents: seq<Row>, row: nat, r: Row, due: seq<Notice>, gap: Option<nat>)
    requires TableInv(incidents) && NoticeInv(incidents, due, gap) && row < |incidents| && RowInv(r)
    requires r.occurrence == incidents[row].occurrence && r.lastNotification == incidents[row].lastNotification
    requires r.fingerprint == incidents[row].fingerprint && (r.activeKey == incidents[row].activeKey || r.activeKey == None)
    ensures TableInv(incidents[row := r]) && NoticeInv(incidents[row := r], due, gap)
  {
    hide RowInv;
    AdvanceKeepsNotices(incidents, incidents[row := r], due, gap);
  }

  lemma PayloadsKeepRequests(before: seq<OutboxRow>, after: seq<OutboxRow>, due: seq<Notice>)
    requires RequestInv(before, due) && |before| <= |after|
    requires forall i | 0 <= i < |before| :: after[i].payload == before[i].payload
    requires forall i | |before| <= i < |after| :: !after[i].payload.Request?
    ensures RequestInv(after, due)
  {
    hide IdOf;
    forall a | 0 <= a < |due| ensures Requested(after, IdOf(due[a])) {
      var j :| 0 <= j < |before| && before[j].payload.Request? && before[j].payload.request.messageId == IdOf(due[a]);
      assert after[j].payload == before[j].payload;
    }
  }

  lemma GiveUpKeepsRequests(t: Tables, h: P.Held, error: DeliveryError, now: Time, due: seq<Notice>)
    requires RequestInv(t.outbox, due)
    ensures var r := DeadLetterDelivery(t, h.id, h.token, error, now); r.Ok? ==> RequestInv(r.value.outbox, due)
  {
    hide RequestInv, Summary, ValidDeadLetter;
    var r := DeadLetterDelivery(t, h.id, h.token, error, now);
    if r.Ok? { PayloadsKeepRequests(t.outbox, r.value.outbox, due); }
  }

  ghost predicate PacedAction(a: P.Action, gap: Option<nat>) {
    a.IncidentTransaction? ==> Paced(a.ops, a.now, a.later, gap)
  }

  lemma {:induction false} StepKeepsOrigins(s: P.System, a: P.Action, gap: Option<nat>)
    requires OriginInv(s, gap) && P.Inv(s) && P.Enabled(s, a) && PacedAction(a, gap)
    ensures OriginInv(P.Apply(s, a), gap)
  {
    hide TableInv, NoticeInv, RequestInv, P.TransactIncidents, P.PickOutbox, P.PickDeliveries, ClaimOutbox, MarkPublished,
      MarkPublishFailed, ClaimRequest, FanOut, ClaimDeliveries, MarkDelivered, ScheduleRetry, DeadLetterDelivery, P.HeldRows,
      P.Logged, Paced, P.DistinctKeys, P.InboxInv, P.DeliveryInv, P.SummaryInv, P.DeadLetterInv, P.HeldInv, P.LogInv,
      P.KeyedRow, P.KeysUnique, P.InOutbox;
    var o := s.tables.outbox;
    match a
    case IncidentTransaction(ops, channels, now, later) => TransactionKeeps(s, ops, channels, now, later, gap);
    case AcknowledgeIncident(row, actor, now) =>
      RowOf(s.incidents, row);
      if s.incidents[row].status == Incidents.Open {
        OperatorKeeps(s.incidents, row, P.Apply(s, a).incidents[row], s.due, gap);
      }
    case ResolveIncident(row, actor, now) =>
      RowOf(s.incidents, row);
      if s.incidents[row].status != Incidents.Resolved {
        OperatorKeeps(s.incidents, row, P.Apply(s, a).incidents[row], s.due, gap);
      }
    case ClaimOutboxBatch(limit, token, lease, locked, now) =>
      var picked := P.PickOutbox(s, limit, locked, now);
      S.PublisherShape(o, picked, 0, token, now + lease, "", None);
      PayloadsKeepRequests(o, ClaimOutbox(o, picked, token, now + lease), s.due);
    case RecordPublished(token, id, at) =>
      S.PublisherShape(o, [], id, token, at, "", None);
      PayloadsKeepRequests(o, MarkPublished(o, id, at, Some(token)), s.due);
    case RecordPublishFailed(token, id, reason, next) =>
      S.PublisherShape(o, [], id, token, 0, reason, next);
      PayloadsKeepRequests(o, MarkPublishFailed(o, id, reason, next, Some(token)), s.due);
    case Succeed(h, reference, now) => OutcomeOutbox(s.tables, h, reference, 0, DeliveryError(Unknown, None, ""), now);
    case Retry(h, delay, error) => OutcomeOutbox(s.tables, h, None, h.lastAttemptAt + delay, error, 0);
    case GiveUp(h, error, now) => GiveUpKeepsRequests(s.tables, h, error, now, s.due);
    case _ =>
  }

  lemma RowOf(incidents: seq<Row>, row: nat)
    requires TableInv(incidents) && row < |incidents|
    ensures RowInv(incidents[row])
  {
  }

  /** Successes and retries leave the outbox alone. */
  lemma OutcomeOutbox(t: Tables, h: P.Held, reference: Option<string>, next: Time, error: DeliveryError, now: Time)
    ensures MarkDelivered(t, h.id, h.token, reference, now).outbox == t.outbox
    ensures var r := ScheduleRetry(t, h.id, h.token, next, error); r.Ok? ==> r.value.outbox == t.outbox
  {
    hide Summary;
  }

  ghost predicate PacedRun(actions: seq<P.Action>, gap: Option<nat>) {
    forall i | 0 <= i < |actions| :: PacedAction(actions[i], gap)
  }

  lemma NothingYet(gap: Option<nat>)
    ensures OriginInv(P.INITIAL, gap)
  {
  }

  lemma {:induction false} OriginsAlways(actions: seq<P.Action>, gap: Option<nat>)
    requires P.Feasible(actions) && PacedRun(actions, gap)
    ensures OriginInv(P.Run(actions), gap)
  {
    hide P.Apply, P.Enabled, P.Inv, PacedAction, OriginInv;
    if actions == [] {
      NothingYet(gap);
    } else {
      var front := actions[..|actions| - 1];
      OriginsAlways(front, gap);
      S.AlwaysInv(front);
      StepKeepsOrigins(P.Run(front), actions[|actions| - 1], gap);
    }
  }

  // ---------- the end-to-end reading ----------

  ghost predicate RequestRow(outbox: seq<OutboxRow>, j: nat, messageId: string) {
    j < |outbox| && outbox[j].payload.Request? && outbox[j].payload.request.messageId == messageId
  }

  ghost predicate HasRow(outbox: seq<OutboxRow>, messageId: string) {
    exists j: nat :: RequestRow(outbox, j, messageId)
  }

  /** Each notice has a request row, each request row a notice, and neither side repeats an id. */
  ghost predicate OneToOne(outbox: seq<OutboxRow>, due: seq<Notice>) {
    && (forall a | 0 <= a < |due| :: HasRow(outbox, IdOf(due[a])))
    && (forall j: nat, m | RequestRow(outbox, j, m) :: Noticed(due, m))
    && (forall i: nat, j: nat, m | RequestRow(outbox, i, m) && RequestRow(outbox, j, m) :: i == j)
    && (forall a, b | 0 <= a < b < |due| :: IdOf(due[a]) != IdOf(due[b]))
  }

  lemma RowsAreUnique(outbox: seq<OutboxRow>, i: nat, j: nat, m: string)
    requires S.AllKeyed(outbox) && RequestRow(outbox, i, m) && RequestRow(outbox, j, m)
    ensures i == j
  {
    hide ValidRequest, ValidDeadLetter, MessageId;
    assert P.KeyedRow(outbox[i]) && P.KeyedRow(outbox[j]);
    assert outbox[i].key == outbox[j].key;
  }

  lemma {:induction false} OneToOneHolds(incidents: seq<Row>, outbox: seq<OutboxRow>, due: seq<Notice>, gap: Option<nat>)
    requires S.AllKeyed(outbox) && RequestInv(outbox, due) && NoticeInv(incidents, due, gap)
    ensures OneToOne(outbox, due)
  {
    hide S.AllKeyed, IdOf, Past;
    forall a | 0 <= a < |due| ensures HasRow(outbox, IdOf(due[a])) {
      assert Requested(outbox, IdOf(due[a]));
      var j :| 0 <= j < |outbox| && outbox[j].payload.Request? && outbox[j].payload.request.messageId == IdOf(due[a]);
      assert RequestRow(outbox, j, IdOf(due[a]));
    }
    forall i: nat, j: nat, m | RequestRow(outbox, i, m) && RequestRow(outbox, j, m) ensures i == j {
      RowsAreUnique(outbox, i, j, m);
    }
    forall j: nat, m | RequestRow(outbox, j, m) ensures Noticed(due, m) {
      assert outbox[j].payload.Request?;
    }
    forall a, b | 0 <= a < b < |due| ensures IdOf(due[a]) != IdOf(due[b]) {
      IdsDiffer(due[a], due[b]);
    }
  }

  lemma IdsDiffer(m: Notice, n: Notice)
    requires m.incident != n.incident || m.occurrence != n.occurrence
    ensures IdOf(m) != IdOf(n)
  {
    if IdOf(m) == IdOf(n) { MessageIdInjective(m.incident + 1, m.occurrence, n.incident + 1, n.occurrence); }
  }

  /** Main result: notifications asked for and request rows in the outbox correspond one to one, whatever
      crashes, retries and redeliveries happened in between. */
  lemma {:induction false} EachNoticeHasOneRequest(actions: seq<P.Action>)
    requires P.Feasible(actions)
    ensures OneToOne(P.Run(actions).tables.outbox, P.Run(actions).due)
  {
    hide P.Run, P.Feasible, OneToOne, NoticeInv, RequestInv, TableInv, P.InboxInv, P.DeliveryInv, P.SummaryInv, P.DeadLetterInv,
      P.HeldInv, P.LogInv, P.InOutbox, P.KeyedRow, P.KeysUnique, Paced;
    Unpaced(actions);
    OriginsAlways(actions, None);
    S.AlwaysInv(actions);
    var s := P.Run(actions);
    OneToOneHolds(s.incidents, s.tables.outbox, s.due, None);
  }

  lemma Unpaced(actions: seq<P.Action>)
    ensures PacedRun(actions, None)
  {
  }

  /** Main result: broker notifications of one incident are at least `gap` apart, where `gap` is the cooldown
      less the distance between the two clock readings of one step; with one reading it is the cooldown. */
  lemma {:induction false} NotificationsKeepTheirDistance(actions: seq<P.Action>, gap: nat)
    requires P.Feasible(actions) && PacedRun(actions, Some(gap))
    ensures var due := P.Run(actions).due;
            forall a, b | 0 <= a < b < |due| && due[a].incident == due[b].incident :: due[b].stamp - due[a].stamp >= gap
  {
    hide P.Run, P.Feasible, PacedRun, TableInv, RequestInv, Past;
    OriginsAlways(actions, Some(gap));
    var due := P.Run(actions).due;
    assert forall a, b | 0 <= a < b < |due| && due[a].incident == due[b].incident :: Spaced(due[a].stamp, due[b].stamp, Some(gap));
  }
}
