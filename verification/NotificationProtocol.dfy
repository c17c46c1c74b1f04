/** The durable notification protocol as a step relation: incident transactions, publishers, the broker,
    consumers and delivery workers, in any number and any interleaving.

    A crash is a participant that takes no further step. The broker may hand out any published record
    any number of times. Every step carries the clock reading its participant took, and the readings of
    different participants are not assumed to be ordered. Claim tokens are fresh, and commits are
    serialised. */
module NotificationProtocol {
  import opened Wrappers
  import opened Keys
  import Incidents
  import opened NotificationTables
  import opened NotificationInvariants
  import IN = IncidentNotifications

  // ---------- state ----------

  /** What a delivery worker remembers of a row it claimed. */
  datatype Held = Held(token: Token, id: nat, attempts: nat, lastAttemptAt: Time)

  /** A transition that asked for a notification. `incident` is a position. */
  datatype Notice = Notice(incident: nat, occurrence: nat, stamp: Time)

  datatype OutcomeKind = DidDeliver | DidRetry | DidDie

  datatype Outcome = Outcome(token: Token, id: nat, kind: OutcomeKind)

  datatype System = System(
    incidents: seq<Incidents.Incident>,
    tables: Tables,
    broker: set<RequestEvent>,          // records on the request topic
    tokens: set<Token>,                 // every token drawn so far
    publishing: set<(Token, nat)>,      // outbox claims publishers act on
    fanning: set<(nat, RequestEvent)>,  // consumers between the intake commit and the fan-out commit
    held: set<Held>,                    // delivery claims workers act on
    processed: set<RequestEvent>,       // records some consumer finished with
    acked: set<RequestEvent>,           // records whose offset was committed
    due: seq<Notice>,                   // history: every notification asked for, in commit order
    log: seq<Outcome>)                  // history: every delivery outcome committed, in order

  const INITIAL := System([], Tables([], [], []), {}, {}, {}, {}, {}, {}, {}, [], [])

  datatype Action =
    | IncidentTransaction(ops: seq<Incidents.Op>, channels: seq<Channel>, now: Time, later: Time)
    | AcknowledgeIncident(row: nat, actor: string, now: Time)
    | ResolveIncident(row: nat, actor: string, now: Time)
    | ClaimOutboxBatch(limit: nat, token: Token, lease: nat, locked: set<nat>, now: Time)
    | PublishRecord(token: Token, id: nat)
    | RecordPublished(token: Token, id: nat, at: Time)
    | RecordPublishFailed(token: Token, id: nat, reason: string, next: Option<Time>)
    | TakeRecord(e: RequestEvent, lease: nat, now: Time)
    | FanOutRecord(inbox: nat, e: RequestEvent)
    | CommitOffset(e: RequestEvent)
    | ClaimDeliveryBatch(limit: nat, token: Token, lease: nat, locked: set<nat>, now: Time)
    | Succeed(h: Held, reference: Option<string>, now: Time)
    | Retry(h: Held, delay: nat, error: DeliveryError)
    | GiveUp(h: Held, error: DeliveryError, now: Time)

  const NOTIFICATION_EVENTS: Option<set<EventType>> := Some({DeliveryRequested, DeliveryDeadLettered})

  /** `notification_retry_delay`: jittered, and defined only after the first and second attempt. */
  predicate RetryDelay(attempts: nat, seconds: nat) {
    (attempts == 1 && 25 <= seconds <= 35) || (attempts == 2 && 270 <= seconds <= 330)
  }

  ghost predicate DistinctKeys(ops: seq<Incidents.Op>) {
    forall i, j | 0 <= i < j < |ops| :: Incidents.OpKey(ops[i]) != Incidents.OpKey(ops[j])
  }

  /** When a participant may take the step. */
  ghost predicate Enabled(s: System, a: Action) {
    match a
    case IncidentTransaction(ops, channels, now, later) => DistinctKeys(ops)
    case AcknowledgeIncident(row, actor, now) => row < |s.incidents|
    case ResolveIncident(row, actor, now) => row < |s.incidents|
    case ClaimOutboxBatch(limit, token, lease, locked, now) => token !in s.tokens
    case PublishRecord(token, id) => (token, id) in s.publishing
    case RecordPublished(token, id, at) => (token, id) in s.publishing
    case RecordPublishFailed(token, id, reason, next) => (token, id) in s.publishing
    case TakeRecord(e, lease, now) => e in s.broker
    case FanOutRecord(inbox, e) => (inbox, e) in s.fanning && |s.tables.deliveries| + |e.channels| <= MAX_ID
    case CommitOffset(e) => e in s.processed
    case ClaimDeliveryBatch(limit, token, lease, locked, now) => token !in s.tokens
    case Succeed(h, reference, now) => h in s.held
    case Retry(h, delay, error) => h in s.held && h.attempts < MAX_DELIVERY_ATTEMPTS && RetryDelay(h.attempts, delay)
    case GiveUp(h, error, now) => h in s.held
  }

  // ---------- steps ----------

  function NoticesOf(incidents: seq<Incidents.Incident>, transitions: seq<Incidents.Transition>): seq<Notice>
    requires IN.InRange(transitions, |incidents|)
  {
    if transitions == [] then []
    else
      var t := transitions[|transitions| - 1];
      var before := NoticesOf(incidents, transitions[..|transitions| - 1]);
      if t.shouldNotify then
        before + [Notice(t.incident, incidents[t.incident].occurrence, incidents[t.incident].lastSeen)]
      else before
  }

  /** The incident rows, the requests and the cooldown stamps commit together or not at all. */
  function TransactIncidents(s: System, ops: seq<Incidents.Op>, channels: seq<Channel>, now: Time, later: Time): System {
    var (incidents, transitions) := Incidents.ApplyOps(s.incidents, ops, now, later);
    match IN.EnqueueRequests(IN.Queued(incidents, s.tables.outbox), transitions, channels)
    case Err(_) => s
    case Ok(q) => s.(incidents := q.incidents, tables := s.tables.(outbox := q.outbox),
                     due := s.due + NoticesOf(incidents, transitions))
  }

  function Operated(incidents: seq<Incidents.Incident>, r: Result<seq<Incidents.Incident>, string>): seq<Incidents.Incident> {
    match r case Ok(after) => after case Err(_) => incidents
  }

  function PickOutbox(s: System, limit: nat, locked: set<nat>, now: Time): seq<nat> {
    Pick(OutboxMask(s.tables.outbox, now, NOTIFICATION_EVENTS, locked), limit)
  }

  function PickDeliveries(s: System, limit: nat, locked: set<nat>, now: Time): seq<nat> {
    Pick(DeliveryMask(s.tables.deliveries, now, locked), limit)
  }

  function HeldRows(deliveries: seq<DeliveryRow>, picked: seq<nat>, token: Token, now: Time): set<Held> {
    set i | i in picked && i < |deliveries| :: Held(token, i, deliveries[i].attempts, now)
  }

  function Logged(s: System, h: Held, kind: OutcomeKind): seq<Outcome> {
    if Owns(s.tables.deliveries, h.id, h.token) then s.log + [Outcome(h.token, h.id, kind)] else s.log
  }

  function Apply(s: System, a: Action): System {
    var t := s.tables;
    match a
    case IncidentTransaction(ops, channels, now, later) => TransactIncidents(s, ops, channels, now, later)
    case AcknowledgeIncident(row, actor, now) =>
      if row < |s.incidents| then s.(incidents := Operated(s.incidents, Incidents.Acknowledge(s.incidents, row, actor, now)))
      else s
    case ResolveIncident(row, actor, now) =>
      if row < |s.incidents| then s.(incidents := Operated(s.incidents, Incidents.ResolveById(s.incidents, row, actor, now)))
      else s
    case ClaimOutboxBatch(limit, token, lease, locked, now) =>
      var picked := PickOutbox(s, limit, locked, now);
      s.(tables := t.(outbox := ClaimOutbox(t.outbox, picked, token, now + lease)),
         tokens := s.tokens + {token}, publishing := s.publishing + (set i | i in picked :: (token, i)))
    case PublishRecord(token, id) =>
      if id < |t.outbox| && t.outbox[id].payload.Request? then s.(broker := s.broker + {t.outbox[id].payload.request}) else s
    case RecordPublished(token, id, at) => s.(tables := t.(outbox := MarkPublished(t.outbox, id, at, Some(token))))
    case RecordPublishFailed(token, id, reason, next) =>
      s.(tables := t.(outbox := MarkPublishFailed(t.outbox, id, reason, next, Some(token))))
    case TakeRecord(e, lease, now) =>
      var (inbox, k, claimed) := ClaimRequest(t.inbox, e, lease, now);
      if claimed then s.(tables := t.(inbox := inbox), fanning := s.fanning + {(k, e)})
      else s.(processed := s.processed + {e})
    case FanOutRecord(inbox, e) =>
      s.(tables := t.(deliveries := FanOut(t.deliveries, inbox, e, e.channels)), processed := s.processed + {e})
    case CommitOffset(e) => s.(acked := s.acked + {e})
    case ClaimDeliveryBatch(limit, token, lease, locked, now) =>
      var picked := PickDeliveries(s, limit, locked, now);
      var deliveries := ClaimDeliveries(t.deliveries, picked, token, lease, now);
      s.(tables := t.(deliveries := deliveries), tokens := s.tokens + {token},
         held := s.held + HeldRows(deliveries, picked, token, now))
    case Succeed(h, reference, now) =>
      s.(tables := MarkDelivered(t, h.id, h.token, reference, now), log := Logged(s, h, DidDeliver))
    case Retry(h, delay, error) =>
      (match ScheduleRetry(t, h.id, h.token, h.lastAttemptAt + delay, error)
       case Ok(after) => s.(tables := after, log := Logged(s, h, DidRetry))
       case Err(_) => s)
    case GiveUp(h, error, now) =>
      (match DeadLetterDelivery(t, h.id, h.token, error, now)
       case Ok(after) => s.(tables := after, log := Logged(s, h, DidDie))
       case Err(_) => s)
  }

  // ---------- runs ----------

  function Run(actions: seq<Action>): System {
    if actions == [] then INITIAL else Apply(Run(actions[..|actions| - 1]), actions[|actions| - 1])
  }

  ghost predicate Feasible(actions: seq<Action>) {
    actions != [] ==> Feasible(actions[..|actions| - 1]) && Enabled(Run(actions[..|actions| - 1]), actions[|actions| - 1])
  }

  // ---------- invariants, one concern each ----------

  ghost predicate KeyedRow(r: OutboxRow) {
    match r.payload
    case Request(e) =>
      r.key == RequestKey(e.messageId) && ValidRequest(e) && e.messageId == MessageId(e.incidentId, e.occurrence)
    case DeadLetter(d) => r.key == DeadLetterKey(d.deliveryId) && ValidDeadLetter(d)
  }

  ghost predicate InOutbox(outbox: seq<OutboxRow>, e: RequestEvent) {
    exists i | 0 <= i < |outbox| :: outbox[i].payload == Request(e)
  }

  ghost predicate KeysUnique(outbox: seq<OutboxRow>) {
    forall i, j | 0 <= i < j < |outbox| :: outbox[i].key != outbox[j].key
  }

  ghost predicate OutboxInv(outbox: seq<OutboxRow>, broker: set<RequestEvent>) {
    && KeysUnique(outbox)
    && (forall i | 0 <= i < |outbox| :: KeyedRow(outbox[i]))
    && (forall e | e in broker :: InOutbox(outbox, e))
  }

  ghost predicate InboxInv(inbox: seq<InboxRow>, fanning: set<(nat, RequestEvent)>, broker: set<RequestEvent>) {
    && (forall i, j | 0 <= i < j < |inbox| :: inbox[i].messageId != inbox[j].messageId)
    && (forall i | 0 <= i < |inbox| :: inbox[i].messageId == inbox[i].payload.messageId && inbox[i].payload in broker)
    && (forall k, e | (k, e) in fanning :: k < |inbox| && inbox[k].payload == e)
  }

  /** The message's channels are exactly the requested ones. */
  ghost predicate Materialised(deliveries: seq<DeliveryRow>, inbox: nat, channels: seq<Channel>) {
    && (forall c | c in channels :: exists i | 0 <= i < |deliveries| :: deliveries[i].inbox == inbox && deliveries[i].channel == c)
    && (forall i | 0 <= i < |deliveries| && deliveries[i].inbox == inbox :: deliveries[i].channel in channels)
  }

  ghost predicate DeliveryInv(inbox: seq<InboxRow>, deliveries: seq<DeliveryRow>) {
    && |deliveries| <= MAX_ID
    && (forall i | 0 <= i < |deliveries| ::
         deliveries[i].inbox < |inbox| && FromRequest(deliveries[i], inbox[deliveries[i].inbox].payload) && RowInv(deliveries[i]))
    && (forall i, j | 0 <= i < j < |deliveries| && deliveries[i].inbox == deliveries[j].inbox ::
         deliveries[i].channel != deliveries[j].channel)
    && (forall k | 0 <= k < |inbox| :: Empty(deliveries, k) || Materialised(deliveries, k, inbox[k].payload.channels))
  }

  ghost predicate SummaryInv(inbox: seq<InboxRow>, deliveries: seq<DeliveryRow>) {
    forall k | 0 <= k < |inbox| :: inbox[k].status == Summary(deliveries, k)
  }

  ghost predicate DeadLetterMatches(r: DeliveryRow, d: DeadLetterEvent) {
    && r.status == Dead
    && d.requestMessageId == r.messageId && d.incidentId == r.incidentId && d.channel == r.channel
    && d.attempts == r.attempts && Some(d.firstAttemptAt) == r.firstAttemptAt && Some(d.lastAttemptAt) == r.lastAttemptAt
  }

  ghost predicate HasDeadLetter(outbox: seq<OutboxRow>, id: nat) {
    exists j | 0 <= j < |outbox| :: outbox[j].payload.DeadLetter? && outbox[j].payload.deadLetter.deliveryId == id + 1
  }

  /** Dead deliveries and DLQ rows name each other. */
  ghost predicate DeadLetterInv(outbox: seq<OutboxRow>, deliveries: seq<DeliveryRow>) {
    && (forall i | 0 <= i < |deliveries| && deliveries[i].status == Dead :: HasDeadLetter(outbox, i))
    && (forall j | 0 <= j < |outbox| && outbox[j].payload.DeadLetter? ::
         var d := outbox[j].payload.deadLetter;
         1 <= d.deliveryId <= |deliveries| && DeadLetterMatches(deliveries[d.deliveryId - 1], d))
  }

  /** A claim still in force is remembered exactly as it stands in the table. */
  ghost predicate HeldInv(deliveries: seq<DeliveryRow>, held: set<Held>, tokens: set<Token>) {
    && (forall h | h in held :: h.token in tokens && h.id < |deliveries|)
    && (forall h | h in held && deliveries[h.id].claimToken == Some(h.token) ::
         h.attempts == deliveries[h.id].attempts && Some(h.lastAttemptAt) == deliveries[h.id].lastAttemptAt)
    && (forall i | 0 <= i < |deliveries| && deliveries[i].claimToken.Some? :: deliveries[i].claimToken.value in tokens)
  }

  function Count(log: seq<Outcome>, id: nat, kind: OutcomeKind): nat {
    if log == [] then 0
    else Count(log[..|log| - 1], id, kind)
         + (if log[|log| - 1].id == id && log[|log| - 1].kind == kind then 1 else 0)
  }

  function Retries(log: seq<Outcome>, id: nat): nat { Count(log, id, DidRetry) }
  function Endings(log: seq<Outcome>, id: nat): nat { Count(log, id, DidDeliver) + Count(log, id, DidDie) }

  /** What the log says of a row, from the row alone. */
  ghost predicate LogMatches(log: seq<Outcome>, id: nat, r: DeliveryRow) {
    && Endings(log, id) == (if Terminal(r.status) then 1 else 0)
    && Count(log, id, DidDeliver) == (if r.status == Delivered then 1 else 0)
    && Retries(log, id) == (if r.status == Pending || r.status == RetryScheduled then r.attempts else r.attempts - 1)
  }

  ghost predicate LogInv(deliveries: seq<DeliveryRow>, log: seq<Outcome>, tokens: set<Token>) {
    && (forall i | 0 <= i < |deliveries| :: LogMatches(log, i, deliveries[i]))
    && (forall a | 0 <= a < |log| ::
         log[a].id < |deliveries| && log[a].token in tokens && deliveries[log[a].id].claimToken != Some(log[a].token))
    && (forall a, b | 0 <= a < b < |log| :: log[a].token != log[b].token || log[a].id != log[b].id)
  }

  ghost predicate Inv(s: System) {
    && OutboxInv(s.tables.outbox, s.broker)
    && InboxInv(s.tables.inbox, s.fanning, s.broker)
    && DeliveryInv(s.tables.inbox, s.tables.deliveries)
    && SummaryInv(s.tables.inbox, s.tables.deliveries)
    && DeadLetterInv(s.tables.outbox, s.tables.deliveries)
    && HeldInv(s.tables.deliveries, s.held, s.tokens)
    && LogInv(s.tables.deliveries, s.log, s.tokens)
  }
}
