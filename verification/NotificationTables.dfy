/** The outbox, inbox and delivery tables, and every committed transition on them, as values.

    A table is a sequence of rows in insertion order and a row's id is its position plus one, so
    `ORDER BY id` is table order. Each function below is one commit-to-commit region. */
module NotificationTables {
  import opened Basics
  import opened Wrappers
  import opened Keys

  type Time = int
  type Token = nat

  const MAX_DELIVERY_ATTEMPTS: nat := 3
  /** Largest value of an Integer primary key. */
  const MAX_ID: nat := 2147483647

  datatype Channel = Slack | Telegram | Webhook | Email

  datatype RequestEvent = RequestEvent(
    messageId: string, incidentId: nat, sourceId: nat, tenantId: Option<nat>, severity: string,
    summary: string, trigger: Trigger, occurrence: nat, occurredAt: Time, channels: seq<Channel>)

  /** The event's own validator. */
  predicate ValidRequest(e: RequestEvent) {
    && 1 <= |e.messageId| <= 255
    && e.incidentId >= 1 && e.sourceId >= 1 && (e.tenantId.Some? ==> e.tenantId.value >= 1)
    && 1 <= |e.severity| <= 32 && 1 <= |e.summary| <= 1024
    && e.occurrence >= 1
    && 1 <= |e.channels| <= 4 && Distinct(e.channels)
  }

  datatype Category = Malformed | Configuration | Unsupported | Transport | RateLimit | Provider | Unknown

  datatype DeliveryError = DeliveryError(category: Category, code: Option<string>, detail: string)

  datatype DeadLetterEvent = DeadLetterEvent(
    messageId: string, deliveryId: nat, requestMessageId: string, incidentId: nat, sourceId: nat,
    tenantId: Option<nat>, channel: Channel, attempts: nat, category: Category, code: Option<string>,
    firstAttemptAt: Time, lastAttemptAt: Time)

  /** The dead-letter event's own validator: a failure raises and rolls the transaction back. */
  predicate ValidDeadLetter(e: DeadLetterEvent) {
    && 1 <= |e.messageId| <= 255
    && e.deliveryId >= 1 && 1 <= |e.requestMessageId| <= 255
    && e.incidentId >= 1 && e.sourceId >= 1 && (e.tenantId.Some? ==> e.tenantId.value >= 1)
    && 1 <= e.attempts <= 3
    && (e.code.Some? ==> |e.code.value| <= 64)
    && e.firstAttemptAt <= e.lastAttemptAt
  }

  datatype EventType = DeliveryRequested | DeliveryDeadLettered

  datatype Payload = Request(request: RequestEvent) | DeadLetter(deadLetter: DeadLetterEvent)
  {
    function EventType(): EventType { if Request? then DeliveryRequested else DeliveryDeadLettered }
  }

  datatype OutboxRow = OutboxRow(
    key: string, payload: Payload, tenantId: Option<nat>, publishedAt: Option<Time>, attempts: nat,
    lastError: Option<string>, nextAttemptAt: Option<Time>, leaseExpiresAt: Option<Time>, claimToken: Option<Token>)

  datatype InboxStatus = Processing | Completed | CompletedWithDeadLetters | DeadLettered

  datatype InboxRow = InboxRow(
    messageId: string, payload: RequestEvent, status: InboxStatus, leaseExpiresAt: Option<Time>,
    processedAt: Option<Time>)

  datatype DeliveryStatus = Pending | InFlight | RetryScheduled | Delivered | Dead

  datatype DeliveryRow = DeliveryRow(
    inbox: nat, messageId: string, incidentId: nat, sourceId: nat, tenantId: Option<nat>, severity: string,
    channel: Channel, status: DeliveryStatus, attempts: nat, nextAttemptAt: Option<Time>,
    leaseExpiresAt: Option<Time>, claimToken: Option<Token>, firstAttemptAt: Option<Time>,
    lastAttemptAt: Option<Time>, deliveredAt: Option<Time>, deadLetteredAt: Option<Time>,
    providerReference: Option<string>, error: Option<DeliveryError>)

  datatype Tables = Tables(outbox: seq<OutboxRow>, inbox: seq<InboxRow>, deliveries: seq<DeliveryRow>)

  function Clip(s: string, n: nat): string { if |s| <= n then s else s[..n] }

  function ClipOption(s: Option<string>, n: nat): Option<string> {
    match s case None => None case Some(t) => Some(Clip(t, n))
  }

  function Later(t: Option<Time>, now: Time): bool { t.Some? && t.value > now }

  // ---------- SELECT ... ORDER BY id FOR UPDATE SKIP LOCKED LIMIT n ----------

  /** The first `limit` marked positions. */
  function Pick(mask: seq<bool>, limit: nat): (picked: seq<nat>)
    ensures |picked| <= limit
    ensures forall j | 0 <= j < |picked| :: picked[j] < |mask| && mask[picked[j]]
    ensures forall j, k | 0 <= j < k < |picked| :: picked[j] < picked[k]
    ensures forall i | 0 <= i < |mask| && mask[i] && i !in picked ::
              |picked| == limit && forall j | 0 <= j < |picked| :: picked[j] < i
  {
    if mask == [] then []
    else
      var last := |mask| - 1;
      var earlier := Pick(mask[..last], limit);
      if mask[last] && |earlier| < limit then earlier + [last] else earlier
  }

  // ---------- outbox ----------

  function KeyAt(outbox: seq<OutboxRow>, key: string): (r: Option<nat>)
    ensures r.Some? ==> r.value < |outbox| && outbox[r.value].key == key
    ensures r.None? ==> forall i | 0 <= i < |outbox| :: outbox[i].key != key
  {
    if outbox == [] then None
    else if outbox[|outbox| - 1].key == key then Some(|outbox| - 1)
    else KeyAt(outbox[..|outbox| - 1], key)
  }

  function NewOutboxRow(key: string, payload: Payload, tenantId: Option<nat>): OutboxRow {
    OutboxRow(key, payload, tenantId, None, 0, None, None, None, None)
  }

  /** Insert unless the idempotency key is taken. */
  function AddOutbox(outbox: seq<OutboxRow>, key: string, payload: Payload, tenantId: Option<nat>): seq<OutboxRow> {
    if KeyAt(outbox, key).Some? then outbox else outbox + [NewOutboxRow(key, payload, tenantId)]
  }

  predicate OutboxDue(r: OutboxRow, now: Time, types: Option<set<EventType>>) {
    && r.publishedAt.None? && !Later(r.nextAttemptAt, now) && !Later(r.leaseExpiresAt, now)
    && (types.Some? ==> r.payload.EventType() in types.value)
  }

  function OutboxMask(outbox: seq<OutboxRow>, now: Time, types: Option<set<EventType>>, locked: set<nat>): seq<bool> {
    seq(|outbox|, i requires 0 <= i < |outbox| => i !in locked && OutboxDue(outbox[i], now, types))
  }

  function ClaimedOutboxRow(r: OutboxRow, token: Token, until: Time): OutboxRow {
    r.(attempts := r.attempts + 1, claimToken := Some(token), leaseExpiresAt := Some(until))
  }

  function ClaimOutbox(outbox: seq<OutboxRow>, picked: seq<nat>, token: Token, until: Time): seq<OutboxRow> {
    seq(|outbox|, i requires 0 <= i < |outbox| =>
      if i in picked then ClaimedOutboxRow(outbox[i], token, until) else outbox[i])
  }

  /** A row answers to a mark when it exists and the caller's token, if given, is the current one. */
  predicate OutboxAnswers(outbox: seq<OutboxRow>, id: nat, token: Option<Token>) {
    id < |outbox| && (token.Some? ==> outbox[id].claimToken == token)
  }

  function MarkPublished(outbox: seq<OutboxRow>, id: nat, at: Time, token: Option<Token>): seq<OutboxRow> {
    if !OutboxAnswers(outbox, id, token) then outbox
    else outbox[id := outbox[id].(publishedAt := Some(at), lastError := None, nextAttemptAt := None,
                                  leaseExpiresAt := None, claimToken := None)]
  }

  function MarkPublishFailed(outbox: seq<OutboxRow>, id: nat, error: string, next: Option<Time>, token: Option<Token>)
    : seq<OutboxRow>
  {
    if !OutboxAnswers(outbox, id, token) then outbox
    else outbox[id := outbox[id].(lastError := Some(Clip(error, 512)), publishedAt := None, nextAttemptAt := next,
                                  leaseExpiresAt := None, claimToken := None)]
  }

  // ---------- inbox intake ----------

  function MessageAt(inbox: seq<InboxRow>, messageId: string): (r: Option<nat>)
    ensures r.Some? ==> r.value < |inbox| && inbox[r.value].messageId == messageId
    ensures r.None? ==> forall i | 0 <= i < |inbox| :: inbox[i].messageId != messageId
  {
    if inbox == [] then None
    else if inbox[|inbox| - 1].messageId == messageId then Some(|inbox| - 1)
    else MessageAt(inbox[..|inbox| - 1], messageId)
  }

  /** Claim or reclaim one message: the new table, the row, and whether this caller may fan out. */
  function ClaimRequest(inbox: seq<InboxRow>, e: RequestEvent, lease: int, now: Time): (seq<InboxRow>, nat, bool) {
    var at := MessageAt(inbox, e.messageId);
    var row := InboxRow(e.messageId, e, Processing, Some(now + lease), None);
    if at.None? then (inbox + [row], |inbox|, true)
    else if inbox[at.value].status != Processing || Later(inbox[at.value].leaseExpiresAt, now) then
      (inbox, at.value, false)
    else (inbox[at.value := row], at.value, true)
  }

  // ---------- fan-out ----------

  function NewDelivery(inbox: nat, e: RequestEvent, c: Channel): DeliveryRow {
    DeliveryRow(inbox, e.messageId, e.incidentId, e.sourceId, e.tenantId, e.severity, c, Pending, 0,
                None, None, None, None, None, None, None, None, None)
  }

  predicate HasDelivery(deliveries: seq<DeliveryRow>, messageId: string, c: Channel) {
    exists i | 0 <= i < |deliveries| :: deliveries[i].messageId == messageId && deliveries[i].channel == c
  }

  /** One insert per channel, skipped where (message, channel) is already there. */
  function FanOut(deliveries: seq<DeliveryRow>, inbox: nat, e: RequestEvent, channels: seq<Channel>): seq<DeliveryRow> {
    if channels == [] then deliveries
    else
      var c := channels[|channels| - 1];
      var before := FanOut(deliveries, inbox, e, channels[..|channels| - 1]);
      if HasDelivery(before, e.messageId, c) then before else before + [NewDelivery(inbox, e, c)]
  }

  // ---------- leased delivery claims ----------

  predicate DueUnclaimed(r: DeliveryRow, now: Time) {
    && r.attempts < MAX_DELIVERY_ATTEMPTS
    && (r.status == Pending || (r.status == RetryScheduled && r.nextAttemptAt.Some? && r.nextAttemptAt.value <= now))
    && !Later(r.leaseExpiresAt, now)
  }

  predicate Abandoned(r: DeliveryRow, now: Time) {
    r.status == InFlight && r.leaseExpiresAt.Some? && r.leaseExpiresAt.value <= now
  }

  predicate Claimable(r: DeliveryRow, now: Time) { DueUnclaimed(r, now) || Abandoned(r, now) }

  function DeliveryMask(deliveries: seq<DeliveryRow>, now: Time, locked: set<nat>): seq<bool> {
    seq(|deliveries|, i requires 0 <= i < |deliveries| => i !in locked && Claimable(deliveries[i], now))
  }

  function ClaimedRow(r: DeliveryRow, token: Token, lease: int, now: Time): DeliveryRow {
    r.(status := InFlight,
       attempts := if r.status == InFlight then r.attempts else r.attempts + 1,
       claimToken := Some(token),
       leaseExpiresAt := Some(now + lease),
       nextAttemptAt := None,
       firstAttemptAt := if r.firstAttemptAt.Some? then r.firstAttemptAt else Some(now),
       lastAttemptAt := Some(now))
  }

  function ClaimDeliveries(deliveries: seq<DeliveryRow>, picked: seq<nat>, token: Token, lease: int, now: Time)
    : seq<DeliveryRow>
  {
    seq(|deliveries|, i requires 0 <= i < |deliveries| =>
      if i in picked then ClaimedRow(deliveries[i], token, lease, now) else deliveries[i])
  }

  // ---------- outcomes ----------

  /** The fence: only the current lease owner finds the row. */
  predicate Owns(deliveries: seq<DeliveryRow>, id: nat, token: Token) {
    id < |deliveries| && deliveries[id].status == InFlight && deliveries[id].claimToken == Some(token)
  }

  predicate Terminal(s: DeliveryStatus) { s == Delivered || s == Dead }

  predicate Empty(deliveries: seq<DeliveryRow>, inbox: nat) {
    forall i | 0 <= i < |deliveries| :: deliveries[i].inbox != inbox
  }

  predicate AllTerminal(deliveries: seq<DeliveryRow>, inbox: nat) {
    forall i | 0 <= i < |deliveries| :: deliveries[i].inbox == inbox ==> Terminal(deliveries[i].status)
  }

  predicate AllAre(deliveries: seq<DeliveryRow>, inbox: nat, s: DeliveryStatus) {
    forall i | 0 <= i < |deliveries| :: deliveries[i].inbox == inbox ==> deliveries[i].status == s
  }

  /** What a message's deliveries add up to. */
  function Summary(deliveries: seq<DeliveryRow>, inbox: nat): InboxStatus {
    if Empty(deliveries, inbox) || !AllTerminal(deliveries, inbox) then Processing
    else if AllAre(deliveries, inbox, Delivered) then Completed
    else if AllAre(deliveries, inbox, Dead) then DeadLettered
    else CompletedWithDeadLetters
  }

  function RefreshedRow(r: InboxRow, s: InboxStatus, now: Time): InboxRow {
    if s == Processing then r.(status := Processing)
    else r.(status := s, leaseExpiresAt := None, processedAt := Some(now))
  }

  /** Recompute one inbox row from its deliveries. The foreign key makes the row exist. */
  function RefreshInbox(t: Tables, inbox: nat, now: Time): Tables {
    if inbox >= |t.inbox| then t
    else t.(inbox := t.inbox[inbox := RefreshedRow(t.inbox[inbox], Summary(t.deliveries, inbox), now)])
  }

  function DeliveredRow(r: DeliveryRow, reference: Option<string>, now: Time): DeliveryRow {
    r.(status := Delivered, deliveredAt := Some(now), nextAttemptAt := None,
       providerReference := ClipOption(reference, 255), claimToken := None, leaseExpiresAt := None, error := None)
  }

  function MarkDelivered(t: Tables, id: nat, token: Token, reference: Option<string>, now: Time): Tables {
    if !Owns(t.deliveries, id, token) then t
    else
      var row := DeliveredRow(t.deliveries[id], reference, now);
      RefreshInbox(t.(deliveries := t.deliveries[id := row]), row.inbox, now)
  }

  function ClippedError(e: DeliveryError): DeliveryError {
    DeliveryError(e.category, ClipOption(e.code, 64), Clip(e.detail, 512))
  }

  function RetryRow(r: DeliveryRow, next: Time, e: DeliveryError): DeliveryRow {
    r.(status := RetryScheduled, nextAttemptAt := Some(next), claimToken := None, leaseExpiresAt := None,
       error := Some(ClippedError(e)))
  }

  /** Err is the ValueError raised once the attempt budget is spent. */
  function ScheduleRetry(t: Tables, id: nat, token: Token, next: Time, e: DeliveryError): Result<Tables, string> {
    if !Owns(t.deliveries, id, token) then Ok(t)
    else if t.deliveries[id].attempts >= MAX_DELIVERY_ATTEMPTS then Err("Delivery attempt budget is exhausted.")
    else Ok(t.(deliveries := t.deliveries[id := RetryRow(t.deliveries[id], next, e)]))
  }

  function Or(t: Option<Time>, default: Time): Time { if t.Some? then t.value else default }

  function DeadRow(r: DeliveryRow, e: DeliveryError, now: Time): DeliveryRow {
    r.(status := Dead, deadLetteredAt := Some(now), nextAttemptAt := None,
       firstAttemptAt := Some(Or(r.firstAttemptAt, now)), lastAttemptAt := Some(Or(r.lastAttemptAt, now)),
       claimToken := None, leaseExpiresAt := None, error := Some(ClippedError(e)))
  }

  function DeadLetterOf(r: DeliveryRow, id: nat, e: DeliveryError, now: Time): DeadLetterEvent {
    DeadLetterEvent(DeadLetterKey(id + 1), id + 1, r.messageId, r.incidentId, r.sourceId, r.tenantId, r.channel,
                    r.attempts, e.category, ClipOption(e.code, 64), Or(r.firstAttemptAt, now), Or(r.lastAttemptAt, now))
  }

  /** Terminal row, DLQ intent and inbox summary in one commit. Err is the event's ValidationError. */
  function DeadLetterDelivery(t: Tables, id: nat, token: Token, e: DeliveryError, now: Time): Result<Tables, string> {
    if !Owns(t.deliveries, id, token) then Ok(t)
    else
      var event := DeadLetterOf(t.deliveries[id], id, e, now);
      if !ValidDeadLetter(event) then Err("validation")
      else
        var row := DeadRow(t.deliveries[id], e, now);
        Ok(RefreshInbox(
             t.(deliveries := t.deliveries[id := row],
                outbox := AddOutbox(t.outbox, event.messageId, DeadLetter(event), row.tenantId)),
             row.inbox, now))
  }
}
