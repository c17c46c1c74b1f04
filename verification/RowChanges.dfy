/** What the commits of the notification tables do, column by column. */
module RowChanges {
  import opened Basics
  import opened Wrappers
  import opened Keys
  import opened NotificationTables

  /** The instant is absent or not after `now`. */
  ghost predicate PassedBy(t: Option<Time>, now: Time) {
    match t case None => true case Some(at) => at <= now
  }

  /** Only row `i` may differ. */
  ghost predicate OnlyRow<T>(before: seq<T>, after: seq<T>, i: nat) {
    |after| == |before| && forall k | 0 <= k < |before| && k != i :: after[k] == before[k]
  }

  // ---------- claims ----------

  /** An outbox row a batch at `now` may take. */
  ghost predicate Waiting(r: OutboxRow, now: Time, types: Option<set<EventType>>) {
    && r.publishedAt == None && PassedBy(r.nextAttemptAt, now) && PassedBy(r.leaseExpiresAt, now)
    && match types
       case None => true
       case Some(wanted) => (match r.payload case Request(_) => DeliveryRequested in wanted
                                             case DeadLetter(_) => DeliveryDeadLettered in wanted)
  }

  /** The rows taken are the first waiting ones that nobody has locked, up to the limit. */
  ghost predicate TakesFirst(n: nat, taken: seq<nat>, limit: nat, may: nat -> bool) {
    && |taken| <= limit
    && (forall j, k | 0 <= j < k < |taken| :: taken[j] < taken[k])
    && (forall i | i in taken :: i < n && may(i))
    && forall i: nat | i < n && may(i) && i !in taken :: |taken| == limit && forall j | j in taken :: j < i
  }

  /** A taken row counts one more attempt and carries token and lease; nothing else changes. */
  ghost predicate OutboxRowClaimed(r: OutboxRow, r': OutboxRow, token: Token, until: Time) {
    && r'.attempts == r.attempts + 1 && r'.claimToken == Some(token) && r'.leaseExpiresAt == Some(until)
    && r'.key == r.key && r'.payload == r.payload && r'.tenantId == r.tenantId
    && r'.publishedAt == r.publishedAt && r'.lastError == r.lastError && r'.nextAttemptAt == r.nextAttemptAt
  }

  ghost predicate OutboxClaimed(before: seq<OutboxRow>, after: seq<OutboxRow>, taken: seq<nat>, limit: nat, token: Token,
                                lease: int, now: Time, types: Option<set<EventType>>, locked: set<nat>)
  {
    && |after| == |before|
    && TakesFirst(|before|, taken, limit, i => 0 <= i < |before| && i !in locked && Waiting(before[i], now, types))
    && forall i | 0 <= i < |before| ::
         if i in taken then OutboxRowClaimed(before[i], after[i], token, now + lease) else after[i] == before[i]
  }

  lemma OutboxClaimHolds(outbox: seq<OutboxRow>, taken: seq<nat>, limit: nat, token: Token, lease: int, now: Time,
                         types: Option<set<EventType>>, locked: set<nat>)
    requires if types == Some({}) then taken == [] else taken == Pick(OutboxMask(outbox, now, types, locked), limit)
    ensures OutboxClaimed(outbox, ClaimOutbox(outbox, taken, token, now + lease), taken, limit, token, lease, now, types, locked)
  {
    hide Pick;
    var mask := OutboxMask(outbox, now, types, locked);
    forall i | 0 <= i < |outbox| ensures mask[i] <==> i !in locked && Waiting(outbox[i], now, types) {}
    if types != Some({}) {
      forall i | i in taken ensures i < |outbox| && mask[i] {
        var j :| 0 <= j < |taken| && taken[j] == i;
      }
      forall i: nat | i < |outbox| && mask[i] && i !in taken ensures |taken| == limit && forall j | j in taken :: j < i {}
    }
  }

  /** A delivery a batch at `now` may take: never tried, due for its retry, or left by a worker whose lease ran out. */
  ghost predicate Free(r: DeliveryRow, now: Time) {
    match r.status
    case Pending => r.attempts < 3 && PassedBy(r.leaseExpiresAt, now)
    case RetryScheduled =>
      r.attempts < 3 && PassedBy(r.leaseExpiresAt, now) && r.nextAttemptAt.Some? && PassedBy(r.nextAttemptAt, now)
    case InFlight => r.leaseExpiresAt.Some? && PassedBy(r.leaseExpiresAt, now)
    case Delivered => false
    case Dead => false
  }

  /** What a delivery keeps through every change of hands. */
  ghost predicate SameDelivery(r: DeliveryRow, r': DeliveryRow) {
    && r'.inbox == r.inbox && r'.messageId == r.messageId && r'.incidentId == r.incidentId && r'.sourceId == r.sourceId
    && r'.tenantId == r.tenantId && r'.severity == r.severity && r'.channel == r.channel
  }

  /** A taken delivery is in flight under the token until the lease ends; a takeover is not a new attempt. */
  ghost predicate DeliveryClaimed(r: DeliveryRow, r': DeliveryRow, token: Token, until: Time, now: Time) {
    && SameDelivery(r, r') && r'.status == InFlight && r'.claimToken == Some(token) && r'.leaseExpiresAt == Some(until)
    && r'.attempts == r.attempts + (if r.status == InFlight then 0 else 1)
    && r'.nextAttemptAt == None && r'.lastAttemptAt == Some(now)
    && (if r.firstAttemptAt == None then r'.firstAttemptAt == Some(now) else r'.firstAttemptAt == r.firstAttemptAt)
    && r'.deliveredAt == r.deliveredAt && r'.deadLetteredAt == r.deadLetteredAt
    && r'.providerReference == r.providerReference && r'.error == r.error
  }

  ghost predicate DeliveriesClaimed(before: seq<DeliveryRow>, after: seq<DeliveryRow>, taken: seq<nat>, limit: nat,
                                    token: Token, lease: int, now: Time, locked: set<nat>)
  {
    && |after| == |before|
    && TakesFirst(|before|, taken, limit, i => 0 <= i < |before| && i !in locked && Free(before[i], now))
    && forall i | 0 <= i < |before| ::
         if i in taken then DeliveryClaimed(before[i], after[i], token, now + lease, now) else after[i] == before[i]
  }

  lemma DeliveryClaimHolds(deliveries: seq<DeliveryRow>, taken: seq<nat>, limit: nat, token: Token, lease: int, now: Time,
                           locked: set<nat>)
    requires taken == Pick(DeliveryMask(deliveries, now, locked), limit)
    ensures DeliveriesClaimed(deliveries, ClaimDeliveries(deliveries, taken, token, lease, now), taken, limit, token, lease, now, locked)
  {
    hide Pick;
    var mask := DeliveryMask(deliveries, now, locked);
    forall i | 0 <= i < |deliveries| ensures mask[i] <==> i !in locked && Free(deliveries[i], now) {}
    forall i | i in taken ensures i < |deliveries| && mask[i] {
      var j :| 0 <= j < |taken| && taken[j] == i;
    }
    forall i: nat | i < |deliveries| && mask[i] && i !in taken ensures |taken| == limit && forall j | j in taken :: j < i {}
  }

  lemma TakenInTable(before: seq<DeliveryRow>, after: seq<DeliveryRow>, taken: seq<nat>, limit: nat, token: Token, lease: int,
                     now: Time, locked: set<nat>)
    requires DeliveriesClaimed(before, after, taken, limit, token, lease, now, locked)
    ensures |after| == |before| && forall i | i in taken :: i < |after|
  {
  }

  // ---------- publications ----------

  /** Seconds until the next attempt, after `attempts` of them. */
  ghost predicate PublishDelay(attempts: nat, seconds: nat) {
    match attempts
    case 1 => seconds == 5
    case 2 => seconds == 10
    case 3 => seconds == 20
    case 4 => seconds == 40
    case 5 => seconds == 80
    case 6 => seconds == 160
    case _ => attempts >= 7 && seconds == 300
  }

  /** A sent row is stamped and free of retry, error and claim. */
  ghost predicate RowPublished(r: OutboxRow, r': OutboxRow, at: Time) {
    && r'.publishedAt == Some(at) && r'.nextAttemptAt == None && r'.lastError == None
    && r'.leaseExpiresAt == None && r'.claimToken == None
    && r'.key == r.key && r'.payload == r.payload && r'.tenantId == r.tenantId && r'.attempts == r.attempts
  }

  /** A failed row is unpublished, says why, and waits for its next attempt without a claim. */
  ghost predicate RowUnpublished(r: OutboxRow, r': OutboxRow, error: string, next: Option<Time>) {
    && r'.publishedAt == None && r'.nextAttemptAt == next
    && r'.lastError.Some? && r'.lastError.value <= error
    && |r'.lastError.value| == (if |error| <= 512 then |error| else 512)
    && r'.leaseExpiresAt == None && r'.claimToken == None
    && r'.key == r.key && r'.payload == r.payload && r'.tenantId == r.tenantId && r'.attempts == r.attempts
  }

  /** One outcome, recorded under the token if the row still carries it, changes its row alone. */
  ghost predicate PublicationRecorded(mark: seq<OutboxRow>, after: seq<OutboxRow>, id: nat, token: Token, sent: bool,
                                      attempts: nat, now: Time)
  {
    if id < |mark| && mark[id].claimToken == Some(token) then
      && OnlyRow(mark, after, id)
      && (if sent then RowPublished(mark[id], after[id], now)
          else exists seconds :: PublishDelay(attempts, seconds)
                 && RowUnpublished(mark[id], after[id], "publish failed", Some(now + seconds)))
    else after == mark
  }

  // ---------- outcomes of a delivery ----------

  /** Prefix of at most `n` characters. */
  ghost predicate Clipped(s: Option<string>, t: Option<string>, n: nat) {
    match s
    case None => t == None
    case Some(long) => t.Some? && t.value <= long && |t.value| == (if |long| <= n then |long| else n)
  }

  /** A delivered row: terminal, unclaimed, without error, and with the provider's reference. */
  ghost predicate RowDelivered(r: DeliveryRow, r': DeliveryRow, reference: Option<string>, now: Time) {
    && SameDelivery(r, r') && r'.status == Delivered && r'.deliveredAt == Some(now)
    && Clipped(reference, r'.providerReference, 255) && r'.error == None
    && r'.claimToken == None && r'.leaseExpiresAt == None && r'.nextAttemptAt == None
    && r'.attempts == r.attempts && r'.firstAttemptAt == r.firstAttemptAt && r'.lastAttemptAt == r.lastAttemptAt
    && r'.deadLetteredAt == r.deadLetteredAt
  }

  /** The stored error names category and code of the failure. */
  ghost predicate Says(stored: Option<DeliveryError>, category: Category, code: Option<string>) {
    stored.Some? && stored.value.category == category && Clipped(code, stored.value.code, 64)
  }

  /** A row to be retried at `next`. */
  ghost predicate RowRetried(r: DeliveryRow, r': DeliveryRow, next: Time, category: Category, code: Option<string>) {
    && SameDelivery(r, r') && r'.status == RetryScheduled && r'.nextAttemptAt == Some(next) && Says(r'.error, category, code)
    && r'.claimToken == None && r'.leaseExpiresAt == None
    && r'.attempts == r.attempts && r'.firstAttemptAt == r.firstAttemptAt && r'.lastAttemptAt == r.lastAttemptAt
    && r'.deliveredAt == r.deliveredAt && r'.deadLetteredAt == r.deadLetteredAt && r'.providerReference == r.providerReference
  }

  /** A dead row. */
  ghost predicate RowDead(r: DeliveryRow, r': DeliveryRow, category: Category, code: Option<string>, now: Time) {
    && SameDelivery(r, r') && r'.status == Dead && r'.deadLetteredAt == Some(now) && Says(r'.error, category, code)
    && r'.claimToken == None && r'.leaseExpiresAt == None && r'.nextAttemptAt == None
    && r'.attempts == r.attempts && r'.deliveredAt == r.deliveredAt && r'.providerReference == r.providerReference
    && (r.firstAttemptAt.Some? ==> r'.firstAttemptAt == r.firstAttemptAt)
    && (r.lastAttemptAt.Some? ==> r'.lastAttemptAt == r.lastAttemptAt)
  }

  /** The dead-letter event tells what the dead row tells. */
  ghost predicate EventTells(d: DeadLetterEvent, id: nat, r: DeliveryRow, category: Category, code: Option<string>) {
    && d.deliveryId == id + 1 && d.requestMessageId == r.messageId && d.incidentId == r.incidentId && d.sourceId == r.sourceId
    && d.tenantId == r.tenantId && d.channel == r.channel && d.attempts == r.attempts
    && d.category == category && Clipped(code, d.code, 64)
    && Some(d.firstAttemptAt) == r.firstAttemptAt && Some(d.lastAttemptAt) == r.lastAttemptAt
  }

  // ---------- the inbox ----------

  /** A message is taken in when it is new, or when its row is still unfinished and its lease has passed. */
  ghost predicate RequestClaimed(before: seq<InboxRow>, after: seq<InboxRow>, row: nat, claimed: bool, e: RequestEvent, until: Time,
                                 now: Time)
  {
    var taken := InboxRow(e.messageId, e, Processing, Some(until), None);
    if forall k | 0 <= k < |before| :: before[k].messageId != e.messageId then
      claimed && row == |before| && after == before + [taken]
    else
      && row < |before| && before[row].messageId == e.messageId
      && (claimed <==> before[row].status == Processing && PassedBy(before[row].leaseExpiresAt, now))
      && after == if claimed then before[row := taken] else before
  }

  lemma RequestClaimHolds(inbox: seq<InboxRow>, e: RequestEvent, lease: int, now: Time)
    ensures var r := ClaimRequest(inbox, e, lease, now);
            RequestClaimed(inbox, r.0, r.1, r.2, e, now + lease, now)
  {
  }

  /** The message's row after its deliveries `d` were read: unfinished while there is none or one is still open. */
  ghost predicate Summarised(d: seq<DeliveryRow>, k: nat, r: InboxRow, r': InboxRow, now: Time) {
    && r'.messageId == r.messageId && r'.payload == r.payload
    && var some := exists i | 0 <= i < |d| :: d[i].inbox == k;
       var open := exists i | 0 <= i < |d| :: d[i].inbox == k && d[i].status != Delivered && d[i].status != Dead;
       var sent := exists i | 0 <= i < |d| :: d[i].inbox == k && d[i].status == Delivered;
       var lost := exists i | 0 <= i < |d| :: d[i].inbox == k && d[i].status == Dead;
       if !some || open then r'.status == Processing && r'.leaseExpiresAt == r.leaseExpiresAt && r'.processedAt == r.processedAt
       else
         && r'.status == (if !lost then Completed else if !sent then DeadLettered else CompletedWithDeadLetters)
         && r'.leaseExpiresAt == None && r'.processedAt == Some(now)
  }

  /** Only this message's row was brought up to date. */
  ghost predicate Refreshed(t: Tables, t': Tables, k: nat, now: Time) {
    && k < |t.inbox| && OnlyRow(t.inbox, t'.inbox, k) && Summarised(t'.deliveries, k, t.inbox[k], t'.inbox[k], now)
  }

  lemma RefreshHolds(t: Tables, k: nat, now: Time)
    requires k < |t.inbox|
    ensures Refreshed(t, RefreshInbox(t, k, now), k, now)
  {
    var d := t.deliveries;
    if !Empty(d, k) {
      var i :| 0 <= i < |d| && d[i].inbox == k;
      assert AllTerminal(d, k) ==> Terminal(d[i].status);
    }
  }

  lemma DeliveredRowHolds(r: DeliveryRow, reference: Option<string>, now: Time)
    ensures RowDelivered(r, DeliveredRow(r, reference, now), reference, now)
  {
  }

  lemma RetryRowHolds(r: DeliveryRow, next: Time, e: DeliveryError)
    ensures RowRetried(r, RetryRow(r, next, e), next, e.category, e.code)
  {
  }

  lemma DeadRowHolds(r: DeliveryRow, id: nat, e: DeliveryError, now: Time)
    ensures RowDead(r, DeadRow(r, e, now), e.category, e.code, now)
    ensures EventTells(DeadLetterOf(r, id, e, now), id, DeadRow(r, e, now), e.category, e.code)
  {
  }

  /** The dead row, its event in the outbox unless one of that key is there already, and its message's summary. */
  ghost predicate BuriedIn(t: Tables, t': Tables, id: nat, category: Category, code: Option<string>, now: Time) {
    && id < |t.deliveries| && OnlyRow(t.deliveries, t'.deliveries, id)
    && RowDead(t.deliveries[id], t'.deliveries[id], category, code, now)
    && Refreshed(t, t', t.deliveries[id].inbox, now)
    && if exists k | 0 <= k < |t.outbox| :: t.outbox[k].key == DeadLetterKey(id + 1) then t'.outbox == t.outbox
       else
         && |t'.outbox| == |t.outbox| + 1 && t'.outbox[..|t.outbox|] == t.outbox
         && EventRow(t'.outbox[|t.outbox|], id, t'.deliveries[id], category, code)
  }

  /** A dead-letter event waiting to be published. */
  ghost predicate EventRow(row: OutboxRow, id: nat, r: DeliveryRow, category: Category, code: Option<string>) {
    && row.key == DeadLetterKey(id + 1) && row.tenantId == r.tenantId
    && row.payload.DeadLetter? && EventTells(row.payload.deadLetter, id, r, category, code)
    && row.publishedAt == None && row.attempts == 0 && row.nextAttemptAt == None && row.leaseExpiresAt == None
    && row.claimToken == None && row.lastError == None
  }

  lemma DeadLetterHolds(t: Tables, id: nat, token: Token, e: DeliveryError, now: Time)
    requires forall i | 0 <= i < |t.deliveries| :: t.deliveries[i].inbox < |t.inbox|
    ensures var r := DeadLetterDelivery(t, id, token, e, now);
            Owns(t.deliveries, id, token) && r.Ok? ==> BuriedIn(t, r.value, id, e.category, e.code, now)
  {
    hide ValidDeadLetter, Summary, RowDead, EventTells, Refreshed, DeadLetterKey;
    if Owns(t.deliveries, id, token) {
      var r := t.deliveries[id];
      DeadRowHolds(r, id, e, now);
      var event := DeadLetterOf(r, id, e, now);
      var middle := t.(deliveries := t.deliveries[id := DeadRow(r, e, now)],
                       outbox := AddOutbox(t.outbox, event.messageId, DeadLetter(event), r.tenantId));
      RefreshHolds(middle, r.inbox, now);
      SameInbox(t, middle, RefreshInbox(middle, r.inbox, now), r.inbox, now);
    }
  }

  lemma SameInbox(t: Tables, middle: Tables, t': Tables, k: nat, now: Time)
    requires middle.inbox == t.inbox && Refreshed(middle, t', k, now)
    ensures Refreshed(t, t', k, now)
  {
  }
}
