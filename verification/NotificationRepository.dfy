/** The repository, consumer and publisher code, in place, proved against the transitions on values. */
module NotificationRepository {
  import opened Basics
  import opened Wrappers
  import opened Keys
  import opened NotificationTables
  import opened RowChanges
  import opened PublishTallies
  import opened DeliveryTallies
  import opened NotificationInvariants
  import opened P = NotificationProtocol
  import S = NotificationSafety

  /** `_classify_provider_error`: category, code and whether a retry is left open. */
  function Classify(r: ProviderResult): (Category, Option<string>, bool)
    requires !r.Accepted?
  {
    match r
    case ProviderError(category, code, retryable) => (category, code, retryable)
    case ValueError(name) => (Configuration, Some(name), false)
    case OtherError(name) => (Unknown, Some(name), true)
  }

  /** What classification says of each kind of exception. */
  lemma ClassifyMeans(p: ProviderResult)
    requires !p.Accepted?
    ensures Classify(p).0 == CategoryOf(p) && Classify(p).1 == CodeOf(p) && Classify(p).2 == MayRetry(p)
  {
  }

  datatype BatchResult = BatchResult(claimed: nat, delivered: nat, retried: nat, deadLettered: nat, conflicts: nat)

  datatype PublishResult = PublishResult(claimed: nat, published: nat, failed: nat, conflicts: nat)

  datatype RequestResult = RequestResult(inbox: nat, claimed: bool, deliveries: nat)

  const RETRY_BASE_SECONDS: nat := 5
  const RETRY_MAX_SECONDS: nat := 300

  /** `outbox_retry_delay_seconds`. */
  function OutboxRetryDelay(attempts: nat): nat
    requires attempts >= 1
  {
    var exponent := if attempts - 1 <= 30 then attempts - 1 else 30;
    var delay := RETRY_BASE_SECONDS * Pow2(exponent);
    if delay <= RETRY_MAX_SECONDS then delay else RETRY_MAX_SECONDS
  }

  /** The delay doubles from 5 seconds and stays at 300 from the seventh attempt on. */
  lemma OutboxRetryDelayMeaning(attempts: nat)
    requires attempts >= 1
    ensures 5 <= OutboxRetryDelay(attempts) <= 300
    ensures attempts >= 7 <==> OutboxRetryDelay(attempts) == 300
    ensures attempts < 6 ==> OutboxRetryDelay(attempts + 1) == 2 * OutboxRetryDelay(attempts)
  {
    assert Pow2(2) == 4 && Pow2(4) == 16 && Pow2(5) == 32 && Pow2(6) == 64;
    assert Pow2(3) == 8 && Pow2(1) == 2;
    if attempts >= 7 { Pow2Grows(6, if attempts - 1 <= 30 then attempts - 1 else 30); }
  }

  /** After one attempt 5 seconds, then 10, 20, 40, 80, 160, and 300 from the seventh on. */
  lemma OutboxRetryDelayTable(attempts: nat)
    requires attempts >= 1
    ensures PublishDelay(attempts, OutboxRetryDelay(attempts))
  {
    OutboxRetryDelayMeaning(attempts);
    assert Pow2(2) == 4 && Pow2(3) == 8 && Pow2(4) == 16 && Pow2(5) == 32 && Pow2(1) == 2 && Pow2(0) == 1;
  }

  /** Marking under a token is what recording a publication means. */
  lemma RecordingHolds(mark: seq<OutboxRow>, id: nat, token: Token, sent: bool, attempts: nat, now: Time)
    requires attempts >= 1
    ensures var after := if sent then MarkPublished(mark, id, now, Some(token))
                         else MarkPublishFailed(mark, id, "publish failed", Some(now + OutboxRetryDelay(attempts)), Some(token));
            PublicationRecorded(mark, after, id, token, sent, attempts, now) && |after| == |mark|
  {
    hide OutboxRetryDelay;
    OutboxRetryDelayTable(attempts);
    assert |"publish failed"| == 14;
  }

  lemma {:induction false} Pow2Grows(j: nat, k: nat)
    requires j <= k
    ensures Pow2(j) <= Pow2(k)
  {
    if j < k { Pow2Grows(j, k - 1); }
  }

  // ---------- what a delivery pass needs of its steps ----------

  lemma {:induction false} ClaimReadable(t: Tables, limit: nat, token: Token, lease: nat, now: Time, locked: set<nat>)
    requires Readable(t) && forall i | 0 <= i < |t.deliveries| :: t.deliveries[i].claimToken != Some(token)
    ensures var rows := Pick(DeliveryMask(t.deliveries, now, locked), limit);
            var d' := ClaimDeliveries(t.deliveries, rows, token, lease, now);
            && Readable(t.(deliveries := d')) && |d'| == |t.deliveries|
            && (forall i | 0 <= i < |d'| && Owns(d', i, token) :: i in rows)
            && (forall i | 0 <= i < |d'| && i in rows :: RowInv(d'[i]) && Owns(d', i, token))
  {
    hide RowInv, FromRequest, ValidRequest, Pick, Claimable;
    var mask := DeliveryMask(t.deliveries, now, locked);
    var rows := Pick(mask, limit);
    var d' := ClaimDeliveries(t.deliveries, rows, token, lease, now);
    forall i | 0 <= i < |d'|
      ensures RowInv(d'[i]) && FromRequest(d'[i], t.inbox[d'[i].inbox].payload)
    {
      if i in rows {
        assert mask[i];
        ClaimedRowInv(t.deliveries[i], token, lease, now);
        SameRequest(t.deliveries[i], d'[i], t.inbox[d'[i].inbox].payload);
      }
    }
  }

  lemma SameRequest(r: DeliveryRow, r': DeliveryRow, e: RequestEvent)
    requires FromRequest(r, e) && S.SameIdentity(r, r')
    ensures FromRequest(r', e)
  {
  }

  /** A pass over row `id` concluded it or lost it; the rest of the table stands. */
  ghost predicate Passed(t: Tables, t': Tables, id: nat, token: Token) {
    && |t'.deliveries| == |t.deliveries| && Readable(t')
    && (forall i | 0 <= i < |t.deliveries| && i != id :: t'.deliveries[i] == t.deliveries[i])
    && (id < |t.deliveries| ==> t'.deliveries[id].inbox == t.deliveries[id].inbox)
    && !Owns(t'.deliveries, id, token)
  }

  lemma RowReplaced(t: Tables, t': Tables, id: nat, r': DeliveryRow, token: Token)
    requires Readable(t) && id < |t.deliveries| && t'.deliveries == t.deliveries[id := r']
    requires |t'.inbox| == |t.inbox| && forall k | 0 <= k < |t.inbox| :: t'.inbox[k].payload == t.inbox[k].payload
    requires S.SameIdentity(t.deliveries[id], r') && RowInv(r') && r'.status != InFlight
    ensures Passed(t, t', id, token)
  {
    hide RowInv, FromRequest, ValidRequest;
    SameRequest(t.deliveries[id], r', t.inbox[r'.inbox].payload);
  }

  lemma DeliveredPasses(t: Tables, id: nat, token: Token, reference: Option<string>, now: Time)
    requires Readable(t)
    ensures Passed(t, MarkDelivered(t, id, token, reference, now), id, token)
  {
    hide RowInv, FromRequest, ValidRequest, Summary;
    if Owns(t.deliveries, id, token) {
      var r := t.deliveries[id];
      OutcomeRowInv(r, reference, DeliveryError(Unknown, None, ""), now, now);
      RowReplaced(t, MarkDelivered(t, id, token, reference, now), id, DeliveredRow(r, reference, now), token);
    }
  }

  lemma RetryPasses(t: Tables, id: nat, token: Token, next: Time, e: DeliveryError)
    requires Readable(t)
    requires Owns(t.deliveries, id, token) ==>
               var r := t.deliveries[id]; r.attempts < MAX_DELIVERY_ATTEMPTS && r.lastAttemptAt.Some? && r.lastAttemptAt.value <= next
    ensures var r := ScheduleRetry(t, id, token, next, e); r.Ok? && Passed(t, r.value, id, token)
  {
    hide RowInv, FromRequest, ValidRequest;
    if Owns(t.deliveries, id, token) {
      var r := t.deliveries[id];
      OutcomeRowInv(r, None, e, next, next);
      RowReplaced(t, ScheduleRetry(t, id, token, next, e).value, id, RetryRow(r, next, e), token);
    }
  }

  lemma DeadLetterPasses(t: Tables, id: nat, token: Token, e: DeliveryError, now: Time)
    requires Readable(t)
    ensures var r := DeadLetterDelivery(t, id, token, e, now); r.Ok? && Passed(t, r.value, id, token)
  {
    hide RowInv, FromRequest, ValidRequest, Summary, ValidDeadLetter, AddOutbox;
    if Owns(t.deliveries, id, token) {
      var r := t.deliveries[id];
      DeadLetterValid(r, id, t.inbox[r.inbox].payload, e, now);
      OutcomeRowInv(r, None, e, now, now);
      RowReplaced(t, DeadLetterDelivery(t, id, token, e, now).value, id, DeadRow(r, e, now), token);
    }
  }

  /** What the loop knows: the rows still held are the unprocessed ones, and they are as remembered. */
  ghost predicate Remembered(t: Tables, memory: seq<DeliveryRow>, token: Token, left: seq<nat>) {
    && Readable(t) && |memory| <= |t.deliveries|
    && (forall i | 0 <= i < |memory| :: t.deliveries[i].inbox == memory[i].inbox)
    && (forall i | 0 <= i < |memory| && Owns(t.deliveries, i, token) :: t.deliveries[i] == memory[i])
    && (forall i | 0 <= i < |t.deliveries| && Owns(t.deliveries, i, token) :: i < |memory| && i in left)
  }

  lemma AwaitKeeps(t: Tables, t': Tables, memory: seq<DeliveryRow>, token: Token, left: seq<nat>)
    requires Remembered(t, memory, token, left) && Respects(t, t', token) && Readable(t') && Idle(t, t', token)
    ensures Remembered(t', memory, token, left)
  {
    hide Readable;
    forall i | 0 <= i < |t'.deliveries| && Owns(t'.deliveries, i, token)
      ensures i < |memory| && i in left && t'.deliveries[i] == memory[i]
    {
      assert i < |t.deliveries|;
      assert t'.deliveries[i] == t.deliveries[i];
      assert Owns(t.deliveries, i, token);
    }
  }

  lemma RememberedRow(t: Tables, memory: seq<DeliveryRow>, token: Token, left: seq<nat>, id: nat)
    requires Remembered(t, memory, token, left) && id < |memory|
    ensures Readable(t) && (Owns(t.deliveries, id, token) ==> t.deliveries[id] == memory[id])
  {
    hide Readable;
  }

  /** The request of a remembered row is stored and valid, whoever holds the row by now. */
  lemma StoredRequest(t: Tables, memory: seq<DeliveryRow>, token: Token, left: seq<nat>, id: nat)
    requires Remembered(t, memory, token, left) && id < |memory|
    ensures memory[id].inbox < |t.inbox| && ValidRequest(t.inbox[memory[id].inbox].payload)
  {
    hide RowInv, FromRequest, ValidRequest;
    assert t.deliveries[id].inbox == memory[id].inbox;
  }

  lemma AllProcessed(t: Tables, memory: seq<DeliveryRow>, token: Token)
    requires Remembered(t, memory, token, [])
    ensures Readable(t) && forall i | 0 <= i < |t.deliveries| :: !Owns(t.deliveries, i, token)
  {
    hide Readable;
  }

  lemma PassKeeps(t: Tables, t': Tables, memory: seq<DeliveryRow>, token: Token, id: nat, left: seq<nat>)
    requires Remembered(t, memory, token, [id] + left) && Passed(t, t', id, token)
    ensures Remembered(t', memory, token, left)
  {
    hide Readable;
    forall i | 0 <= i < |t'.deliveries| && Owns(t'.deliveries, i, token)
      ensures i < |memory| && i in left && t'.deliveries[i] == memory[i]
    {
      assert t'.deliveries[i] == t.deliveries[i];
      assert Owns(t.deliveries, i, token);
    }
  }

  lemma NoOutboxClaim(outbox: seq<OutboxRow>, token: Token, until: Time)
    ensures ClaimOutbox(outbox, [], token, until) == outbox
  {
  }

  lemma NextOutboxClaim(outbox: seq<OutboxRow>, picked: seq<nat>, i: nat, token: Token, until: Time)
    requires i < |outbox| && i !in picked
    ensures var middle := ClaimOutbox(outbox, picked, token, until);
            && |middle| == |outbox|
            && ClaimOutbox(outbox, picked + [i], token, until) == middle[i := ClaimedOutboxRow(middle[i], token, until)]
  {
    hide ClaimedOutboxRow;
  }

  /** A claimed row has been attempted, so its retry delay is defined. */
  lemma ClaimCounts(outbox: seq<OutboxRow>, picked: seq<nat>, token: Token, until: Time)
    ensures forall i | 0 <= i < |outbox| && i in picked :: ClaimOutbox(outbox, picked, token, until)[i].attempts >= 1
  {
  }

  lemma MarksKeepRows(outbox: seq<OutboxRow>, id: nat, at: Time, error: string, next: Option<Time>, token: Option<Token>)
    ensures |MarkPublished(outbox, id, at, token)| == |outbox| == |MarkPublishFailed(outbox, id, error, next, token)|
  {
  }

  lemma NoDeliveryClaim(deliveries: seq<DeliveryRow>, token: Token, lease: int, now: Time)
    ensures ClaimDeliveries(deliveries, [], token, lease, now) == deliveries
  {
  }

  lemma NextDeliveryClaim(deliveries: seq<DeliveryRow>, picked: seq<nat>, i: nat, token: Token, lease: int, now: Time)
    requires i < |deliveries| && i !in picked
    ensures var middle := ClaimDeliveries(deliveries, picked, token, lease, now);
            && |middle| == |deliveries|
            && ClaimDeliveries(deliveries, picked + [i], token, lease, now)
               == middle[i := ClaimedRow(middle[i], token, lease, now)]
  {
    hide ClaimedRow;
  }

  class NotificationStore {
    var outbox: seq<OutboxRow>
    var inbox: seq<InboxRow>
    var deliveries: seq<DeliveryRow>

    constructor ()
      ensures Now() == Tables([], [], [])
    {
      outbox, inbox, deliveries := [], [], [];
    }

    function Now(): Tables
      reads this
    {
      Tables(outbox, inbox, deliveries)
    }

    // ---------- outbox ----------

    method AddOutboxEvent(key: string, payload: Payload, tenantId: Option<nat>) returns (id: nat)
      modifies this`outbox
      ensures outbox == AddOutbox(old(outbox), key, payload, tenantId)
      ensures id < |outbox| && outbox[id].key == key
    {
      var taken := KeyAt(outbox, key);
      if taken.None? {
        var row := OutboxRow(key, payload, tenantId, None, 0, None, None, None, None);
        outbox := outbox + [row];
        return |outbox| - 1;
      }
      return taken.value;
    }

    method ClaimOutboxRow(i: nat, token: Token, until: Time)
      requires i < |outbox|
      modifies this`outbox
      ensures outbox == old(outbox)[i := ClaimedOutboxRow(old(outbox)[i], token, until)]
    {
      var row := outbox[i];
      row := row.(attempts := row.attempts + 1);
      row := row.(claimToken := Some(token));
      row := row.(leaseExpiresAt := Some(until));
      outbox := outbox[i := row];
    }

    method ClaimPendingOutboxEvents(limit: nat, token: Token, lease: int, now: Time, types: Option<set<EventType>>,
                                    locked: set<nat>)
      returns (events: seq<nat>)
      modifies this`outbox
      ensures types == Some({}) ==> events == [] && outbox == old(outbox)
      ensures types != Some({}) ==> events == Pick(OutboxMask(old(outbox), now, types, locked), limit)
      ensures outbox == ClaimOutbox(old(outbox), events, token, now + lease)
      ensures OutboxClaimed(old(outbox), outbox, events, limit, token, lease, now, types, locked)
    {
      hide OutboxClaimed, ClaimedOutboxRow, OutboxDue, ClaimOutbox, Pick;
      NoOutboxClaim(outbox, token, now + lease);
      if types == Some({}) {
        OutboxClaimHolds(outbox, [], limit, token, lease, now, types, locked);
        return [];
      }
      events := Pick(OutboxMask(outbox, now, types, locked), limit);
      OutboxClaimHolds(outbox, events, limit, token, lease, now, types, locked);
      ghost var before := outbox;
      for n := 0 to |events|
        invariant outbox == ClaimOutbox(before, events[..n], token, now + lease)
      {
        assert events[..n + 1] == events[..n] + [events[n]];
        NextOutboxClaim(before, events[..n], events[n], token, now + lease);
        ClaimOutboxRow(events[n], token, now + lease);
      }
      assert events[..|events|] == events;
    }

    method MarkOutboxPublished(id: nat, at: Time, token: Option<Token>) returns (found: bool)
      modifies this`outbox
      ensures outbox == MarkPublished(old(outbox), id, at, token)
      ensures found <==> OutboxAnswers(old(outbox), id, token)
      ensures found ==> OnlyRow(old(outbox), outbox, id) && RowPublished(old(outbox)[id], outbox[id], at)
    {
      if id >= |outbox| || (token.Some? && outbox[id].claimToken != token) {
        return false;
      }
      var row := outbox[id].(publishedAt := Some(at), lastError := None);
      row := row.(nextAttemptAt := None, leaseExpiresAt := None);
      row := row.(claimToken := None);
      outbox := outbox[id := row];
      return true;
    }

    method MarkOutboxPublishFailed(id: nat, error: string, next: Option<Time>, token: Option<Token>) returns (found: bool)
      modifies this`outbox
      ensures outbox == MarkPublishFailed(old(outbox), id, error, next, token)
      ensures found <==> OutboxAnswers(old(outbox), id, token)
      ensures found ==> OnlyRow(old(outbox), outbox, id) && RowUnpublished(old(outbox)[id], outbox[id], error, next)
    {
      if id >= |outbox| || (token.Some? && outbox[id].claimToken != token) {
        return false;
      }
      var row := outbox[id].(lastError := Some(Clip(error, 512)), publishedAt := None);
      row := row.(nextAttemptAt := next);
      row := row.(leaseExpiresAt := None, claimToken := None);
      outbox := outbox[id := row];
      return true;
    }

    // ---------- intake ----------

    method ClaimNotificationRequest(e: RequestEvent, lease: int, now: Time) returns (row: nat, claimed: bool)
      modifies this`inbox
      ensures (inbox, row, claimed) == ClaimRequest(old(inbox), e, lease, now)
      ensures row < |inbox|
      ensures RequestClaimed(old(inbox), inbox, row, claimed, e, now + lease, now)
    {
      RequestClaimHolds(inbox, e, lease, now);
      hide RequestClaimed;
      var until := now + lease;
      var at := MessageAt(inbox, e.messageId);
      if at.None? {
        inbox := inbox + [InboxRow(e.messageId, e, Processing, Some(until), None)];
        return |inbox| - 1, true;
      }
      row := at.value;
      var current := inbox[row];
      if current.status == Completed || current.status == CompletedWithDeadLetters || current.status == DeadLettered {
        return row, false;
      }
      if current.leaseExpiresAt.Some? && current.leaseExpiresAt.value > now {
        return row, false;
      }
      current := current.(status := Processing, leaseExpiresAt := Some(until));
      current := current.(payload := e);
      current := current.(processedAt := None);
      inbox := inbox[row := current];
      return row, true;
    }

    method AddChannelDeliveries(row: nat, e: RequestEvent)
      modifies this`deliveries
      ensures deliveries == FanOut(old(deliveries), row, e, e.channels)
    {
      ghost var before := deliveries;
      for n := 0 to |e.channels|
        invariant deliveries == FanOut(before, row, e, e.channels[..n])
      {
        var c := e.channels[n];
        assert e.channels[..n + 1][..n] == e.channels[..n];
        if !HasDelivery(deliveries, e.messageId, c) {
          deliveries := deliveries + [NewDelivery(row, e, c)];
        }
      }
      assert e.channels[..|e.channels|] == e.channels;
    }

    /** One uninterrupted intake: claim, commit, fan out, commit. */
    method AcceptNotificationRequest(e: RequestEvent, lease: int, now: Time) returns (r: Result<RequestResult, string>)
      modifies this
      ensures !ValidRequest(e) ==> r.Err? && Now() == old(Now())
      ensures ValidRequest(e) ==>
        var (inbox', k, claimed) := ClaimRequest(old(inbox), e, lease, now);
        && r.Ok? && r.value.inbox == k && r.value.claimed == claimed && inbox == inbox' && outbox == old(outbox)
        && deliveries == (if claimed then FanOut(old(deliveries), k, e, e.channels) else old(deliveries))
    {
      if !ValidRequest(e) {
        return Err("Invalid notification delivery request event.");
      }
      var k, claimed := ClaimNotificationRequest(e, lease, now);
      if !claimed {
        return Ok(RequestResult(k, false, 0));
      }
      AddChannelDeliveries(k, e);
      var count := |set i | 0 <= i < |deliveries| && deliveries[i].messageId == e.messageId|;
      return Ok(RequestResult(k, true, count));
    }

    // ---------- deliveries ----------

    method ClaimRow(i: nat, token: Token, lease: int, now: Time)
      requires i < |deliveries|
      modifies this`deliveries
      ensures deliveries == old(deliveries)[i := ClaimedRow(old(deliveries)[i], token, lease, now)]
    {
      var row := deliveries[i];
      var abandoned := row.status == InFlight;
      row := row.(status := InFlight);
      if !abandoned {
        row := row.(attempts := row.attempts + 1);
      }
      row := row.(claimToken := Some(token));
      row := row.(leaseExpiresAt := Some(now + lease));
      row := row.(nextAttemptAt := None);
      if row.firstAttemptAt.None? {
        row := row.(firstAttemptAt := Some(now));
      }
      row := row.(lastAttemptAt := Some(now));
      deliveries := deliveries[i := row];
    }

    method ClaimDueDeliveries(limit: nat, token: Token, lease: int, now: Time, locked: set<nat>) returns (claimed: seq<nat>)
      modifies this`deliveries
      ensures claimed == Pick(DeliveryMask(old(deliveries), now, locked), limit)
      ensures deliveries == ClaimDeliveries(old(deliveries), claimed, token, lease, now)
      ensures DeliveriesClaimed(old(deliveries), deliveries, claimed, limit, token, lease, now, locked)
    {
      hide DeliveriesClaimed, ClaimedRow, Claimable, ClaimDeliveries, Pick;
      NoDeliveryClaim(deliveries, token, lease, now);
      claimed := Pick(DeliveryMask(deliveries, now, locked), limit);
      DeliveryClaimHolds(deliveries, claimed, limit, token, lease, now, locked);
      ghost var before := deliveries;
      for n := 0 to |claimed|
        invariant deliveries == ClaimDeliveries(before, claimed[..n], token, lease, now)
      {
        assert claimed[..n + 1] == claimed[..n] + [claimed[n]];
        NextDeliveryClaim(before, claimed[..n], claimed[n], token, lease, now);
        ClaimRow(claimed[n], token, lease, now);
      }
      assert claimed[..|claimed|] == claimed;
    }

    method RefreshInboxStatus(k: nat, now: Time)
      requires k < |inbox|
      modifies this`inbox
      ensures Now() == RefreshInbox(old(Now()), k, now)
      ensures Refreshed(old(Now()), Now(), k, now)
    {
      RefreshHolds(Now(), k, now);
      hide Refreshed;
      var some, open, allDelivered, allDead := false, false, true, true;
      for i := 0 to |deliveries|
        invariant inbox == old(inbox)
        invariant some <==> exists j | 0 <= j < i :: deliveries[j].inbox == k
        invariant open <==> exists j | 0 <= j < i :: deliveries[j].inbox == k && !Terminal(deliveries[j].status)
        invariant allDelivered <==> forall j | 0 <= j < i && deliveries[j].inbox == k :: deliveries[j].status == Delivered
        invariant allDead <==> forall j | 0 <= j < i && deliveries[j].inbox == k :: deliveries[j].status == Dead
      {
        if deliveries[i].inbox == k {
          some := true;
          open := open || !Terminal(deliveries[i].status);
          allDelivered := allDelivered && deliveries[i].status == Delivered;
          allDead := allDead && deliveries[i].status == Dead;
        }
      }
      var row := inbox[k];
      if !some || open {
        inbox := inbox[k := row.(status := Processing)];
        return;
      }
      if allDelivered {
        row := row.(status := Completed);
      } else if allDead {
        row := row.(status := DeadLettered);
      } else {
        row := row.(status := CompletedWithDeadLetters);
      }
      row := row.(leaseExpiresAt := None);
      row := row.(processedAt := Some(now));
      inbox := inbox[k := row];
    }

    method MarkDeliveryDelivered(id: nat, token: Token, reference: Option<string>, now: Time) returns (found: bool)
      requires forall i | 0 <= i < |deliveries| :: deliveries[i].inbox < |inbox|
      modifies this
      ensures found <==> Owns(old(deliveries), id, token)
      ensures Now() == MarkDelivered(old(Now()), id, token, reference, now)
      ensures outbox == old(outbox)
      ensures if !found then Now() == old(Now())
              else OnlyRow(old(deliveries), deliveries, id) && RowDelivered(old(deliveries)[id], deliveries[id], reference, now)
                   && Refreshed(old(Now()), Now(), old(deliveries)[id].inbox, now)
    {
      hide RowDelivered;
      if !Owns(deliveries, id, token) {
        return false;
      }
      var row := deliveries[id];
      DeliveredRowHolds(row, reference, now);
      row := row.(status := Delivered, deliveredAt := Some(now));
      row := row.(nextAttemptAt := None);
      row := row.(providerReference := ClipOption(reference, 255));
      row := row.(claimToken := None, leaseExpiresAt := None);
      row := row.(error := None);
      deliveries := deliveries[id := row];
      RefreshInboxStatus(row.inbox, now);
      return true;
    }

    method ScheduleDeliveryRetry(id: nat, token: Token, next: Time, e: DeliveryError) returns (r: Result<bool, string>)
      modifies this
      ensures match ScheduleRetry(old(Now()), id, token, next, e)
              case Ok(after) => r == Ok(Owns(old(deliveries), id, token)) && Now() == after
              case Err(m) => r == Err(m) && Now() == old(Now())
      ensures r.Err? <==> Owns(old(deliveries), id, token) && old(deliveries)[id].attempts >= 3
      ensures inbox == old(inbox) && outbox == old(outbox)
      ensures if r != Ok(true) then deliveries == old(deliveries)
              else OnlyRow(old(deliveries), deliveries, id)
                   && RowRetried(old(deliveries)[id], deliveries[id], next, e.category, e.code)
    {
      hide RowRetried;
      if !Owns(deliveries, id, token) {
        return Ok(false);
      }
      var row := deliveries[id];
      RetryRowHolds(row, next, e);
      if row.attempts >= MAX_DELIVERY_ATTEMPTS {
        return Err("Delivery attempt budget is exhausted.");
      }
      row := row.(status := RetryScheduled);
      row := row.(nextAttemptAt := Some(next));
      row := row.(claimToken := None, leaseExpiresAt := None);
      row := row.(error := Some(DeliveryError(e.category, ClipOption(e.code, 64), Clip(e.detail, 512))));
      deliveries := deliveries[id := row];
      return Ok(true);
    }

    method DeadLetterDeliveryRow(id: nat, token: Token, e: DeliveryError, now: Time) returns (r: Result<bool, string>)
      requires forall i | 0 <= i < |deliveries| :: deliveries[i].inbox < |inbox|
      modifies this
      ensures match DeadLetterDelivery(old(Now()), id, token, e, now)
              case Ok(after) => r == Ok(Owns(old(deliveries), id, token)) && Now() == after
              case Err(m) => r == Err(m) && Now() == old(Now())
      ensures if r != Ok(true) then Now() == old(Now())
              else BuriedIn(old(Now()), Now(), id, e.category, e.code, now)
    {
      ghost var before := Now();
      DeadLetterHolds(before, id, token, e, now);
      hide BuriedIn, Summary, ValidDeadLetter, AddOutbox;
      if !Owns(deliveries, id, token) {
        return Ok(false);
      }
      var original := deliveries[id];
      var row := original.(status := Dead, deadLetteredAt := Some(now));
      row := row.(nextAttemptAt := None);
      var first := if row.firstAttemptAt.Some? then row.firstAttemptAt.value else now;
      var last := if row.lastAttemptAt.Some? then row.lastAttemptAt.value else now;
      row := row.(firstAttemptAt := Some(first), lastAttemptAt := Some(last));
      row := row.(claimToken := None, leaseExpiresAt := None);
      row := row.(error := Some(DeliveryError(e.category, ClipOption(e.code, 64), Clip(e.detail, 512))));
      var event := DeadLetterEvent(DeadLetterKey(id + 1), id + 1, row.messageId, row.incidentId, row.sourceId, row.tenantId,
                                   row.channel, row.attempts, e.category, ClipOption(e.code, 64), first, last);
      if !ValidDeadLetter(event) {
        return Err("validation");
      }
      deliveries := deliveries[id := row];
      var _ := AddOutboxEvent(event.messageId, DeadLetter(event), row.tenantId);
      RefreshInboxStatus(row.inbox, now);
      return Ok(true);
    }

    // ---------- batches, with everyone else running in between ----------

    /** An await of a publisher: anything may happen to the outbox but losing rows. */
    method AwaitBroker()
      modifies this`outbox
      ensures |old(outbox)| <= |outbox|
    {
    }

    /** Record one outcome under the batch's token; `attempts` is the count the claim left. */
    method RecordPublication(id: nat, sent: bool, attempts: nat, token: Token, now: Time) returns (found: bool)
      requires attempts >= 1
      modifies this`outbox
      ensures found <==> OutboxAnswers(old(outbox), id, Some(token))
      ensures PublicationRecorded(old(outbox), outbox, id, token, sent, attempts, now)
      ensures |outbox| == |old(outbox)|
    {
      RecordingHolds(outbox, id, token, sent, attempts, now);
      if sent {
        found := MarkOutboxPublished(id, now, Some(token));
      } else {
        found := MarkOutboxPublishFailed(id, "publish failed", Some(now + OutboxRetryDelay(attempts)), Some(token));
      }
    }

    /** One publisher pass. `start` is the outbox once the batch is claimed, `marks[n]` and `after[n]` are the outbox
        before and after the n-th outcome is recorded; others may commit anything at the awaits in between. */
    method PublishBatch(limit: nat, lease: int, timeout: real, now: Time, token: Token, locked: set<nat>, sent: nat -> bool)
      returns (r: Result<PublishResult, string>, ghost events: seq<nat>, ghost start: seq<OutboxRow>,
               ghost marks: seq<seq<OutboxRow>>, ghost after: seq<seq<OutboxRow>>)
      modifies this`outbox
      ensures r.Ok? <==> 1 <= limit <= 100 && lease >= 1 && 0.0 < timeout <= 60.0
      ensures r.Err? ==> outbox == old(outbox)
      // what is claimed, and what every recorded outcome leaves behind
      ensures r.Ok? ==> OutboxClaimed(old(outbox), start, events, limit, token, lease, now, NOTIFICATION_EVENTS, locked)
      ensures r.Ok? ==> Recorded(events, start, marks, after, token, sent, now)
      ensures r.Ok? ==> outbox == if events == [] then start else after[|events| - 1]
      // what the counters count
      ensures r.Ok? ==> |marks| == |events|
      ensures r.Ok? ==>
        r.value == PublishResult(|events|, |PublishedEvents(events, marks, token, sent)|, |FailedEvents(events, sent)|,
                                 |ConflictingEvents(events, marks, token)|)
      ensures r.Ok? ==>
        && r.value.published + r.value.failed + r.value.conflicts
           == r.value.claimed + |LostFailures(events, marks, token, sent)|
      ensures r.Ok? ==>
        (r.value.published + r.value.failed + r.value.conflicts == r.value.claimed
         <==> forall n | 0 <= n < |events| && !sent(n) :: !Gone(events, marks, token, n))
    {
      hide Pick, ClaimedOutboxRow, OutboxDue, OutboxClaimed, Recorded, Gone, PublishedEvents, FailedEvents, ConflictingEvents;
      events, start, marks, after := [], [], [], [];
      if !(1 <= limit <= 100) {
        return Err("limit must be between 1 and 100"), events, start, marks, after;
      }
      if lease < 1 {
        return Err("lease_seconds must be positive"), events, start, marks, after;
      }
      if !(0.0 < timeout <= 60.0) {
        return Err("publish_timeout_seconds must be between 0 and 60"), events, start, marks, after;
      }
      var claimed := ClaimPendingOutboxEvents(limit, token, lease, now, NOTIFICATION_EVENTS, locked);
      events := claimed;
      var memory := outbox;  // the session's objects, as of the claim's commit
      start := memory;
      ClaimCounts(old(outbox), claimed, token, now + lease);
      var tally;
      tally, marks, after := PublishClaimed(claimed, memory, token, now, sent);
      TalliesExactIff(claimed, marks, token, sent);
      return Ok(PublishResult(|claimed|, tally.published, tally.failed, tally.conflicts)), events, start, marks, after;
    }

    /** Await the broker for the next row, record how that ended, and count it. */
    method PublishOne(id: nat, took: bool, memory: seq<OutboxRow>, token: Token, now: Time, tally: Tally, ghost events: seq<nat>,
                      ghost marks: seq<seq<OutboxRow>>, ghost after: seq<seq<OutboxRow>>, ghost sent: nat -> bool)
      returns (next: Tally, ghost mark: seq<OutboxRow>)
      requires id < |memory| && memory[id].attempts >= 1 && took == sent(|events|)
      requires Recorded(events, memory, marks, after, token, sent, now) && Counted(events, marks, token, sent, tally)
      modifies this`outbox
      ensures Recorded(events + [id], memory, marks + [mark], after + [outbox], token, sent, now)
      ensures Counted(events + [id], marks + [mark], token, sent, next)
    {
      hide *;
      AwaitBroker();
      mark := outbox;
      var found := RecordPublication(id, took, memory[id].attempts, token, now);
      NextRecorded(events, memory, marks, after, token, sent, now, id, mark, outbox);
      NextEvent(events, marks, token, sent, id, mark, tally);
      next := tally;
      if !took { next := next.(failed := next.failed + 1); }
      if !found {
        next := next.(conflicts := next.conflicts + 1);
      } else if took {
        next := next.(published := next.published + 1);
      }
    }

    /** The loop over the claimed rows. */
    method PublishClaimed(claimed: seq<nat>, memory: seq<OutboxRow>, token: Token, now: Time, sent: nat -> bool)
      returns (tally: Tally, ghost marks: seq<seq<OutboxRow>>, ghost after: seq<seq<OutboxRow>>)
      requires forall id | id in claimed :: id < |memory| && memory[id].attempts >= 1
      modifies this`outbox
      ensures Recorded(claimed, memory, marks, after, token, sent, now)
      ensures outbox == if claimed == [] then old(outbox) else after[|claimed| - 1]
      ensures Counted(claimed, marks, token, sent, tally)
    {
      tally, marks, after := Tally(0, 0, 0), [], [];
      ghost var done: seq<nat> := [];
      assert Counted(done, [], token, sent, tally);
      hide *;
      NothingRecorded(memory, token, sent, now);
      for n := 0 to |claimed|
        invariant done == claimed[..n] && |after| == n
        invariant Recorded(done, memory, marks, after, token, sent, now) && Counted(done, marks, token, sent, tally)
        invariant outbox == if n == 0 then old(outbox) else after[n - 1]
      {
        assert claimed[n] in claimed;
        ghost var mark;
        tally, mark := PublishOne(claimed[n], sent(n), memory, token, now, tally, done, marks, after, sent);
        done, marks, after := done + [claimed[n]], marks + [mark], after + [outbox];
      }
      assert done == claimed;
    }

    /** An await: other participants commit any number of steps. */
    method Await(ghost token: Token)
      requires Readable(Now())
      modifies this
      ensures Readable(Now()) && Respects(old(Now()), Now(), token) && Idle(old(Now()), Now(), token)
    {
    }

    /** The failure branch for one row: retry while the budget lasts, else dead-letter. The three exceptions
        the code can raise here, an undefined delay, a spent budget and an invalid event, cannot occur. */
    method RecordFailure(id: nat, row: DeliveryRow, token: Token, failure: ProviderResult, now: Time)
      returns (retry: bool, found: bool)
      requires Readable(Now()) && !failure.Accepted? && RowInv(row) && row.status == InFlight
      requires Owns(deliveries, id, token) ==> deliveries[id] == row
      modifies this
      ensures Passed(old(Now()), Now(), id, token)
      ensures OutcomeRecorded(old(Now()), Now(), id, token, failure, now)
      ensures retry <==> MayRetry(failure) && row.attempts < 3
      ensures found <==> Owns(old(deliveries), id, token)
    {
      hide OutcomeRecorded, MayRetry, CategoryOf, CodeOf, Readable, Passed, Classify, MarkDelivered;
      ClassifyMeans(failure);
      var (category, code, retryable) := Classify(failure);
      var error := DeliveryError(category, code, "notification provider call failed");
      if retryable && row.attempts < MAX_DELIVERY_ATTEMPTS {
        assert row.attempts == 1 || row.attempts == 2;
        var delay: nat :| RetryDelay(row.attempts, delay) by { assert RetryDelay(1, 25) && RetryDelay(2, 270); }
        var last := if row.lastAttemptAt.Some? then row.lastAttemptAt.value else now;
        assert RetryDelay(row.attempts, delay);
        assert row.lastAttemptAt.Some? && RetryWithin(row.attempts, delay) && last + delay - row.lastAttemptAt.value == delay;
        RetryPasses(Now(), id, token, last + delay, error);
        RetryIsRecorded(Now(), id, token, failure, last + delay, error, now);
        var updated := ScheduleDeliveryRetry(id, token, last + delay, error);
        assert updated.Ok?;
        return true, updated.value;
      }
      DeadLetterPasses(Now(), id, token, error, now);
      DeadIsRecorded(Now(), id, token, failure, error, now);
      ReadableRows(Now());
      var updated := DeadLetterDeliveryRow(id, token, error, now);
      assert updated.Ok?;
      return false, updated.value;
    }

    /** `_delivery_request`: the stored request of a row. Err is the RuntimeError of a missing inbox row, or the
        ValueError of a payload that is no longer valid. */
    method DeliveryRequest(row: DeliveryRow) returns (r: Result<RequestEvent, string>)
      ensures r.Ok? <==> row.inbox < |inbox| && ValidRequest(inbox[row.inbox].payload)
      ensures r.Ok? ==> r.value == inbox[row.inbox].payload
    {
      if row.inbox >= |inbox| {
        return Err("Inbox consumption is missing.");
      }
      if !ValidRequest(inbox[row.inbox].payload) {
        return Err("Invalid notification delivery request event.");
      }
      return Ok(inbox[row.inbox].payload);
    }

    /** The commit of one outcome. */
    method DeliverOne(id: nat, row: DeliveryRow, outcome: ProviderResult, token: Token, now: Time)
      returns (fate: Fate)
      requires Readable(Now()) && RowInv(row) && row.status == InFlight
      requires Owns(deliveries, id, token) ==> deliveries[id] == row
      modifies this
      ensures Passed(old(Now()), Now(), id, token)
      ensures OutcomeRecorded(old(Now()), Now(), id, token, outcome, now)
      ensures fate == FateOf(old(Now()), id, token, outcome)
    {
      hide RowInv, FromRequest, ValidRequest, Passed, OutcomeRecorded, Readable, MayRetry, MarkDelivered;
      if outcome.Accepted? {
        DeliveredPasses(Now(), id, token, outcome.reference, now);
        DeliveredIsRecorded(Now(), id, token, outcome, now);
        ReadableRows(Now());
        var found := MarkDeliveryDelivered(id, token, outcome.reference, now);
        return if found then WasDelivered else WasLost;
      }
      var retry, found := RecordFailure(id, row, token, outcome, now);
      return if !found then WasLost else if retry then WasRetried else WasBuried;
    }

    /** One delivery pass. It never raises, records one outcome for every claimed row it still holds, accounts for every
        row exactly once, and leaves none in flight under its token, whatever others commit at its awaits. `start` is the
        table once the batch is claimed, `marks[n]` and `after[n]` are the tables around the n-th outcome. */
    method DeliverDueNotifications(limit: nat, token: Token, lease: nat, now: Time, locked: set<nat>,
                                   provider: nat -> ProviderResult)
      returns (r: BatchResult, ghost claimed: seq<nat>, ghost start: seq<DeliveryRow>, ghost marks: seq<Tables>,
               ghost after: seq<Tables>)
      requires Readable(Now())
      requires forall i | 0 <= i < |deliveries| :: deliveries[i].claimToken != Some(token)
      modifies this
      ensures Readable(Now())
      // what is claimed, and what every recorded outcome leaves behind
      ensures DeliveriesClaimed(old(deliveries), start, claimed, limit, token, lease, now, locked)
      ensures AllRecorded(claimed, marks, after, token, provider, now)
      ensures claimed != [] ==> Now() == after[|claimed| - 1]
      ensures forall i | 0 <= i < |deliveries| :: !Owns(deliveries, i, token)
      // what the counters count
      ensures |marks| == |claimed|
      ensures r.claimed == |claimed|
      ensures r.delivered == |WithFate(claimed, marks, token, provider, WasDelivered)|
      ensures r.retried == |WithFate(claimed, marks, token, provider, WasRetried)|
      ensures r.deadLettered == |WithFate(claimed, marks, token, provider, WasBuried)|
      ensures r.conflicts == |WithFate(claimed, marks, token, provider, WasLost)|
      ensures r.claimed == r.delivered + r.retried + r.deadLettered + r.conflicts
    {
      hide Readable, Remembered, Passed, Respects, Idle, RowInv, Pick, ClaimedRow, Claimable, ClaimDeliveries, DeliveryMask,
        DeliveriesClaimed, AllRecorded, OutcomeRecorded, FateOf, WithFate, MarkDelivered;
      ClaimReadable(Now(), limit, token, lease, now, locked);
      var rows := ClaimDueDeliveries(limit, token, lease, now, locked);
      claimed, start := rows, deliveries;
      StartRemembering(Now(), token, claimed);
      TakenInTable(old(deliveries), deliveries, claimed, limit, token, lease, now, locked);
      RowsInMemory(claimed, deliveries, token);
      r, marks, after := DeliverClaimed(rows, deliveries, token, now, provider);
    }

    /** The loop over the claimed rows; `memory` are the session's objects, as of the claim's commit. */
    method DeliverClaimed(rows: seq<nat>, memory: seq<DeliveryRow>, token: Token, now: Time, provider: nat -> ProviderResult)
      returns (r: BatchResult, ghost marks: seq<Tables>, ghost after: seq<Tables>)
      requires Remembered(Now(), memory, token, rows)
      requires forall i | i in rows :: i < |memory| && RowInv(memory[i]) && memory[i].status == InFlight
      modifies this
      ensures Readable(Now())
      ensures AllRecorded(rows, marks, after, token, provider, now)
      ensures rows != [] ==> Now() == after[|rows| - 1]
      ensures forall i | 0 <= i < |deliveries| :: !Owns(deliveries, i, token)
      ensures |marks| == |rows|
      ensures r.claimed == |rows|
      ensures r.delivered == |WithFate(rows, marks, token, provider, WasDelivered)|
      ensures r.retried == |WithFate(rows, marks, token, provider, WasRetried)|
      ensures r.deadLettered == |WithFate(rows, marks, token, provider, WasBuried)|
      ensures r.conflicts == |WithFate(rows, marks, token, provider, WasLost)|
      ensures r.claimed == r.delivered + r.retried + r.deadLettered + r.conflicts
    {
      hide Readable, Remembered, Passed, RowInv, AllRecorded, OutcomeRecorded, FateOf, WithFate, Owns;
      assert rows[0..] == rows && rows[..0] == [];
      var delivered, retried, deadLettered, conflicts := 0, 0, 0, 0;
      marks, after := [], [];
      NoOutcomes(token, provider, now);
      NoFates(token, provider);
      for n := 0 to |rows|
        invariant |marks| == |after| == n
        invariant n == delivered + retried + deadLettered + conflicts
        invariant delivered == |WithFate(rows[..n], marks, token, provider, WasDelivered)|
        invariant retried == |WithFate(rows[..n], marks, token, provider, WasRetried)|
        invariant deadLettered == |WithFate(rows[..n], marks, token, provider, WasBuried)|
        invariant conflicts == |WithFate(rows[..n], marks, token, provider, WasLost)|
        invariant AllRecorded(rows[..n], marks, after, token, provider, now)
        invariant n > 0 ==> Now() == after[n - 1]
        invariant Remembered(Now(), memory, token, rows[n..])
      {
        var id := rows[n];
        assert rows[n..] == [id] + rows[n + 1..] && rows[..n + 1] == rows[..n] + [id];
        assert id in rows;
        var row := memory[id];
        ghost var mark := AwaitProvider(id, row, memory, rows[n..], token);
        var fate := DeliverOne(id, row, provider(n), token, now);
        PassKeeps(mark, Now(), memory, token, id, rows[n + 1..]);
        NextOutcome(rows[..n], marks, after, token, provider, now, id, mark, Now());
        NextFates(rows[..n], marks, token, provider, id, mark);
        marks, after := marks + [mark], after + [Now()];
        match fate {
          case WasDelivered => delivered := delivered + 1;
          case WasRetried => retried := retried + 1;
          case WasBuried => deadLettered := deadLettered + 1;
          case WasLost => conflicts := conflicts + 1;
        }
      }
      assert rows[|rows|..] == [] && rows[..|rows|] == rows;
      AllProcessed(Now(), memory, token);
      return BatchResult(|rows|, delivered, retried, deadLettered, conflicts), marks, after;
    }

    /** Look the stored request up and wait for the provider. */
    method AwaitProvider(id: nat, row: DeliveryRow, ghost memory: seq<DeliveryRow>, ghost left: seq<nat>, token: Token)
      returns (ghost mark: Tables)
      requires Remembered(Now(), memory, token, left) && id < |memory| && row == memory[id]
      modifies this
      ensures mark == Now() && Remembered(Now(), memory, token, left) && Readable(Now())
      ensures Owns(deliveries, id, token) ==> deliveries[id] == row
    {
      hide Readable, Remembered, Respects, Idle, RowInv, FromRequest, ValidRequest;
      ghost var before := Now();
      RememberedRow(before, memory, token, left, id);
      StoredRequest(before, memory, token, left, id);
      var request := DeliveryRequest(row);
      assert request.Ok?;
      Await(token);
      AwaitKeeps(before, Now(), memory, token, left);
      RememberedRow(Now(), memory, token, left, id);
      mark := Now();
    }
  }

  lemma ReadableRows(t: Tables)
    requires Readable(t)
    ensures forall i | 0 <= i < |t.deliveries| :: t.deliveries[i].inbox < |t.inbox|
  {
  }

  /** Claimed rows are in memory, in flight and in their lifecycle. */
  lemma RowsInMemory(rows: seq<nat>, memory: seq<DeliveryRow>, token: Token)
    requires forall i | 0 <= i < |memory| && i in rows :: RowInv(memory[i]) && Owns(memory, i, token)
    requires forall i | i in rows :: i < |memory|
    ensures forall i | i in rows :: i < |memory| && RowInv(memory[i]) && memory[i].status == InFlight
  {
    hide RowInv;
  }

  lemma StartRemembering(t: Tables, token: Token, rows: seq<nat>)
    requires Readable(t) && forall i | 0 <= i < |t.deliveries| && Owns(t.deliveries, i, token) :: i in rows
    ensures Remembered(t, t.deliveries, token, rows)
  {
    hide Readable;
  }
}
