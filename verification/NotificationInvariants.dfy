/** Facts about single rows and single commits that the protocol's invariants are built from. */
module NotificationInvariants {
  import opened Basics
  import opened Wrappers
  import opened Keys
  import opened NotificationTables

  // ---------- one delivery row ----------

  /** Every reachable delivery row: which columns go with which status, and in which order times lie. */
  ghost predicate RowInv(r: DeliveryRow) {
    && r.attempts <= MAX_DELIVERY_ATTEMPTS
    && (r.status == InFlight <==> r.claimToken.Some?)
    && (r.status == InFlight <==> r.leaseExpiresAt.Some?)
    && (r.status == RetryScheduled <==> r.nextAttemptAt.Some?)
    && (r.status == Pending <==> r.attempts == 0)
    && (r.status == RetryScheduled ==> r.attempts < MAX_DELIVERY_ATTEMPTS)
    && (r.attempts > 0 <==> r.firstAttemptAt.Some?)
    && (r.attempts > 0 <==> r.lastAttemptAt.Some?)
    && (r.attempts > 0 ==> r.firstAttemptAt.value <= r.lastAttemptAt.value)
    && (r.status == InFlight ==> r.lastAttemptAt.value <= r.leaseExpiresAt.value)
    && (r.status == RetryScheduled ==> r.lastAttemptAt.value <= r.nextAttemptAt.value)
    && (r.status == Delivered <==> r.deliveredAt.Some?)
    && (r.status == Dead <==> r.deadLetteredAt.Some?)
  }

  lemma NewRowInv(inbox: nat, e: RequestEvent, c: Channel)
    ensures RowInv(NewDelivery(inbox, e, c))
  {
  }

  lemma ClaimedRowInv(r: DeliveryRow, token: Token, lease: nat, now: Time)
    requires RowInv(r) && Claimable(r, now)
    ensures RowInv(ClaimedRow(r, token, lease, now))
  {
  }

  lemma OutcomeRowInv(r: DeliveryRow, reference: Option<string>, e: DeliveryError, next: Time, now: Time)
    requires RowInv(r) && r.status == InFlight
    ensures RowInv(DeliveredRow(r, reference, now)) && RowInv(DeadRow(r, e, now))
    ensures r.attempts < MAX_DELIVERY_ATTEMPTS && r.lastAttemptAt.value <= next ==> RowInv(RetryRow(r, next, e))
  {
  }

  /** When a live row may next be claimed. */
  function ReadyAt(r: DeliveryRow, now: Time): Time {
    match r.status
    case RetryScheduled => if r.nextAttemptAt.Some? then r.nextAttemptAt.value else now
    case InFlight => if r.leaseExpiresAt.Some? then r.leaseExpiresAt.value else now
    case _ => now
  }

  /** No live row is stranded: it is claimable exactly from its ready time on, so the attempt filter
      never blocks a scheduled retry, and terminal rows are never claimed again. */
  lemma ClaimableIffReady(r: DeliveryRow, now: Time)
    requires RowInv(r)
    ensures Claimable(r, now) <==> !Terminal(r.status) && ReadyAt(r, now) <= now
  {
  }

  /** (3 - attempts, in flight) */
  function Budget(r: DeliveryRow): int { MAX_DELIVERY_ATTEMPTS - r.attempts }
  function Rank(r: DeliveryRow): nat { if r.status == InFlight then 1 else 0 }

  ghost predicate MeasureDrops(before: DeliveryRow, after: DeliveryRow) {
    0 <= Budget(after) && (Budget(after) < Budget(before) || (Budget(after) == Budget(before) && Rank(after) < Rank(before)))
  }

  // ---------- the dead-letter event ----------

  ghost predicate FromRequest(r: DeliveryRow, e: RequestEvent) {
    && r.messageId == e.messageId && r.incidentId == e.incidentId && r.sourceId == e.sourceId
    && r.tenantId == e.tenantId && r.severity == e.severity && r.channel in e.channels
  }

  /** The dead-letter event always passes its own validator, because of what claims leave behind. */
  lemma DeadLetterValid(r: DeliveryRow, id: nat, request: RequestEvent, e: DeliveryError, now: Time)
    requires RowInv(r) && r.status == InFlight && FromRequest(r, request) && ValidRequest(request)
    requires id < MAX_ID
    ensures ValidDeadLetter(DeadLetterOf(r, id, e, now))
  {
    DecLength(id + 1, 10) by {
      assert Pow10(9) == 1000000000 by {
        assert Pow10(3) == 1000;
        assert Pow10(6) == 1000 * Pow10(3);
        assert Pow10(9) == 1000 * Pow10(6);
      }
      assert Pow10(10) == 10 * Pow10(9);
    }
    assert |DeadLetterKey(id + 1)| == 26 + |Dec(id + 1)|;
  }

  // ---------- fan-out ----------

  /** Fan-out only appends pending rows of its own message. */
  lemma {:induction false} FanOutAppends(deliveries: seq<DeliveryRow>, inbox: nat, e: RequestEvent, channels: seq<Channel>)
    ensures var after := FanOut(deliveries, inbox, e, channels);
            && deliveries <= after
            && |after| <= |deliveries| + |channels|
            && (forall i | |deliveries| <= i < |after| ::
                 after[i] == NewDelivery(inbox, e, after[i].channel) && after[i].channel in channels)
  {
    if channels != [] {
      FanOutAppends(deliveries, inbox, e, channels[..|channels| - 1]);
    }
  }

  /** On a message without deliveries it creates exactly the requested list, in order. */
  lemma {:induction false} FanOutFresh(deliveries: seq<DeliveryRow>, inbox: nat, e: RequestEvent, channels: seq<Channel>)
    requires Distinct(channels)
    requires forall i | 0 <= i < |deliveries| :: deliveries[i].messageId != e.messageId
    ensures FanOut(deliveries, inbox, e, channels) ==
            deliveries + seq(|channels|, j requires 0 <= j < |channels| => NewDelivery(inbox, e, channels[j]))
  {
    if channels != [] {
      var front, c := channels[..|channels| - 1], channels[|channels| - 1];
      FanOutFresh(deliveries, inbox, e, front);
      var before := FanOut(deliveries, inbox, e, front);
      forall i | 0 <= i < |before| ensures before[i].messageId != e.messageId || before[i].channel != c {
        if i >= |deliveries| { assert before[i].channel == front[i - |deliveries|]; }
      }
    }
  }

  /** Replaying a message whose channels are all there changes nothing. */
  lemma {:induction false} FanOutReplay(deliveries: seq<DeliveryRow>, inbox: nat, e: RequestEvent, channels: seq<Channel>)
    requires forall c | c in channels :: HasDelivery(deliveries, e.messageId, c)
    ensures FanOut(deliveries, inbox, e, channels) == deliveries
  {
    if channels != [] {
      FanOutReplay(deliveries, inbox, e, channels[..|channels| - 1]);
    }
  }

  // ---------- inbox summary ----------

  /** A summary reads only which rows belong to the message and how they ended. */
  lemma SummaryByStatus(before: seq<DeliveryRow>, after: seq<DeliveryRow>, inbox: nat)
    requires |before| == |after|
    requires forall i | 0 <= i < |before| :: before[i].inbox == after[i].inbox
    requires forall i | 0 <= i < |before| && before[i].inbox == inbox ::
               Terminal(before[i].status) == Terminal(after[i].status)
               && (Terminal(before[i].status) ==> before[i].status == after[i].status)
    ensures Summary(after, inbox) == Summary(before, inbox)
  {
    assert Empty(after, inbox) <==> Empty(before, inbox);
    if !Empty(before, inbox) {
      assert AllTerminal(after, inbox) <==> AllTerminal(before, inbox);
      if AllTerminal(before, inbox) {
        assert AllAre(after, inbox, Delivered) <==> AllAre(before, inbox, Delivered);
        assert AllAre(after, inbox, Dead) <==> AllAre(before, inbox, Dead);
      }
    }
  }

  /** Rows of other messages do not count. */
  lemma SummaryOfOthers(before: seq<DeliveryRow>, after: seq<DeliveryRow>, inbox: nat)
    requires before <= after
    requires forall i | |before| <= i < |after| :: after[i].inbox != inbox
    ensures Summary(after, inbox) == Summary(before, inbox)
  {
    assert forall i | 0 <= i < |before| :: after[i] == before[i];
    assert Empty(after, inbox) <==> Empty(before, inbox);
    assert AllTerminal(after, inbox) <==> AllTerminal(before, inbox);
    assert AllAre(after, inbox, Delivered) <==> AllAre(before, inbox, Delivered);
    assert AllAre(after, inbox, Dead) <==> AllAre(before, inbox, Dead);
  }

  // ---------- what one worker may rely on while others run ----------

  /** Every delivery points at a stored, valid request and is in its lifecycle. */
  ghost predicate Readable(t: Tables) {
    && |t.deliveries| <= MAX_ID
    && forall i | 0 <= i < |t.deliveries| ::
         && t.deliveries[i].inbox < |t.inbox|
         && FromRequest(t.deliveries[i], t.inbox[t.deliveries[i].inbox].payload)
         && ValidRequest(t.inbox[t.deliveries[i].inbox].payload)
         && RowInv(t.deliveries[i])
  }

  /** Others never touch a row that is still held under `token`, and no row changes its message. */
  ghost predicate Respects(before: Tables, after: Tables, token: Token) {
    && |before.deliveries| <= |after.deliveries|
    && (forall i | 0 <= i < |before.deliveries| :: after.deliveries[i].inbox == before.deliveries[i].inbox)
    && forall i | 0 <= i < |before.deliveries| && Owns(after.deliveries, i, token) :: after.deliveries[i] == before.deliveries[i]
  }

  /** Nobody adds rows that are held under `token`. */
  ghost predicate Idle(before: Tables, after: Tables, token: Token) {
    forall i | |before.deliveries| <= i < |after.deliveries| :: !Owns(after.deliveries, i, token)
  }
}
