/** What the invariants say to a reader: fencing, bounded attempts, absorbing ends, summaries, dead letters,
    replay, materialisation and publication. */
module NotificationTheorems {
  import opened Wrappers
  import opened Keys
  import opened NotificationTables
  import opened NotificationInvariants
  import opened NotificationProtocol
  import S = NotificationSafety
  import IN = IncidentNotifications
  import Incidents
  import opened PublishTallies

  // ---------- what one step may do to one row ----------

  ghost predicate OutcomeOf(a: Action, id: nat) {
    (a.Succeed? || a.Retry? || a.GiveUp?) && a.h.id == id
  }

  /** Row `i` stood still, was claimed under a fresh token while claimable, or got an outcome from its owner. */
  ghost predicate RowStep(s: System, a: Action, r: DeliveryRow, r': DeliveryRow, i: nat) {
    || r' == r
    || (a.ClaimDeliveryBatch? && a.token !in s.tokens && Claimable(r, a.now) && r' == ClaimedRow(r, a.token, a.lease, a.now))
    || (OutcomeOf(a, i) && r.status == InFlight && r.claimToken == Some(a.h.token)
        && r'.claimToken == None && r'.status in {Delivered, RetryScheduled, Dead} && r'.attempts == r.attempts && r'.inbox == r.inbox)
  }

  lemma {:induction false} StepOnRow(s: System, a: Action, i: nat)
    requires Inv(s) && Enabled(s, a) && i < |s.tables.deliveries|
    ensures i < |Apply(s, a).tables.deliveries|
    ensures RowStep(s, a, s.tables.deliveries[i], Apply(s, a).tables.deliveries[i], i)
  {
    hide OutboxInv, InboxInv, DeliveryInv, SummaryInv, DeadLetterInv, HeldInv, LogInv, TransactIncidents, ClaimOutbox, MarkPublished,
      MarkPublishFailed, ClaimRequest, FanOut, ClaimDeliveries, HeldRows, Logged, PickOutbox, Pick, DeliveryMask, Claimable, ClaimedRow,
      RefreshedRow, Summary, ValidDeadLetter, AddOutbox;
    var t := s.tables;
    match a
    case IncidentTransaction(ops, channels, now, later) => TransactionLeavesDeliveries(s, ops, channels, now, later);
    case FanOutRecord(inbox, e) => FanOutAppends(t.deliveries, inbox, e, e.channels);
    case ClaimDeliveryBatch(limit, token, lease, locked, now) => S.BatchShape(t.deliveries, limit, token, lease, locked, now);
    case _ =>
  }

  lemma TransactionLeavesDeliveries(s: System, ops: seq<Incidents.Op>, channels: seq<Channel>, now: Time, later: Time)
    ensures var s' := TransactIncidents(s, ops, channels, now, later);
            s'.tables.deliveries == s.tables.deliveries && s'.tables.inbox == s.tables.inbox && s'.tokens == s.tokens
  {
    hide Incidents.ApplyOps, NoticesOf, IN.EnqueueRequests;
  }

  /** The row of a reachable state is in its lifecycle. */
  lemma RowOf(s: System, i: nat)
    requires Inv(s) && i < |s.tables.deliveries|
    ensures RowInv(s.tables.deliveries[i]) && LogMatches(s.log, i, s.tables.deliveries[i])
  {
    hide OutboxInv, InboxInv, SummaryInv, DeadLetterInv, HeldInv, RowInv, LogMatches, FromRequest, Materialised, Empty;
  }

  // ---------- terminal states, the attempt budget ----------

  /** Main result: delivered and dead rows never change again, and on every other step the row stands, is a
      reclaim of an expired claim under a fresh token, or moves down the measure (attempts left, in flight). */
  lemma {:induction false} RowsOnlyMoveForward(s: System, a: Action, i: nat)
    requires Inv(s) && Enabled(s, a) && i < |s.tables.deliveries|
    ensures i < |Apply(s, a).tables.deliveries|
    ensures var r, r' := s.tables.deliveries[i], Apply(s, a).tables.deliveries[i];
            && (Terminal(r.status) ==> r' == r)
            && (r' == r || MeasureDrops(r, r')
                || (a.ClaimDeliveryBatch? && Abandoned(r, a.now) && r' == ClaimedRow(r, a.token, a.lease, a.now) && r'.attempts == r.attempts))
  {
    hide Inv, Apply, Enabled;
    StepOnRow(s, a, i);
    RowOf(s, i);
    S.StepKeepsInv(s, a);
    RowOf(Apply(s, a), i);
  }

  /** Main result: in every reachable state a delivery has had at most two retries, and exactly one ending if
      it is terminal and none otherwise. */
  lemma {:induction false} AtMostTwoRetriesAndOneEnding(actions: seq<Action>, i: nat)
    requires Feasible(actions) && i < |Run(actions).tables.deliveries|
    ensures var s := Run(actions);
            && Retries(s.log, i) <= 2
            && Endings(s.log, i) == (if Terminal(s.tables.deliveries[i].status) then 1 else 0)
            && Retries(s.log, i) + Endings(s.log, i) <= s.tables.deliveries[i].attempts <= MAX_DELIVERY_ATTEMPTS
  {
    hide Run, Feasible, Inv, Count;
    S.AlwaysInv(actions);
    RowOf(Run(actions), i);
  }

  /** Main result: no two outcomes in the history belong to the same claim of the same row. */
  lemma {:induction false} EachClaimRecordsAtMostOneOutcome(actions: seq<Action>)
    requires Feasible(actions)
    ensures var log := Run(actions).log;
            forall a, b | 0 <= a < b < |log| :: log[a].token != log[b].token || log[a].id != log[b].id
  {
    hide Run, Feasible, OutboxInv, InboxInv, DeliveryInv, SummaryInv, DeadLetterInv, HeldInv, LogMatches;
    S.AlwaysInv(actions);
  }

  // ---------- fencing ----------

  lemma {:induction false} LostStaysLost(s: System, a: Action, h: Held)
    requires Inv(s) && Enabled(s, a) && h in s.held && !Owns(s.tables.deliveries, h.id, h.token)
    ensures h in Apply(s, a).held && !Owns(Apply(s, a).tables.deliveries, h.id, h.token)
  {
    hide OutboxInv, InboxInv, DeliveryInv, SummaryInv, DeadLetterInv, LogInv, Enabled, Apply, Claimable;
    assert h.id < |s.tables.deliveries| && h.token in s.tokens;
    HeldGrows(s, a);
    hide HeldInv;
    StepOnRow(s, a, h.id);
  }

  lemma HeldGrows(s: System, a: Action)
    ensures s.held <= Apply(s, a).held
  {
    hide TransactIncidents, ClaimOutbox, MarkPublished, MarkPublishFailed, ClaimRequest, FanOut, ClaimDeliveries, HeldRows, Logged,
      PickOutbox, PickDeliveries, MarkDelivered, ScheduleRetry, DeadLetterDelivery;
    if a.IncidentTransaction? { TransactionLeavesHeld(s, a.ops, a.channels, a.now, a.later); }
  }

  lemma TransactionLeavesHeld(s: System, ops: seq<Incidents.Op>, channels: seq<Channel>, now: Time, later: Time)
    ensures TransactIncidents(s, ops, channels, now, later).held == s.held
  {
    hide Incidents.ApplyOps, NoticesOf, IN.EnqueueRequests;
  }

  /** A worker without the row writes nothing. */
  lemma StaleWorkerWritesNothing(t: Tables, id: nat, token: Token, reference: Option<string>, next: Time, e: DeliveryError, now: Time)
    requires !Owns(t.deliveries, id, token)
    ensures MarkDelivered(t, id, token, reference, now) == t
    ensures ScheduleRetry(t, id, token, next, e) == Ok(t)
    ensures DeadLetterDelivery(t, id, token, e, now) == Ok(t)
  {
  }

  /** Main result: once a claim is gone, taken over or concluded, it never comes back: whatever its worker
      attempts in any continuation of the run changes no table. */
  lemma {:induction false} TakenOverIsForever(actions: seq<Action>, more: seq<Action>, h: Held)
    requires Feasible(actions + more) && h in Run(actions).held && !Owns(Run(actions).tables.deliveries, h.id, h.token)
    ensures h in Run(actions + more).held && !Owns(Run(actions + more).tables.deliveries, h.id, h.token)
    ensures forall a | OutcomeOf(a, h.id) && a.h == h :: Apply(Run(actions + more), a).tables == Run(actions + more).tables
  {
    hide Inv, Apply, Enabled, Owns;
    if more == [] {
      assert actions + more == actions;
    } else {
      var front, a := more[..|more| - 1], more[|more| - 1];
      assert (actions + more)[..|actions + more| - 1] == actions + front;
      assert (actions + more)[|actions + more| - 1] == a;
      TakenOverIsForever(actions, front, h);
      S.AlwaysInv(actions + front);
      LostStaysLost(Run(actions + front), a, h);
    }
    hide Run, Feasible;
    StaleActions(Run(actions + more), h);
  }

  lemma StaleActions(s: System, h: Held)
    requires !Owns(s.tables.deliveries, h.id, h.token)
    ensures forall a | OutcomeOf(a, h.id) && a.h == h :: Apply(s, a).tables == s.tables
  {
    hide Owns, RefreshInbox;
    forall a | OutcomeOf(a, h.id) && a.h == h ensures Apply(s, a).tables == s.tables {
      match a
      case Succeed(_, reference, now) =>
      case Retry(_, delay, error) =>
      case GiveUp(_, error, now) =>
    }
  }

  /** A step of somebody other than the worker that drew `token`. */
  ghost predicate OfOthers(a: Action, token: Token) {
    (a.Succeed? || a.Retry? || a.GiveUp?) ==> a.h.token != token
  }

  /** What a worker may rely on, for one step of anyone else. */
  lemma {:induction false} StepRespectsAClaim(s: System, a: Action, token: Token)
    requires Inv(s) && Enabled(s, a) && token in s.tokens && OfOthers(a, token)
    ensures Respects(s.tables, Apply(s, a).tables, token) && Idle(s.tables, Apply(s, a).tables, token)
    ensures Readable(Apply(s, a).tables) && token in Apply(s, a).tokens
  {
    hide Inv, Apply, Enabled, Claimable;
    var d, d' := s.tables.deliveries, Apply(s, a).tables.deliveries;
    DeliveriesGrow(s, a);
    forall i | 0 <= i < |d| ensures d'[i].inbox == d[i].inbox && (Owns(d', i, token) ==> d'[i] == d[i]) {
      StepOnRow(s, a, i);
      if a.ClaimDeliveryBatch? { assert Enabled(s, a) ==> a.token !in s.tokens by { ClaimTokensAreFresh(s, a); } }
    }
    AddedRowsAreUnclaimed(s, a);
    S.StepKeepsInv(s, a);
    InvReadable(Apply(s, a));
    TokensGrow(s, a);
  }

  lemma AddedRowsAreUnclaimed(s: System, a: Action)
    requires Enabled(s, a)
    ensures var d, d' := s.tables.deliveries, Apply(s, a).tables.deliveries;
            forall i | |d| <= i < |d'| :: d'[i].claimToken == None
  {
    hide TransactIncidents, ClaimOutbox, MarkPublished, MarkPublishFailed, ClaimRequest, FanOut, ClaimedRow, HeldRows, Logged,
      PickOutbox, Pick, DeliveryMask, RefreshedRow, Summary, ValidDeadLetter, AddOutbox, DeliveredRow, RetryRow, DeadRow;
    match a
    case IncidentTransaction(ops, channels, now, later) => TransactionLeavesDeliveries(s, ops, channels, now, later);
    case FanOutRecord(inbox, e) => FanOutAppends(s.tables.deliveries, inbox, e, e.channels);
    case _ =>
  }

  lemma TokensGrow(s: System, a: Action)
    ensures s.tokens <= Apply(s, a).tokens
  {
    hide TransactIncidents, ClaimOutbox, MarkPublished, MarkPublishFailed, ClaimRequest, FanOut, ClaimDeliveries, HeldRows, Logged,
      PickOutbox, PickDeliveries, MarkDelivered, ScheduleRetry, DeadLetterDelivery;
    if a.IncidentTransaction? { TransactionLeavesDeliveries(s, a.ops, a.channels, a.now, a.later); }
  }

  /** Main result: over any steps of others, in any number, a worker may rely on the rows it still holds: they stand, no
      row changes its message, no row is added under its token, and every request stays stored and valid. */
  lemma {:induction false} OthersRespectAClaim(actions: seq<Action>, more: seq<Action>, token: Token)
    requires Feasible(actions + more) && token in Run(actions).tokens && forall a | a in more :: OfOthers(a, token)
    ensures var before, after := Run(actions).tables, Run(actions + more).tables;
            Respects(before, after, token) && Idle(before, after, token) && Readable(after)
    ensures token in Run(actions + more).tokens
  {
    hide Inv, Apply, Enabled, Respects, Idle, Readable;
    if more == [] {
      assert actions + more == actions;
      S.AlwaysInv(actions);
      InvReadable(Run(actions));
      RelyOnNothing(Run(actions).tables, token);
    } else {
      var front, a := more[..|more| - 1], more[|more| - 1];
      var all := actions + more;
      assert all[..|all| - 1] == actions + front && all[|all| - 1] == a;
      OthersRespectAClaim(actions, front, token);
      S.AlwaysInv(actions + front);
      StepRespectsAClaim(Run(actions + front), a, token);
      RelyOnBoth(Run(actions).tables, Run(actions + front).tables, Run(all).tables, token);
    }
  }

  lemma RelyOnNothing(t: Tables, token: Token)
    ensures Respects(t, t, token) && Idle(t, t, token)
  {
  }

  lemma RelyOnBoth(a: Tables, b: Tables, c: Tables, token: Token)
    requires Respects(a, b, token) && Idle(a, b, token) && Respects(b, c, token) && Idle(b, c, token)
    ensures Respects(a, c, token) && Idle(a, c, token)
  {
    forall i | 0 <= i < |c.deliveries| && Owns(c.deliveries, i, token)
      ensures i < |b.deliveries| && Owns(b.deliveries, i, token) && c.deliveries[i] == b.deliveries[i]
    {
      assert i < |b.deliveries|;
    }
  }

  lemma ClaimTokensAreFresh(s: System, a: Action)
    requires a.ClaimDeliveryBatch? && Enabled(s, a)
    ensures a.token !in s.tokens
  {
  }

  lemma DeliveriesGrow(s: System, a: Action)
    requires Inv(s) && Enabled(s, a)
    ensures |s.tables.deliveries| <= |Apply(s, a).tables.deliveries|
  {
    hide Inv, Apply, Enabled;
    if s.tables.deliveries != [] { StepOnRow(s, a, |s.tables.deliveries| - 1); }
  }

  lemma InvReadable(s: System)
    requires Inv(s)
    ensures Readable(s.tables)
  {
    hide SummaryInv, DeadLetterInv, HeldInv, LogInv, OutboxInv, RowInv, FromRequest, ValidRequest, Materialised, Empty;
    forall i | 0 <= i < |s.tables.deliveries| ensures ValidRequest(s.tables.inbox[s.tables.deliveries[i].inbox].payload) {
      S.RequestsAreValid(s.tables.outbox, s.broker, s.tables.inbox[s.tables.deliveries[i].inbox].payload);
    }
  }

  // ---------- inbox rows ----------

  /** Main result: in every reachable state an inbox row is terminal exactly when its message has deliveries and
      all are terminal, and its value is the summary of how they ended. */
  lemma {:induction false} InboxSaysWhatDeliveriesSay(actions: seq<Action>, k: nat)
    requires Feasible(actions) && k < |Run(actions).tables.inbox|
    ensures var t := Run(actions).tables;
            var st, d := t.inbox[k].status, t.deliveries;
            && (st != Processing <==> !Empty(d, k) && AllTerminal(d, k))
            && (st == Completed <==> !Empty(d, k) && AllAre(d, k, Delivered))
            && (st == DeadLettered <==> !Empty(d, k) && AllAre(d, k, Dead))
            && (st == CompletedWithDeadLetters <==>
                  AllTerminal(d, k) && !AllAre(d, k, Delivered) && !AllAre(d, k, Dead))
  {
    hide Run, Feasible, OutboxInv, InboxInv, DeliveryInv, DeadLetterInv, HeldInv, LogInv;
    S.AlwaysInv(actions);
    var d := Run(actions).tables.deliveries;
    assert Run(actions).tables.inbox[k].status == Summary(d, k);
    if !Empty(d, k) {
      var i :| 0 <= i < |d| && d[i].inbox == k;
      assert AllAre(d, k, Dead) ==> d[i].status == Dead;
    }
  }

  /** Each message has one inbox row, and that row's deliveries are none or exactly the requested channels,
      each once. */
  lemma {:induction false} MessagesAreFannedOutOnce(actions: seq<Action>)
    requires Feasible(actions)
    ensures var t := Run(actions).tables;
            && (forall j, k | 0 <= j < k < |t.inbox| :: t.inbox[j].messageId != t.inbox[k].messageId)
            && (forall k | 0 <= k < |t.inbox| ::
                  Empty(t.deliveries, k) || Materialised(t.deliveries, k, t.inbox[k].payload.channels))
            && (forall i, j | 0 <= i < j < |t.deliveries| && t.deliveries[i].inbox == t.deliveries[j].inbox ::
                  t.deliveries[i].channel != t.deliveries[j].channel)
  {
    hide Run, Feasible, OutboxInv, SummaryInv, DeadLetterInv, HeldInv, LogInv, Materialised, Empty, RowInv, FromRequest;
    S.AlwaysInv(actions);
  }

  // ---------- dead letters ----------

  ghost predicate DeadLetterRow(outbox: seq<OutboxRow>, j: nat, id: nat) {
    j < |outbox| && outbox[j].payload.DeadLetter? && outbox[j].payload.deadLetter.deliveryId == id + 1
  }

  ghost predicate HasDeadLetterRow(outbox: seq<OutboxRow>, id: nat) { exists j: nat :: DeadLetterRow(outbox, j, id) }

  lemma DeadLetterRowsUnique(outbox: seq<OutboxRow>, i: nat, j: nat, id: nat)
    requires S.AllKeyed(outbox) && DeadLetterRow(outbox, i, id) && DeadLetterRow(outbox, j, id)
    ensures i == j
  {
    hide ValidRequest, ValidDeadLetter, MessageId, DeadLetterKey;
    assert KeyedRow(outbox[i]) && KeyedRow(outbox[j]);
    assert outbox[i].key == outbox[j].key;
  }

  /** Main result: dead deliveries and DLQ outbox rows are in bijection in every reachable state, and every DLQ
      event is valid and tells its delivery's story. */
  lemma DeadLettersMatchDeadDeliveries(actions: seq<Action>)
    requires Feasible(actions)
    ensures var t := Run(actions).tables;
            && (forall i | 0 <= i < |t.deliveries| :: t.deliveries[i].status == Dead <==> HasDeadLetterRow(t.outbox, i))
            && (forall i: nat, j: nat, id: nat | DeadLetterRow(t.outbox, i, id) && DeadLetterRow(t.outbox, j, id) :: i == j)
            && (forall j | 0 <= j < |t.outbox| && t.outbox[j].payload.DeadLetter? ::
                  var d := t.outbox[j].payload.deadLetter;
                  ValidDeadLetter(d) && 1 <= d.deliveryId <= |t.deliveries| && DeadLetterMatches(t.deliveries[d.deliveryId - 1], d))
  {
    hide Run, Feasible, InboxInv, DeliveryInv, SummaryInv, HeldInv, LogInv, ValidDeadLetter, ValidRequest, KeysUnique, InOutbox;
    S.AlwaysInv(actions);
    var t := Run(actions).tables;
    forall j | 0 <= j < |t.outbox| && t.outbox[j].payload.DeadLetter? ensures ValidDeadLetter(t.outbox[j].payload.deadLetter) {
      assert KeyedRow(t.outbox[j]);
    }
    forall i: nat, j: nat, id: nat | DeadLetterRow(t.outbox, i, id) && DeadLetterRow(t.outbox, j, id) ensures i == j {
      DeadLetterRowsUnique(t.outbox, i, j, id);
    }
    hide KeyedRow;
    forall i | 0 <= i < |t.deliveries| ensures t.deliveries[i].status == Dead <==> HasDeadLetterRow(t.outbox, i) {
      DeadIffRow(t.outbox, t.deliveries, i);
    }
  }

  lemma DeadIffRow(outbox: seq<OutboxRow>, d: seq<DeliveryRow>, i: nat)
    requires DeadLetterInv(outbox, d) && i < |d|
    ensures d[i].status == Dead <==> HasDeadLetterRow(outbox, i)
  {
    if d[i].status == Dead {
      assert HasDeadLetter(outbox, i);
      var j :| 0 <= j < |outbox| && outbox[j].payload.DeadLetter? && outbox[j].payload.deadLetter.deliveryId == i + 1;
      assert DeadLetterRow(outbox, j, i);
    }
  }

  // ---------- replay and materialisation ----------

  ghost predicate Delivering(s: System, e: RequestEvent) {
    exists k | 0 <= k < |s.tables.inbox| :: s.tables.inbox[k].messageId == e.messageId && !Empty(s.tables.deliveries, k)
  }

  /** Main result: once a message has deliveries, neither an intake of any redelivered record, nor any fan-out,
      late or repeated, changes a delivery row. */
  lemma {:induction false} ReplayChangesNothing(s: System, e: RequestEvent, k: nat, lease: nat, now: Time)
    requires Inv(s) && e in s.broker
    ensures Apply(s, TakeRecord(e, lease, now)).tables.deliveries == s.tables.deliveries
    ensures (k, e) in s.fanning && Delivering(s, e) ==> Apply(s, FanOutRecord(k, e)).tables == s.tables
  {
    hide OutboxInv, DeliveryInv, SummaryInv, DeadLetterInv, HeldInv, LogInv, ClaimRequest, FanOut;
    if (k, e) in s.fanning && Delivering(s, e) {
      S.FanOutExact(s, k, e);
      var j :| 0 <= j < |s.tables.inbox| && s.tables.inbox[j].messageId == e.messageId && !Empty(s.tables.deliveries, j);
      assert s.tables.inbox[k].messageId == e.messageId;
      assert j == k;
    }
  }

  /** When a processing of the record is granted the fan-out. */
  ghost predicate Grants(inbox: seq<InboxRow>, e: RequestEvent, now: Time) {
    forall k | 0 <= k < |inbox| && inbox[k].messageId == e.messageId ::
      inbox[k].status == Processing && !Later(inbox[k].leaseExpiresAt, now)
  }

  /** Main result: a redelivery is granted the fan-out exactly when the message is unknown, or still processing
      with its lease expired; and then the fan-out leaves exactly the requested channels. */
  lemma {:induction false} RedeliveryMaterialises(s: System, e: RequestEvent, lease: nat, now: Time)
    requires Inv(s) && e in s.broker
    ensures var (inbox, k, claimed) := ClaimRequest(s.tables.inbox, e, lease, now);
            && (claimed <==> Grants(s.tables.inbox, e, now))
            && (claimed ==>
                  var s' := Apply(s, TakeRecord(e, lease, now));
                  (k, e) in s'.fanning
                  && Materialised(Apply(s', FanOutRecord(k, e)).tables.deliveries, k, e.channels))
  {
    hide OutboxInv, DeliveryInv, SummaryInv, DeadLetterInv, HeldInv, LogInv, FanOut, Materialised, Empty;
    var (inbox, k, claimed) := ClaimRequest(s.tables.inbox, e, lease, now);
    assert claimed <==> Grants(s.tables.inbox, e, now);
    if claimed {
      hide InboxInv, ClaimRequest;
      var s' := Apply(s, TakeRecord(e, lease, now));
      assert (k, e) in s'.fanning;
      S.TakeStep(s, e, lease, now);
      S.FanOutExact(s', k, e);
      FannedOut(s', k, e);
    }
  }

  lemma {:induction false} FannedOut(s: System, k: nat, e: RequestEvent)
    requires Inv(s) && (k, e) in s.fanning
    requires k < |s.tables.inbox| && s.tables.inbox[k].payload == e
    requires FanOut(s.tables.deliveries, k, e, e.channels) ==
             if Empty(s.tables.deliveries, k) then s.tables.deliveries + S.NewRows(k, e) else s.tables.deliveries
    ensures Materialised(FanOut(s.tables.deliveries, k, e, e.channels), k, e.channels)
  {
    hide OutboxInv, InboxInv, SummaryInv, DeadLetterInv, HeldInv, LogInv, FanOut, RowInv, FromRequest, Materialised;
    if Empty(s.tables.deliveries, k) { S.NewRowsMaterialise(s.tables.deliveries, k, e); }
  }

  /** What cannot be claimed: a consumer that stops between its two commits, and a redelivery inside the
      lease, together commit the record's offset while no delivery exists. */
  lemma {:induction false} OffsetCanOutrunDeliveries(s: System, e: RequestEvent, lease: nat, now: Time, again: Time)
    requires Inv(s) && e in s.broker && again < now + lease
    requires forall k | 0 <= k < |s.tables.inbox| :: s.tables.inbox[k].messageId != e.messageId
    ensures var s1 := Apply(s, TakeRecord(e, lease, now));
            var s2 := Apply(s1, TakeRecord(e, lease, again));
            var s3 := Apply(s2, CommitOffset(e));
            && Enabled(s, TakeRecord(e, lease, now)) && Enabled(s1, TakeRecord(e, lease, again)) && Enabled(s2, CommitOffset(e))
            && e in s3.acked && !Delivering(s3, e)
  {
    hide OutboxInv, SummaryInv, DeadLetterInv, HeldInv, LogInv, RowInv, FromRequest, Materialised;
    var d := s.tables.deliveries;
    assert Empty(d, |s.tables.inbox|);
  }

  // ---------- publication ----------

  /** A published row holds no claim. */
  ghost predicate PublishedInv(outbox: seq<OutboxRow>) {
    forall i | 0 <= i < |outbox| :: outbox[i].publishedAt.Some? ==> outbox[i].claimToken.None?
  }

  /** The exact limit of PublishedIsForever: a failure report reverts a published row just when it carries no token. */
  lemma RevertsIffTokenless(outbox: seq<OutboxRow>, id: nat, reason: string, next: Option<Time>, token: Option<Token>)
    requires PublishedInv(outbox) && id < |outbox| && outbox[id].publishedAt.Some?
    ensures MarkPublishFailed(outbox, id, reason, next, token)[id].publishedAt.None? <==> token.None?
  {
  }

  ghost predicate PublishedStand(before: seq<OutboxRow>, after: seq<OutboxRow>) {
    && |before| <= |after| && PublishedInv(after)
    && forall i | 0 <= i < |before| && before[i].publishedAt.Some? :: after[i] == before[i]
  }

  lemma ClaimsSkipPublished(outbox: seq<OutboxRow>, limit: nat, token: Token, until: Time, locked: set<nat>, now: Time)
    requires PublishedInv(outbox)
    ensures var picked := Pick(OutboxMask(outbox, now, NOTIFICATION_EVENTS, locked), limit);
            PublishedStand(outbox, ClaimOutbox(outbox, picked, token, until))
  {
    var mask := OutboxMask(outbox, now, NOTIFICATION_EVENTS, locked);
    var picked := Pick(mask, limit);
    forall i | 0 <= i < |outbox| && i in picked ensures outbox[i].publishedAt.None? {
      assert mask[i];
    }
  }

  lemma MarksStand(outbox: seq<OutboxRow>, id: nat, at: Time, reason: string, next: Option<Time>, token: Token)
    requires PublishedInv(outbox)
    ensures PublishedStand(outbox, MarkPublished(outbox, id, at, Some(token)))
    ensures PublishedStand(outbox, MarkPublishFailed(outbox, id, reason, next, Some(token)))
  {
  }

  lemma {:induction false} EnqueueStands(q: IN.Queued, transitions: seq<Incidents.Transition>, channels: seq<Channel>)
    requires IN.InRange(transitions, |q.incidents|) && PublishedInv(q.outbox)
    ensures IN.EnqueueEach(q, transitions, channels).Ok? ==>
              PublishedStand(q.outbox, IN.EnqueueEach(q, transitions, channels).value.outbox)
  {
    hide ValidRequest, KeyAt, MessageId, RequestKey;
    if transitions != [] { EnqueueStands(q, transitions[..|transitions| - 1], channels); }
  }

  lemma GiveUpStands(t: Tables, h: Held, error: DeliveryError, now: Time)
    requires PublishedInv(t.outbox)
    ensures var r := DeadLetterDelivery(t, h.id, h.token, error, now); r.Ok? ==> PublishedStand(t.outbox, r.value.outbox)
  {
    hide Summary, ValidDeadLetter, KeyAt;
  }

  lemma StepKeepsPublished(s: System, a: Action)
    requires PublishedInv(s.tables.outbox) && Enabled(s, a)
    ensures PublishedStand(s.tables.outbox, Apply(s, a).tables.outbox)
  {
    hide PublishedInv, ClaimOutbox, MarkPublished, MarkPublishFailed, ClaimRequest, FanOut, ClaimDeliveries, HeldRows, Logged,
      PickDeliveries, Pick, OutboxMask, Summary, DeadLetterDelivery, Incidents.ApplyOps, NoticesOf, IN.EnqueueEach;
    var o := s.tables.outbox;
    match a
    case IncidentTransaction(ops, channels, now, later) =>
      var (incidents, transitions) := Incidents.ApplyOps(s.incidents, ops, now, later);
      EnqueueStands(IN.Queued(incidents, o), transitions, channels);
    case ClaimOutboxBatch(limit, token, lease, locked, now) => ClaimsSkipPublished(o, limit, token, now + lease, locked, now);
    case RecordPublished(token, id, at) => MarksStand(o, id, at, "", None, token);
    case RecordPublishFailed(token, id, reason, next) => MarksStand(o, id, 0, reason, next, token);
    case GiveUp(h, error, now) => GiveUpStands(s.tables, h, error, now);
    case _ =>
  }

  /** Main result: in every run each published outbox row stays exactly as it was published. */
  lemma {:induction false} PublishedIsForever(actions: seq<Action>, more: seq<Action>, i: nat)
    requires Feasible(actions + more)
    requires i < |Run(actions).tables.outbox| && Run(actions).tables.outbox[i].publishedAt.Some?
    ensures i < |Run(actions + more).tables.outbox| && Run(actions + more).tables.outbox[i] == Run(actions).tables.outbox[i]
  {
    hide Apply, Enabled;
    if more == [] {
      assert actions + more == actions;
    } else {
      var front, a := more[..|more| - 1], more[|more| - 1];
      assert (actions + more)[..|actions + more| - 1] == actions + front;
      assert (actions + more)[|actions + more| - 1] == a;
      PublishedIsForever(actions, front, i);
      PublishedInvAlways(actions + front);
      StepKeepsPublished(Run(actions + front), a);
    }
  }

  lemma {:induction false} PublishedInvAlways(actions: seq<Action>)
    requires Feasible(actions)
    ensures PublishedInv(Run(actions).tables.outbox)
  {
    hide Apply, Enabled;
    if actions != [] {
      PublishedInvAlways(actions[..|actions| - 1]);
      StepKeepsPublished(Run(actions[..|actions| - 1]), actions[|actions| - 1]);
    }
  }

  // ---------- when a publisher's tallies are off ----------

  lemma {:induction false} IncreasingBelow(xs: seq<nat>, bound: nat)
    requires forall j, k | 0 <= j < k < |xs| :: xs[j] < xs[k]
    requires forall j | 0 <= j < |xs| :: xs[j] < bound
    ensures |xs| <= bound
  {
    if xs != [] { IncreasingBelow(xs[..|xs| - 1], xs[|xs| - 1]); }
  }

  /** A claimed row is due again from the end of its lease on, and a large enough batch takes it. */
  lemma ExpiredClaimIsTaken(outbox: seq<OutboxRow>, limit: nat, token: Token, lease: nat, now: Time, limit': nat, later: Time, id: nat)
    requires id in Pick(OutboxMask(outbox, now, NOTIFICATION_EVENTS, {}), limit) && later >= now + lease && limit' > id
    ensures var picked := Pick(OutboxMask(outbox, now, NOTIFICATION_EVENTS, {}), limit);
            id in Pick(OutboxMask(ClaimOutbox(outbox, picked, token, now + lease), later, NOTIFICATION_EVENTS, {}), limit')
  {
    hide Pick;
    var picked := Pick(OutboxMask(outbox, now, NOTIFICATION_EVENTS, {}), limit);
    var mask := OutboxMask(ClaimOutbox(outbox, picked, token, now + lease), later, NOTIFICATION_EVENTS, {});
    assert OutboxMask(outbox, now, NOTIFICATION_EVENTS, {})[id];
    assert mask[id];
    var again := Pick(mask, limit');
    if forall j | 0 <= j < |again| :: again[j] < id { IncreasingBelow(again, id); }
  }

  function FirstClaim(limit: nat, token: Token, lease: nat, now: Time): Action {
    ClaimOutboxBatch(limit, token, lease, {}, now)
  }

  /** Two claims of one row leave it to the second token. */
  lemma TakenOverRow(outbox: seq<OutboxRow>, picked: seq<nat>, first: Token, until: Time, picked': seq<nat>, second: Token, until': Time, id: nat)
    requires id in picked && id in picked' && id < |outbox| && first != second
    ensures !OutboxAnswers(ClaimOutbox(ClaimOutbox(outbox, picked, first, until), picked', second, until'), id, Some(first))
  {
  }

  /** A single failed publication whose claim is gone counts twice. */
  lemma CountedTwice(id: nat, mark: seq<OutboxRow>, token: Token, sent: nat -> bool)
    requires !sent(0) && !OutboxAnswers(mark, id, Some(token))
    ensures LostFailures([id], [mark], token, sent) == {0}
    ensures |PublishedEvents([id], [mark], token, sent)| + |FailedEvents([id], sent)| + |ConflictingEvents([id], [mark], token)| == 2
  {
    hide OutboxAnswers;
    var lost := LostFailures([id], [mark], token, sent);
    assert Gone([id], [mark], token, 0);
    assert lost == {0};
    TalliesExactIff([id], [mark], token, sent);
  }

  lemma TwoMore(actions: seq<Action>, a: Action, b: Action)
    requires Feasible(actions) && Enabled(Run(actions), a) && Enabled(Apply(Run(actions), a), b)
    ensures Feasible(actions + [a, b]) && Run(actions + [a, b]) == Apply(Apply(Run(actions), a), b)
  {
    hide Apply, Enabled;
    var all := actions + [a, b];
    assert all[..|all| - 1] == actions + [a] && (actions + [a])[..|actions|] == actions;
  }

  /** One row of a batch outlives its lease, another publisher takes it, and the first publication fails: the row is
      counted as failed and as conflict. */
  lemma {:induction false} TakenOverFailureCountsTwice(actions: seq<Action>, first: Token, second: Token, limit: nat, limit': nat,
                                                       lease: nat, now: Time, later: Time, id: nat)
    requires Feasible(actions) && first != second && first !in Run(actions).tokens && second !in Run(actions).tokens
    requires PickOutbox(Run(actions), limit, {}, now) == [id] && later >= now + lease && limit' > id
    ensures var all := actions + [FirstClaim(limit, first, lease, now), FirstClaim(limit', second, lease, later)];
            var events, marks, sent := [id], [Run(all).tables.outbox], (n: nat) => false;
            && Feasible(all) && Enabled(Run(all), RecordPublishFailed(first, id, "publish failed", None))
            && LostFailures(events, marks, first, sent) == {0}
            && |PublishedEvents(events, marks, first, sent)| + |FailedEvents(events, sent)| + |ConflictingEvents(events, marks, first)|
               == |events| + 1
  {
    hide Pick, OutboxMask, ClaimOutbox, Run, Feasible, LostFailures, PublishedEvents, FailedEvents, ConflictingEvents, OutboxAnswers;
    var a, b := FirstClaim(limit, first, lease, now), FirstClaim(limit', second, lease, later);
    var s := Run(actions);
    TwoMore(actions, a, b);
    var picked, picked' := PickOutbox(s, limit, {}, now), PickOutbox(Apply(s, a), limit', {}, later);
    ExpiredClaimIsTaken(s.tables.outbox, limit, first, lease, now, limit', later, id);
    PickedInTable(s.tables.outbox, limit, now, id);
    TakenOverRow(s.tables.outbox, picked, first, now + lease, picked', second, later + lease, id);
    assert (first, id) in Apply(s, a).publishing;
    CountedTwice(id, Run(actions + [a, b]).tables.outbox, first, (n: nat) => false);
  }

  lemma PickedInTable(outbox: seq<OutboxRow>, limit: nat, now: Time, id: nat)
    requires id in Pick(OutboxMask(outbox, now, NOTIFICATION_EVENTS, {}), limit)
    ensures id < |outbox|
  {
    hide Pick;
    var picked := Pick(OutboxMask(outbox, now, NOTIFICATION_EVENTS, {}), limit);
    var j :| 0 <= j < |picked| && picked[j] == id;
  }

  /** The first report of a source, and the request it writes. */
  lemma FirstReport(source: Incidents.Source, now: Time)
    requires source.id >= 1 && (source.tenantId.Some? ==> source.tenantId.value >= 1)
    ensures var op := Incidents.Report(source, Drift, "critical", "drift");
            var (incidents, ts) := Incidents.ApplyOps([], [op], now, now);
            var q := IN.EnqueueRequests(IN.Queued(incidents, []), ts, [Slack]);
            q.Ok? && |q.value.outbox| == 1 && OutboxDue(q.value.outbox[0], now, NOTIFICATION_EVENTS)
  {
    var op := Incidents.Report(source, Drift, "critical", "drift");
    var row, t := Incidents.NewIncident(op, now), Incidents.Transition(0, Incidents.Opened, true);
    Incidents.SingleOp([], op, now, now);
    assert Incidents.ApplyOp([], op, now, now).0 == [row];
    var (incidents, ts) := Incidents.ApplyOps([], [op], now, now);
    assert incidents == [row] && ts == [t];
    FirstRequest(row, t);
  }

  lemma FirstRequest(row: Incidents.Incident, t: Incidents.Transition)
    requires t == Incidents.Transition(0, Incidents.Opened, true) && row.occurrence == 1
    requires row.sourceId >= 1 && (row.tenantId.Some? ==> row.tenantId.value >= 1)
    requires row.severity == "critical" && row.summary == "drift"
    ensures var q := IN.EnqueueRequests(IN.Queued([row], []), [t], [Slack]);
            q.Ok? && |q.value.outbox| == 1 && forall now :: OutboxDue(q.value.outbox[0], now, NOTIFICATION_EVENTS)
  {
    var q, event := IN.Queued([row], []), IN.RequestFor(row, 0, [Slack]);
    assert Dec(1) == "1";
    assert |event.messageId| == 25;
    assert ValidRequest(event);
    hide ValidRequest, RequestKey, MessageId;
    EnqueueOne(q, t, event);
    var added := AddOutbox([], RequestKey(event.messageId), Request(event), event.tenantId);
    assert added == [NewOutboxRow(RequestKey(event.messageId), Request(event), event.tenantId)];
  }

  lemma EnqueueOne(q: IN.Queued, t: Incidents.Transition, event: RequestEvent)
    requires t.incident < |q.incidents| && t.shouldNotify && ValidRequest(event)
    requires event == IN.RequestFor(q.incidents[t.incident], t.incident, [Slack])
    ensures IN.EnqueueRequests(q, [t], [Slack]).Ok?
    ensures IN.EnqueueRequests(q, [t], [Slack]).value.outbox
         == AddOutbox(q.outbox, RequestKey(event.messageId), Request(event), event.tenantId)
  {
    hide ValidRequest, AddOutbox, RequestKey, IN.RequestFor;
    assert [t][..|[t]| - 1] == [];
    assert IN.EnqueueEach(q, [], [Slack]) == Ok(q);
  }

  /** Such a run exists from the start, for every source that can notify and every lease: report, claim, let the lease
      pass, claim again, fail. */
  lemma {:induction false} LostFailureHappens(source: Incidents.Source, lease: nat, now: Time)
    requires source.id >= 1 && (source.tenantId.Some? ==> source.tenantId.value >= 1)
    ensures var all := [IncidentTransaction([Incidents.Report(source, Drift, "critical", "drift")], [Slack], now, now)]
                     + [FirstClaim(1, 1, lease, now), FirstClaim(1, 2, lease, now + lease)];
            Feasible(all) && LostFailures([0], [Run(all).tables.outbox], 1, (n: nat) => false) == {0}
  {
    hide *;
    var op := Incidents.Report(source, Drift, "critical", "drift");
    var report := IncidentTransaction([op], [Slack], now, now);
    StartsWithReport(op, report, now);
    TakenOverFailureCountsTwice([report], 1, 2, 1, 1, lease, now, now + lease, 0);
  }

  lemma StartsWithReport(op: Incidents.Op, report: Action, now: Time)
    requires op.Report? && op.source.id >= 1 && (op.source.tenantId.Some? ==> op.source.tenantId.value >= 1)
    requires op == Incidents.Report(op.source, Drift, "critical", "drift")
    requires report == IncidentTransaction([op], [Slack], now, now)
    ensures Feasible([report]) && PickOutbox(Run([report]), 1, {}, now) == [0] && Run([report]).tokens == {}
  {
    FirstReport(op.source, now);
    assert [report][..0] == [];
    RunOne(report);
    hide Pick, OutboxDue, Incidents.ApplyOps, IN.EnqueueRequests, Run, Feasible, NoticesOf;
    var outbox := Run([report]).tables.outbox;
    assert |outbox| == 1 && OutboxDue(outbox[0], now, NOTIFICATION_EVENTS);
    OnlyRowPicked(OutboxMask(outbox, now, NOTIFICATION_EVENTS, {}));
  }

  lemma RunOne(a: Action)
    requires Enabled(INITIAL, a)
    ensures Run([a]) == Apply(INITIAL, a) && Feasible([a])
  {
    hide Apply, Enabled;
    assert [a][..0] == [];
    assert Run([]) == INITIAL && Feasible([]);
  }

  lemma OnlyRowPicked(mask: seq<bool>)
    requires mask == [true]
    ensures Pick(mask, 1) == [0]
  {
    assert mask[..0] == [];
  }
}
