/** Every step of the protocol keeps every invariant, hence every run does.

    Each lemma hides the predicates it treats as atoms, so that a proof sees only its own concern. */
module NotificationSafety {
  import opened Basics
  import opened Wrappers
  import opened Keys
  import Incidents
  import opened NotificationTables
  import opened NotificationInvariants
  import opened NotificationProtocol
  import IN = IncidentNotifications

  // ---------- outbox ----------

  /** The outbox only grew by request rows; keys and payloads of old rows stand. */
  ghost predicate OutboxGrew(before: seq<OutboxRow>, after: seq<OutboxRow>) {
    && |before| <= |after|
    && (forall i | 0 <= i < |before| :: after[i].key == before[i].key && after[i].payload == before[i].payload)
    && (forall i | |before| <= i < |after| :: after[i].payload.Request?)
  }

  ghost predicate AllKeyed(outbox: seq<OutboxRow>) {
    KeysUnique(outbox) && forall i | 0 <= i < |outbox| :: KeyedRow(outbox[i])
  }

  lemma {:induction false} OutboxGrowth(before: seq<OutboxRow>, after: seq<OutboxRow>, broker: set<RequestEvent>, deliveries: seq<DeliveryRow>)
    requires OutboxInv(before, broker) && DeadLetterInv(before, deliveries)
    requires OutboxGrew(before, after) && AllKeyed(after)
    ensures OutboxInv(after, broker) && DeadLetterInv(after, deliveries)
  {
    hide KeyedRow, KeysUnique, DeadLetterMatches;
    forall e | e in broker ensures InOutbox(after, e) {
      var i :| 0 <= i < |before| && before[i].payload == Request(e);
      assert after[i].payload == Request(e);
    }
    forall i | 0 <= i < |deliveries| && deliveries[i].status == Dead ensures HasDeadLetter(after, i) {
      var j :| 0 <= j < |before| && before[j].payload.DeadLetter? && before[j].payload.deadLetter.deliveryId == i + 1;
      assert after[j].payload == before[j].payload;
    }
  }

  lemma RequestKeyed(outbox: seq<OutboxRow>, e: RequestEvent)
    requires AllKeyed(outbox) && ValidRequest(e) && e.messageId == MessageId(e.incidentId, e.occurrence)
    ensures var after := AddOutbox(outbox, RequestKey(e.messageId), Request(e), e.tenantId);
            OutboxGrew(outbox, after) && AllKeyed(after)
  {
    hide ValidRequest, KeyAt, MessageId, RequestKey;
  }

  /** Enqueueing appends keyed, uniquely keyed requests. */
  lemma {:induction false} EnqueueKeepsKeys(q: IN.Queued, transitions: seq<Incidents.Transition>, channels: seq<Channel>)
    requires IN.InRange(transitions, |q.incidents|) && AllKeyed(q.outbox)
    ensures IN.EnqueueEach(q, transitions, channels).Ok? ==>
              var after := IN.EnqueueEach(q, transitions, channels).value.outbox;
              OutboxGrew(q.outbox, after) && AllKeyed(after)
  {
    hide ValidRequest, AllKeyed, AddOutbox, OutboxGrew, MessageId, RequestKey;
    if transitions == [] {
      GrewRefl(q.outbox);
    } else {
      var front, t := transitions[..|transitions| - 1], transitions[|transitions| - 1];
      EnqueueKeepsKeys(q, front, channels);
      var before := IN.EnqueueEach(q, front, channels);
      if before.Ok? && t.shouldNotify {
        var e := IN.RequestFor(before.value.incidents[t.incident], t.incident, channels);
        if ValidRequest(e) {
          RequestKeyed(before.value.outbox, e);
          GrewTrans(q.outbox, before.value.outbox, AddOutbox(before.value.outbox, RequestKey(e.messageId), Request(e), e.tenantId));
        }
      }
    }
  }

  lemma GrewRefl(a: seq<OutboxRow>)
    ensures OutboxGrew(a, a)
  {
  }

  lemma GrewTrans(a: seq<OutboxRow>, b: seq<OutboxRow>, c: seq<OutboxRow>)
    requires OutboxGrew(a, b) && OutboxGrew(b, c)
    ensures OutboxGrew(a, c)
  {
  }

  lemma {:induction false} IncidentStep(s: System, ops: seq<Incidents.Op>, channels: seq<Channel>, now: Time, later: Time)
    requires Inv(s)
    ensures Inv(TransactIncidents(s, ops, channels, now, later))
  {
    hide InboxInv, DeliveryInv, SummaryInv, DeadLetterInv, HeldInv, LogInv, KeyedRow, KeysUnique, InOutbox,
      IN.EnqueueEach, Incidents.ApplyOps, NoticesOf, OutboxGrew;
    var (incidents, transitions) := Incidents.ApplyOps(s.incidents, ops, now, later);
    EnqueueKeepsKeys(IN.Queued(incidents, s.tables.outbox), transitions, channels);
    var s' := TransactIncidents(s, ops, channels, now, later);
    if s' != s { OutboxGrowth(s.tables.outbox, s'.tables.outbox, s.broker, s.tables.deliveries); }
  }

  // ---------- publisher ----------

  ghost predicate SamePayloads(before: seq<OutboxRow>, after: seq<OutboxRow>) {
    && |before| == |after|
    && forall i | 0 <= i < |before| :: after[i].key == before[i].key && after[i].payload == before[i].payload
  }

  lemma PublisherShape(outbox: seq<OutboxRow>, picked: seq<nat>, id: nat, token: Token, at: Time, reason: string,
                       next: Option<Time>)
    ensures SamePayloads(outbox, ClaimOutbox(outbox, picked, token, at))
    ensures SamePayloads(outbox, MarkPublished(outbox, id, at, Some(token)))
    ensures SamePayloads(outbox, MarkPublishFailed(outbox, id, reason, next, Some(token)))
  {
  }

  lemma SamePayloadsKeyed(before: seq<OutboxRow>, after: seq<OutboxRow>)
    requires AllKeyed(before) && SamePayloads(before, after)
    ensures OutboxGrew(before, after) && AllKeyed(after)
  {
    forall i | 0 <= i < |after| ensures KeyedRow(after[i]) { assert KeyedRow(before[i]); }
  }

  lemma MoreTokens(deliveries: seq<DeliveryRow>, held: set<Held>, log: seq<Outcome>, tokens: set<Token>, more: set<Token>)
    requires HeldInv(deliveries, held, tokens) && LogInv(deliveries, log, tokens) && tokens <= more
    ensures HeldInv(deliveries, held, more) && LogInv(deliveries, log, more)
  {
    hide LogMatches;
  }

  lemma PublisherStep(s: System, outbox: seq<OutboxRow>, tokens: set<Token>, publishing: set<(Token, nat)>)
    requires Inv(s) && s.tokens <= tokens && SamePayloads(s.tables.outbox, outbox)
    ensures Inv(s.(tables := s.tables.(outbox := outbox), tokens := tokens, publishing := publishing))
  {
    hide InboxInv, DeliveryInv, SummaryInv, DeadLetterInv, HeldInv, LogInv, KeyedRow, InOutbox, KeysUnique, SamePayloads,
      OutboxGrew;
    SamePayloadsKeyed(s.tables.outbox, outbox);
    OutboxGrowth(s.tables.outbox, outbox, s.broker, s.tables.deliveries);
    MoreTokens(s.tables.deliveries, s.held, s.log, s.tokens, tokens);
  }

  lemma PublishStep(s: System, e: RequestEvent, id: nat)
    requires Inv(s) && id < |s.tables.outbox| && s.tables.outbox[id].payload == Request(e)
    ensures Inv(s.(broker := s.broker + {e}))
  {
    hide DeliveryInv, SummaryInv, DeadLetterInv, HeldInv, LogInv, KeyedRow, KeysUnique;
    assert InOutbox(s.tables.outbox, e);
  }

  // ---------- consumer ----------

  /** One message id, one request: whatever the broker redelivers is the same event. */
  lemma BrokerAgrees(outbox: seq<OutboxRow>, broker: set<RequestEvent>, e: RequestEvent, f: RequestEvent)
    requires OutboxInv(outbox, broker) && e in broker && f in broker && e.messageId == f.messageId
    ensures e == f
  {
    var i :| 0 <= i < |outbox| && outbox[i].payload == Request(e);
    var j :| 0 <= j < |outbox| && outbox[j].payload == Request(f);
    assert KeyedRow(outbox[i]) && KeyedRow(outbox[j]);
    assert outbox[i].key == outbox[j].key;
  }

  lemma RequestsAreValid(outbox: seq<OutboxRow>, broker: set<RequestEvent>, e: RequestEvent)
    requires OutboxInv(outbox, broker) && e in broker
    ensures ValidRequest(e)
  {
    hide KeysUnique, ValidRequest;
    var i :| 0 <= i < |outbox| && outbox[i].payload == Request(e);
    assert KeyedRow(outbox[i]);
  }

  /** Intake adds an empty inbox row, or leaves every row saying what it said but for its lease. */
  ghost predicate Intake(inbox: seq<InboxRow>, inbox': seq<InboxRow>, k: nat, e: RequestEvent) {
    && k < |inbox'| && inbox'[k].payload == e && inbox'[k].messageId == e.messageId && |inbox| <= |inbox'|
    && (|inbox'| > |inbox| ==> k == |inbox| && |inbox'| == k + 1 && inbox'[k].status == Processing)
    && (forall i | 0 <= i < |inbox| :: inbox'[i].payload == inbox[i].payload && inbox'[i].messageId == inbox[i].messageId
                                     && inbox'[i].status == inbox[i].status)
    && (forall i | 0 <= i < |inbox'| && i != k :: inbox'[i].messageId != e.messageId)
  }

  lemma IntakeShape(s: System, e: RequestEvent, lease: nat, now: Time)
    requires OutboxInv(s.tables.outbox, s.broker) && InboxInv(s.tables.inbox, s.fanning, s.broker) && e in s.broker
    ensures var (inbox, k, claimed) := ClaimRequest(s.tables.inbox, e, lease, now);
            Intake(s.tables.inbox, inbox, k, e) && (!claimed ==> inbox == s.tables.inbox)
  {
    hide OutboxInv, MessageAt;
    var at := MessageAt(s.tables.inbox, e.messageId);
    if at.Some? { BrokerAgrees(s.tables.outbox, s.broker, e, s.tables.inbox[at.value].payload); }
  }

  lemma IntakeKeeps(inbox: seq<InboxRow>, inbox': seq<InboxRow>, k: nat, e: RequestEvent, deliveries: seq<DeliveryRow>,
                    fanning: set<(nat, RequestEvent)>, broker: set<RequestEvent>)
    requires Intake(inbox, inbox', k, e) && e in broker
    requires InboxInv(inbox, fanning, broker) && DeliveryInv(inbox, deliveries) && SummaryInv(inbox, deliveries)
    ensures InboxInv(inbox', fanning + {(k, e)}, broker) && DeliveryInv(inbox', deliveries) && SummaryInv(inbox', deliveries)
  {
    hide RowInv, FromRequest, Materialised;
    if |inbox'| > |inbox| { assert Empty(deliveries, k); }
    forall j | 0 <= j < |inbox'|
      ensures Empty(deliveries, j) || Materialised(deliveries, j, inbox'[j].payload.channels)
    {
    }
  }

  lemma {:induction false} TakeStep(s: System, e: RequestEvent, lease: nat, now: Time)
    requires Inv(s) && e in s.broker
    ensures Inv(Apply(s, TakeRecord(e, lease, now)))
  {
    hide OutboxInv, InboxInv, DeliveryInv, SummaryInv, DeadLetterInv, HeldInv, LogInv, ClaimRequest, Intake;
    var (inbox, k, claimed) := ClaimRequest(s.tables.inbox, e, lease, now);
    IntakeShape(s, e, lease, now);
    if claimed {
      IntakeKeeps(s.tables.inbox, inbox, k, e, s.tables.deliveries, s.fanning, s.broker);
    }
  }

  // ---------- fan-out ----------

  function NewRows(k: nat, e: RequestEvent): seq<DeliveryRow> {
    seq(|e.channels|, j requires 0 <= j < |e.channels| => NewDelivery(k, e, e.channels[j]))
  }

  /** What a fan-out does, replayed or late or not: all of the message's rows, or none. */
  lemma FanOutExact(s: System, k: nat, e: RequestEvent)
    requires Inv(s) && (k, e) in s.fanning
    ensures k < |s.tables.inbox| && s.tables.inbox[k].payload == e && Distinct(e.channels) && e.channels != []
    ensures FanOut(s.tables.deliveries, k, e, e.channels) ==
            if Empty(s.tables.deliveries, k) then s.tables.deliveries + NewRows(k, e) else s.tables.deliveries
  {
    hide OutboxInv, SummaryInv, DeadLetterInv, HeldInv, LogInv, RowInv, FanOut;
    var t := s.tables;
    assert t.inbox[k].payload == e && e in s.broker;
    RequestsAreValid(t.outbox, s.broker, e);
    if Empty(t.deliveries, k) {
      forall i | 0 <= i < |t.deliveries| ensures t.deliveries[i].messageId != e.messageId {
        assert FromRequest(t.deliveries[i], t.inbox[t.deliveries[i].inbox].payload);
        assert t.inbox[t.deliveries[i].inbox].messageId != t.inbox[k].messageId;
      }
      FanOutFresh(t.deliveries, k, e, e.channels);
    } else {
      assert Materialised(t.deliveries, k, e.channels);
      forall c | c in e.channels ensures HasDelivery(t.deliveries, e.messageId, c) {
        var i :| 0 <= i < |t.deliveries| && t.deliveries[i].inbox == k && t.deliveries[i].channel == c;
        assert FromRequest(t.deliveries[i], t.inbox[k].payload);
      }
      FanOutReplay(t.deliveries, k, e, e.channels);
    }
  }

  lemma MaterialisedPrefix(d: seq<DeliveryRow>, f: seq<DeliveryRow>, j: nat, channels: seq<Channel>)
    requires Materialised(d, j, channels) && forall i | 0 <= i < |f| :: f[i].inbox != j
    ensures Materialised(d + f, j, channels)
  {
    forall c | c in channels ensures exists i | 0 <= i < |d + f| :: (d + f)[i].inbox == j && (d + f)[i].channel == c {
      var i :| 0 <= i < |d| && d[i].inbox == j && d[i].channel == c;
      assert (d + f)[i] == d[i];
    }
  }

  lemma NewRowsMaterialise(d: seq<DeliveryRow>, k: nat, e: RequestEvent)
    requires Empty(d, k)
    ensures Materialised(d + NewRows(k, e), k, e.channels)
  {
    var d' := d + NewRows(k, e);
    forall c | c in e.channels ensures exists i | 0 <= i < |d'| :: d'[i].inbox == k && d'[i].channel == c {
      var n :| 0 <= n < |e.channels| && e.channels[n] == c;
      assert d'[|d| + n].channel == c && d'[|d| + n].inbox == k;
    }
  }

  lemma NewRowsKeepDeliveries(inbox: seq<InboxRow>, d: seq<DeliveryRow>, k: nat, e: RequestEvent)
    requires DeliveryInv(inbox, d) && k < |inbox| && inbox[k].payload == e && Empty(d, k) && Distinct(e.channels)
    requires |d| + |e.channels| <= MAX_ID
    ensures DeliveryInv(inbox, d + NewRows(k, e))
  {
    hide RowInv, Materialised, FromRequest;
    var f := NewRows(k, e);
    var d' := d + f;
    forall i | 0 <= i < |d'| ensures d'[i].inbox < |inbox| && FromRequest(d'[i], inbox[d'[i].inbox].payload) && RowInv(d'[i]) {
      if i >= |d| { NewRow(k, e, i - |d|); } else { assert d'[i] == d[i]; }
    }
    forall j | 0 <= j < |inbox| ensures Empty(d', j) || Materialised(d', j, inbox[j].payload.channels) {
      if j == k {
        NewRowsMaterialise(d, k, e);
      } else if Empty(d, j) {
        assert Empty(d', j);
      } else {
        MaterialisedPrefix(d, f, j, inbox[j].payload.channels);
      }
    }
  }

  lemma NewRow(k: nat, e: RequestEvent, j: nat)
    requires j < |e.channels|
    ensures NewRows(k, e)[j] == NewDelivery(k, e, e.channels[j])
    ensures FromRequest(NewRows(k, e)[j], e) && RowInv(NewRows(k, e)[j])
  {
    NewRowInv(k, e, e.channels[j]);
  }

  lemma NewRowsKeepSummaries(inbox: seq<InboxRow>, d: seq<DeliveryRow>, k: nat, e: RequestEvent)
    requires SummaryInv(inbox, d) && k < |inbox| && Empty(d, k) && e.channels != []
    ensures SummaryInv(inbox, d + NewRows(k, e))
  {
    var d' := d + NewRows(k, e);
    forall j | 0 <= j < |inbox| ensures inbox[j].status == Summary(d', j) {
      if j == k {
        assert d'[|d|] == NewDelivery(k, e, e.channels[0]);
        assert !AllTerminal(d', k);
      } else {
        SummaryOfOthers(d, d', j);
      }
    }
  }

  lemma {:induction false} CountNone(log: seq<Outcome>, id: nat, kind: OutcomeKind)
    requires forall a | 0 <= a < |log| :: log[a].id != id
    ensures Count(log, id, kind) == 0
  {
    if log != [] { CountNone(log[..|log| - 1], id, kind); }
  }

  lemma NewRowsKeepHistory(outbox: seq<OutboxRow>, d: seq<DeliveryRow>, f: seq<DeliveryRow>, held: set<Held>, log: seq<Outcome>,
                           tokens: set<Token>)
    requires DeadLetterInv(outbox, d) && HeldInv(d, held, tokens) && LogInv(d, log, tokens)
    requires forall i | 0 <= i < |f| :: f[i].status == Pending && f[i].attempts == 0 && f[i].claimToken == None
    ensures DeadLetterInv(outbox, d + f) && HeldInv(d + f, held, tokens) && LogInv(d + f, log, tokens)
  {
    hide Count, DeadLetterMatches, HasDeadLetter;
    var d' := d + f;
    assert forall i | 0 <= i < |d| :: d'[i] == d[i];
    assert forall i | |d| <= i < |d'| :: d'[i].status == Pending && d'[i].attempts == 0 && d'[i].claimToken == None;
    forall i | 0 <= i < |d'| ensures LogMatches(log, i, d'[i]) {
      if i >= |d| {
        CountNone(log, i, DidDeliver);
        CountNone(log, i, DidRetry);
        CountNone(log, i, DidDie);
      } else {
        assert LogMatches(log, i, d[i]);
      }
    }
  }

  lemma {:induction false} FanOutStep(s: System, k: nat, e: RequestEvent)
    requires Inv(s) && Enabled(s, FanOutRecord(k, e))
    ensures Inv(Apply(s, FanOutRecord(k, e)))
  {
    hide OutboxInv, InboxInv, DeliveryInv, SummaryInv, DeadLetterInv, HeldInv, LogInv, FanOut, Distinct;
    var t := s.tables;
    FanOutExact(s, k, e);
    if Empty(t.deliveries, k) {
      NewRowsKeepDeliveries(t.inbox, t.deliveries, k, e);
      NewRowsKeepSummaries(t.inbox, t.deliveries, k, e);
      NewRowsKeepHistory(t.outbox, t.deliveries, NewRows(k, e), s.held, s.log, s.tokens);
    }
  }

  // ---------- steps that rewrite delivery rows ----------

  ghost predicate SameIdentity(r: DeliveryRow, r': DeliveryRow) {
    && r'.inbox == r.inbox && r'.messageId == r.messageId && r'.incidentId == r.incidentId
    && r'.sourceId == r.sourceId && r'.tenantId == r.tenantId && r'.severity == r.severity && r'.channel == r.channel
  }

  ghost predicate Rewritten(d: seq<DeliveryRow>, d': seq<DeliveryRow>) {
    |d'| == |d| && forall i | 0 <= i < |d| :: SameIdentity(d[i], d'[i]) && RowInv(d'[i])
  }

  ghost predicate SameRequests(inbox: seq<InboxRow>, inbox': seq<InboxRow>) {
    |inbox'| == |inbox| && forall k | 0 <= k < |inbox| ::
      inbox'[k].payload == inbox[k].payload && inbox'[k].messageId == inbox[k].messageId
  }

  lemma RewrittenMaterialised(d: seq<DeliveryRow>, d': seq<DeliveryRow>, k: nat, channels: seq<Channel>)
    requires Rewritten(d, d') && (Empty(d, k) || Materialised(d, k, channels))
    ensures Empty(d', k) || Materialised(d', k, channels)
  {
    hide RowInv;
    if Empty(d, k) {
      assert Empty(d', k);
    } else {
      forall c | c in channels ensures exists i | 0 <= i < |d'| :: d'[i].inbox == k && d'[i].channel == c {
        var i :| 0 <= i < |d| && d[i].inbox == k && d[i].channel == c;
        assert SameIdentity(d[i], d'[i]);
      }
    }
  }

  lemma RewriteKeepsDeliveries(inbox: seq<InboxRow>, inbox': seq<InboxRow>, d: seq<DeliveryRow>, d': seq<DeliveryRow>)
    requires DeliveryInv(inbox, d) && Rewritten(d, d') && SameRequests(inbox, inbox')
    ensures DeliveryInv(inbox', d')
  {
    hide RowInv, Materialised, Empty;
    forall k | 0 <= k < |inbox'| ensures Empty(d', k) || Materialised(d', k, inbox'[k].payload.channels) {
      RewrittenMaterialised(d, d', k, inbox[k].payload.channels);
    }
  }

  lemma SameRequestsKeepInbox(inbox: seq<InboxRow>, inbox': seq<InboxRow>, fanning: set<(nat, RequestEvent)>, broker: set<RequestEvent>)
    requires InboxInv(inbox, fanning, broker) && SameRequests(inbox, inbox')
    ensures InboxInv(inbox', fanning, broker)
  {
  }

  lemma DeadRowsStand(outbox: seq<OutboxRow>, d: seq<DeliveryRow>, d': seq<DeliveryRow>)
    requires DeadLetterInv(outbox, d) && |d'| == |d|
    requires forall i | 0 <= i < |d| :: d'[i] == d[i] || (d[i].status != Dead && d'[i].status != Dead)
    ensures DeadLetterInv(outbox, d')
  {
    hide HasDeadLetter;
  }

  /** What claiming a batch does to the table. */
  ghost predicate Batch(d: seq<DeliveryRow>, d': seq<DeliveryRow>, picked: seq<nat>, token: Token, lease: nat, now: Time) {
    && |d'| == |d|
    && forall i | 0 <= i < |d| ::
         if i in picked then Claimable(d[i], now) && d'[i] == ClaimedRow(d[i], token, lease, now) else d'[i] == d[i]
  }

  lemma BatchShape(d: seq<DeliveryRow>, limit: nat, token: Token, lease: nat, locked: set<nat>, now: Time)
    ensures var picked := Pick(DeliveryMask(d, now, locked), limit);
            Batch(d, ClaimDeliveries(d, picked, token, lease, now), picked, token, lease, now)
  {
    hide Claimable, ClaimedRow, Pick;
    var mask := DeliveryMask(d, now, locked);
    var picked := Pick(mask, limit);
    forall i | 0 <= i < |d| && i in picked ensures Claimable(d[i], now) {
      assert mask[i];
    }
  }

  lemma BatchRewrites(inbox: seq<InboxRow>, d: seq<DeliveryRow>, d': seq<DeliveryRow>, picked: seq<nat>, token: Token, lease: nat,
                      now: Time)
    requires DeliveryInv(inbox, d) && Batch(d, d', picked, token, lease, now)
    ensures Rewritten(d, d') && |d'| == |d|
    ensures forall i | 0 <= i < |d| :: d'[i] == d[i] || (d[i].status != Dead && d'[i].status != Dead)
  {
    hide RowInv, Materialised, FromRequest, Empty;
    forall i | 0 <= i < |d| ensures SameIdentity(d[i], d'[i]) && RowInv(d'[i]) {
      assert RowInv(d[i]);
      if i in picked { ClaimedRowInv(d[i], token, lease, now); }
    }
  }

  lemma BatchKeepsSummaries(inbox: seq<InboxRow>, d: seq<DeliveryRow>, d': seq<DeliveryRow>, picked: seq<nat>, token: Token,
                            lease: nat, now: Time)
    requires SummaryInv(inbox, d) && Batch(d, d', picked, token, lease, now)
    ensures SummaryInv(inbox, d')
  {
    hide Summary;
    forall k | 0 <= k < |inbox| ensures inbox[k].status == Summary(d', k) {
      SummaryByStatus(d, d', k);
    }
  }

  lemma BatchKeepsHistory(d: seq<DeliveryRow>, d': seq<DeliveryRow>, picked: seq<nat>, token: Token, lease: nat, now: Time,
                          held: set<Held>, log: seq<Outcome>, tokens: set<Token>)
    requires HeldInv(d, held, tokens) && LogInv(d, log, tokens) && token !in tokens
    requires Batch(d, d', picked, token, lease, now)
    ensures HeldInv(d', held + HeldRows(d', picked, token, now), tokens + {token})
    ensures LogInv(d', log, tokens + {token})
  {
    hide Count;
    forall i | 0 <= i < |d'| ensures LogMatches(log, i, d'[i]) {
      assert LogMatches(log, i, d[i]);
    }
  }

  lemma {:induction false} ClaimStep(s: System, limit: nat, token: Token, lease: nat, locked: set<nat>, now: Time)
    requires Inv(s) && token !in s.tokens
    ensures Inv(Apply(s, ClaimDeliveryBatch(limit, token, lease, locked, now)))
  {
    hide OutboxInv, InboxInv, DeliveryInv, SummaryInv, DeadLetterInv, HeldInv, LogInv, ClaimDeliveries, HeldRows, Batch, Rewritten,
      Pick, DeliveryMask;
    var t := s.tables;
    var picked := PickDeliveries(s, limit, locked, now);
    var d' := ClaimDeliveries(t.deliveries, picked, token, lease, now);
    BatchShape(t.deliveries, limit, token, lease, locked, now);
    BatchRewrites(t.inbox, t.deliveries, d', picked, token, lease, now);
    RewriteKeepsDeliveries(t.inbox, t.inbox, t.deliveries, d');
    BatchKeepsSummaries(t.inbox, t.deliveries, d', picked, token, lease, now);
    DeadRowsStand(t.outbox, t.deliveries, d');
    BatchKeepsHistory(t.deliveries, d', picked, token, lease, now, s.held, s.log, s.tokens);
  }

  // ---------- outcomes ----------

  function StatusOf(kind: OutcomeKind): DeliveryStatus {
    match kind case DidDeliver => Delivered case DidRetry => RetryScheduled case DidDie => Dead
  }

  /** What an outcome makes of the one row it owns. */
  ghost predicate Concluded(r: DeliveryRow, r': DeliveryRow, kind: OutcomeKind) {
    && SameIdentity(r, r') && RowInv(r') && r'.claimToken == None && r'.attempts == r.attempts && r'.status == StatusOf(kind)
  }

  lemma ConclusionKeepsHeld(d: seq<DeliveryRow>, id: nat, r': DeliveryRow, held: set<Held>, tokens: set<Token>)
    requires HeldInv(d, held, tokens) && id < |d| && r'.claimToken == None
    ensures HeldInv(d[id := r'], held, tokens)
  {
  }

  lemma CountAppend(log: seq<Outcome>, o: Outcome, id: nat, kind: OutcomeKind)
    ensures Count(log + [o], id, kind) == Count(log, id, kind) + (if o.id == id && o.kind == kind then 1 else 0)
  {
    assert (log + [o])[..|log + [o]| - 1] == log;
  }

  lemma LogGrows(log: seq<Outcome>, o: Outcome, i: nat, r: DeliveryRow, r': DeliveryRow)
    requires LogMatches(log, i, r)
    requires if i == o.id then r.status == InFlight && Concluded(r, r', o.kind) else r' == r
    ensures LogMatches(log + [o], i, r')
  {
    hide Count, RowInv, SameIdentity;
    CountAppend(log, o, i, DidDeliver);
    CountAppend(log, o, i, DidRetry);
    CountAppend(log, o, i, DidDie);
  }

  lemma ConclusionKeepsHistory(d: seq<DeliveryRow>, h: Held, r': DeliveryRow, kind: OutcomeKind, held: set<Held>, log: seq<Outcome>,
                               tokens: set<Token>)
    requires HeldInv(d, held, tokens) && LogInv(d, log, tokens) && h in held
    requires Owns(d, h.id, h.token) && Concluded(d[h.id], r', kind)
    ensures HeldInv(d[h.id := r'], held, tokens)
    ensures LogInv(d[h.id := r'], log + [Outcome(h.token, h.id, kind)], tokens)
  {
    hide LogMatches, RowInv, SameIdentity;
    var o := Outcome(h.token, h.id, kind);
    var d', log' := d[h.id := r'], log + [o];
    ConclusionKeepsHeld(d, h.id, r', held, tokens);
    forall i | 0 <= i < |d'| ensures LogMatches(log', i, d'[i]) {
      LogGrows(log, o, i, d[i], d'[i]);
    }
    assert forall a | 0 <= a < |log| :: log'[a] == log[a] && d[log[a].id].claimToken != Some(log[a].token);
  }

  lemma ConclusionKeepsDeliveries(inbox: seq<InboxRow>, inbox': seq<InboxRow>, d: seq<DeliveryRow>, id: nat, r': DeliveryRow,
                                  kind: OutcomeKind, fanning: set<(nat, RequestEvent)>, broker: set<RequestEvent>)
    requires DeliveryInv(inbox, d) && InboxInv(inbox, fanning, broker) && id < |d| && Concluded(d[id], r', kind)
    requires SameRequests(inbox, inbox')
    ensures DeliveryInv(inbox', d[id := r']) && InboxInv(inbox', fanning, broker)
  {
    hide RowInv, Materialised, FromRequest, Empty, InboxInv;
    var d' := d[id := r'];
    assert Rewritten(d, d') by {
      forall i | 0 <= i < |d| ensures SameIdentity(d[i], d'[i]) && RowInv(d'[i]) {
        assert RowInv(d[i]);
      }
    }
    RewriteKeepsDeliveries(inbox, inbox', d, d');
    SameRequestsKeepInbox(inbox, inbox', fanning, broker);
  }

  /** A terminal outcome changes only its own message's summary, and that one is recomputed. */
  lemma RefreshKeepsSummaries(t: Tables, id: nat, r': DeliveryRow, now: Time)
    requires SummaryInv(t.inbox, t.deliveries) && id < |t.deliveries| && r'.inbox == t.deliveries[id].inbox < |t.inbox|
    requires !Terminal(t.deliveries[id].status)
    ensures var after := RefreshInbox(t.(deliveries := t.deliveries[id := r']), r'.inbox, now);
            SummaryInv(after.inbox, after.deliveries) && SameRequests(t.inbox, after.inbox)
  {
    hide Summary;
    var d' := t.deliveries[id := r'];
    var after := RefreshInbox(t.(deliveries := d'), r'.inbox, now);
    forall k | 0 <= k < |after.inbox| ensures after.inbox[k].status == Summary(d', k) {
      if k != r'.inbox { SummaryByStatus(t.deliveries, d', k); }
    }
  }

  lemma RetryKeepsSummaries(inbox: seq<InboxRow>, d: seq<DeliveryRow>, id: nat, r': DeliveryRow)
    requires SummaryInv(inbox, d) && id < |d| && r'.inbox == d[id].inbox && !Terminal(d[id].status) && !Terminal(r'.status)
    ensures SummaryInv(inbox, d[id := r'])
  {
    hide Summary;
    forall k | 0 <= k < |inbox| ensures inbox[k].status == Summary(d[id := r'], k) {
      SummaryByStatus(d, d[id := r'], k);
    }
  }

  /** The owned row, as the invariants see it. */
  lemma OwnedRow(s: System, h: Held)
    requires Inv(s) && h in s.held && Owns(s.tables.deliveries, h.id, h.token)
    ensures var r := s.tables.deliveries[h.id];
            && RowInv(r) && r.inbox < |s.tables.inbox| && FromRequest(r, s.tables.inbox[r.inbox].payload)
            && ValidRequest(s.tables.inbox[r.inbox].payload) && h.id < MAX_ID
            && h.attempts == r.attempts && Some(h.lastAttemptAt) == r.lastAttemptAt
  {
    hide RowInv, FromRequest, ValidRequest, OutboxInv, SummaryInv, DeadLetterInv, LogInv, Materialised, Empty;
    var r := s.tables.deliveries[h.id];
    RequestsAreValid(s.tables.outbox, s.broker, s.tables.inbox[r.inbox].payload);
  }

  lemma {:induction false} SucceedStep(s: System, h: Held, reference: Option<string>, now: Time)
    requires Inv(s) && h in s.held
    ensures Inv(Apply(s, Succeed(h, reference, now)))
  {
    hide OutboxInv, InboxInv, DeliveryInv, SummaryInv, DeadLetterInv, HeldInv, LogInv, Summary, RowInv, FromRequest, ValidRequest,
      SameRequests;
    var t := s.tables;
    if Owns(t.deliveries, h.id, h.token) {
      OwnedRow(s, h);
      var r := t.deliveries[h.id];
      var r' := DeliveredRow(r, reference, now);
      OutcomeRowInv(r, reference, DeliveryError(Unknown, None, ""), now, now);
      RefreshKeepsSummaries(t, h.id, r', now);
      var after := RefreshInbox(t.(deliveries := t.deliveries[h.id := r']), r'.inbox, now);
      assert Apply(s, Succeed(h, reference, now)).tables == after;
      ConclusionKeepsDeliveries(t.inbox, after.inbox, t.deliveries, h.id, r', DidDeliver, s.fanning, s.broker);
      ConclusionKeepsHistory(t.deliveries, h, r', DidDeliver, s.held, s.log, s.tokens);
      DeadRowsStand(t.outbox, t.deliveries, after.deliveries);
    }
  }

  lemma {:induction false} RetryStep(s: System, h: Held, delay: nat, error: DeliveryError)
    requires Inv(s) && Enabled(s, Retry(h, delay, error))
    ensures Inv(Apply(s, Retry(h, delay, error)))
  {
    hide OutboxInv, InboxInv, DeliveryInv, SummaryInv, DeadLetterInv, HeldInv, LogInv, RowInv, FromRequest, ValidRequest;
    var t := s.tables;
    if Owns(t.deliveries, h.id, h.token) {
      OwnedRow(s, h);
      var r, next := t.deliveries[h.id], h.lastAttemptAt + delay;
      var r' := RetryRow(r, next, error);
      OutcomeRowInv(r, None, error, next, next);
      ConclusionKeepsDeliveries(t.inbox, t.inbox, t.deliveries, h.id, r', DidRetry, s.fanning, s.broker);
      ConclusionKeepsHistory(t.deliveries, h, r', DidRetry, s.held, s.log, s.tokens);
      RetryKeepsSummaries(t.inbox, t.deliveries, h.id, r');
      DeadRowsStand(t.outbox, t.deliveries, t.deliveries[h.id := r']);
    }
  }

  /** A worker that may retry never hits the exhausted-budget exception. */
  lemma {:induction false} RetryNeverRaises(s: System, h: Held, delay: nat, error: DeliveryError)
    requires Inv(s) && Enabled(s, Retry(h, delay, error))
    ensures ScheduleRetry(s.tables, h.id, h.token, h.lastAttemptAt + delay, error).Ok?
  {
    hide OutboxInv, InboxInv, DeliveryInv, SummaryInv, DeadLetterInv, HeldInv, LogInv, RowInv, FromRequest, ValidRequest;
    if Owns(s.tables.deliveries, h.id, h.token) { OwnedRow(s, h); }
  }

  /** Nor does giving up ever fail the event's validation. */
  lemma GiveUpNeverRaises(s: System, h: Held, error: DeliveryError, now: Time)
    requires Inv(s) && h in s.held
    ensures DeadLetterDelivery(s.tables, h.id, h.token, error, now).Ok?
  {
    hide OutboxInv, InboxInv, DeliveryInv, SummaryInv, DeadLetterInv, HeldInv, LogInv, RowInv, FromRequest, ValidRequest,
      ValidDeadLetter, RefreshInbox, AddOutbox;
    var t := s.tables;
    if Owns(t.deliveries, h.id, h.token) {
      OwnedRow(s, h);
      var r := t.deliveries[h.id];
      DeadLetterValid(r, h.id, t.inbox[r.inbox].payload, error, now);
    }
  }

  /** The dead letter's key is free: the row it names was still in flight. */
  lemma {:induction false} DeadLetterKeyFree(outbox: seq<OutboxRow>, broker: set<RequestEvent>, d: seq<DeliveryRow>, id: nat)
    requires OutboxInv(outbox, broker) && DeadLetterInv(outbox, d)
    requires id < |d| && d[id].status != Dead
    ensures KeyAt(outbox, DeadLetterKey(id + 1)) == None
  {
    hide ValidRequest, ValidDeadLetter, DeadLetterKey, RequestKey, MessageId, InOutbox, KeyAt, KeysUnique, HasDeadLetter;
    forall j | 0 <= j < |outbox| ensures outbox[j].key != DeadLetterKey(id + 1) {
      assert KeyedRow(outbox[j]);
      match outbox[j].payload
      case Request(e) => KeysDisjoint(e.messageId, id + 1);
      case DeadLetter(dl) =>
        assert DeadLetterMatches(d[dl.deliveryId - 1], dl);
        if outbox[j].key == DeadLetterKey(id + 1) { DeadLetterKeyInjective(dl.deliveryId, id + 1); }
    }
  }

  lemma {:induction false} KeyedRowAdded(outbox: seq<OutboxRow>, broker: set<RequestEvent>, added: OutboxRow)
    requires OutboxInv(outbox, broker) && KeyedRow(added) && KeyAt(outbox, added.key) == None
    ensures OutboxInv(outbox + [added], broker)
  {
    hide KeyedRow, KeyAt;
    var o' := outbox + [added];
    assert forall i | 0 <= i < |outbox| :: o'[i] == outbox[i];
    forall e | e in broker ensures InOutbox(o', e) {
      var i :| 0 <= i < |outbox| && outbox[i].payload == Request(e);
      assert o'[i].payload == Request(e);
    }
  }

  lemma HasDeadLetterExtends(outbox: seq<OutboxRow>, added: OutboxRow, id: nat)
    requires HasDeadLetter(outbox, id) || (added.payload.DeadLetter? && added.payload.deadLetter.deliveryId == id + 1)
    ensures HasDeadLetter(outbox + [added], id)
  {
    var o' := outbox + [added];
    assert o'[|outbox|] == added;
    if HasDeadLetter(outbox, id) {
      var j :| 0 <= j < |outbox| && outbox[j].payload.DeadLetter? && outbox[j].payload.deadLetter.deliveryId == id + 1;
      assert o'[j] == outbox[j];
    }
  }

  lemma {:induction false} DeadLetterAdded(outbox: seq<OutboxRow>, d: seq<DeliveryRow>, id: nat, r': DeliveryRow, added: OutboxRow)
    requires DeadLetterInv(outbox, d)
    requires added.payload.DeadLetter? && added.payload.deadLetter.deliveryId == id + 1
    requires id < |d| && d[id].status != Dead && DeadLetterMatches(r', added.payload.deadLetter)
    ensures DeadLetterInv(outbox + [added], d[id := r'])
  {
    hide HasDeadLetter;
    var o', d' := outbox + [added], d[id := r'];
    forall i | 0 <= i < |d| && d'[i].status == Dead ensures HasDeadLetter(o', i) {
      HasDeadLetterExtends(outbox, added, i);
    }
  }

  lemma {:induction false} GiveUpStep(s: System, h: Held, error: DeliveryError, now: Time)
    requires Inv(s) && h in s.held
    ensures Inv(Apply(s, GiveUp(h, error, now)))
  {
    hide OutboxInv, InboxInv, DeliveryInv, SummaryInv, DeadLetterInv, HeldInv, LogInv, Summary, FromRequest, ValidRequest,
      ValidDeadLetter, SameRequests, DeadLetterKey, KeyAt;
    var t := s.tables;
    if Owns(t.deliveries, h.id, h.token) {
      OwnedRow(s, h);
      var r := t.deliveries[h.id];
      var event := DeadLetterOf(r, h.id, error, now);
      var added := NewOutboxRow(event.messageId, DeadLetter(event), r.tenantId);
      var r' := DeadRow(r, error, now);
      DeadLetterValid(r, h.id, t.inbox[r.inbox].payload, error, now);
      OutcomeRowInv(r, None, error, now, now);
      DeadLetterKeyFree(t.outbox, s.broker, t.deliveries, h.id);
      KeyedRowAdded(t.outbox, s.broker, added);
      DeadLetterAdded(t.outbox, t.deliveries, h.id, r', added);
      RefreshKeepsSummaries(t, h.id, r', now);
      var after := RefreshInbox(t.(deliveries := t.deliveries[h.id := r'], outbox := t.outbox + [added]), r'.inbox, now);
      assert Apply(s, GiveUp(h, error, now)).tables == after;
      ConclusionKeepsDeliveries(t.inbox, after.inbox, t.deliveries, h.id, r', DidDie, s.fanning, s.broker);
      ConclusionKeepsHistory(t.deliveries, h, r', DidDie, s.held, s.log, s.tokens);
    }
  }

  // ---------- every step, every run ----------

  lemma {:induction false} StepKeepsInv(s: System, a: Action)
    requires Inv(s) && Enabled(s, a)
    ensures Inv(Apply(s, a))
  {
    hide PickOutbox, PickDeliveries, TransactIncidents, ClaimOutbox, MarkPublished, MarkPublishFailed, ClaimRequest, FanOut,
      ClaimDeliveries, MarkDelivered, ScheduleRetry, DeadLetterDelivery, HeldRows, Logged, SamePayloads,
      OutboxInv, InboxInv, DeliveryInv, SummaryInv, DeadLetterInv, HeldInv, LogInv;
    match a
    case IncidentTransaction(ops, channels, now, later) => IncidentStep(s, ops, channels, now, later);
    case AcknowledgeIncident(row, actor, now) =>
    case ResolveIncident(row, actor, now) =>
    case ClaimOutboxBatch(limit, token, lease, locked, now) =>
      var picked := PickOutbox(s, limit, locked, now);
      PublisherShape(s.tables.outbox, picked, 0, token, now + lease, "", None);
      PublisherStep(s, ClaimOutbox(s.tables.outbox, picked, token, now + lease), s.tokens + {token}, Apply(s, a).publishing);
    case PublishRecord(token, id) =>
      if id < |s.tables.outbox| && s.tables.outbox[id].payload.Request? { PublishStep(s, s.tables.outbox[id].payload.request, id); }
    case RecordPublished(token, id, at) =>
      PublisherShape(s.tables.outbox, [], id, token, at, "", None);
      PublisherStep(s, MarkPublished(s.tables.outbox, id, at, Some(token)), s.tokens, s.publishing);
    case RecordPublishFailed(token, id, reason, next) =>
      PublisherShape(s.tables.outbox, [], id, token, 0, reason, next);
      PublisherStep(s, MarkPublishFailed(s.tables.outbox, id, reason, next, Some(token)), s.tokens, s.publishing);
    case TakeRecord(e, lease, now) => TakeStep(s, e, lease, now);
    case FanOutRecord(inbox, e) => FanOutStep(s, inbox, e);
    case CommitOffset(e) =>
    case ClaimDeliveryBatch(limit, token, lease, locked, now) => ClaimStep(s, limit, token, lease, locked, now);
    case Succeed(h, reference, now) => SucceedStep(s, h, reference, now);
    case Retry(h, delay, error) => RetryStep(s, h, delay, error);
    case GiveUp(h, error, now) => GiveUpStep(s, h, error, now);
  }

  /** Main result: all invariants hold after every feasible run. */
  lemma {:induction false} AlwaysInv(actions: seq<Action>)
    requires Feasible(actions)
    ensures Inv(Run(actions))
  {
    hide Enabled, Apply;
    if actions != [] {
      hide Inv;
      AlwaysInv(actions[..|actions| - 1]);
      StepKeepsInv(Run(actions[..|actions| - 1]), actions[|actions| - 1]);
    }
  }
}
