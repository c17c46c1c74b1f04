/** When an incident is announced again: exactly, over runs and on the history of notices. */
module NotificationCadence {
  import opened Wrappers
  import opened Keys
  import Incidents
  import opened IncidentLifecycle
  import NT = NotificationTables
  import P = NotificationProtocol
  import IN = IncidentNotifications
  import S = NotificationSafety
  import O = NotificationOrigins

  type Notice = P.Notice
  type Row = Incidents.Incident
  type Time = Incidents.Time

  /** The stamp of the last notice about an incident. */
  function LastStamp(due: seq<Notice>, incident: nat): Option<Time> {
    if due == [] then None
    else if due[|due| - 1].incident == incident then Some(due[|due| - 1].stamp)
    else LastStamp(due[..|due| - 1], incident)
  }

  /** Never announced, or at least `cooldown` before `later`. */
  ghost predicate Rested(last: Option<Time>, cooldown: int, later: Time) {
    last.None? || last.value <= later - cooldown
  }

  lemma LastStampNext(due: seq<Notice>, n: Notice, incident: nat)
    ensures LastStamp(due + [n], incident) == if n.incident == incident then Some(n.stamp) else LastStamp(due, incident)
  {
    assert (due + [n])[..|due|] == due;
  }

  /** Every row remembers the last notice about it, and notices are about rows that exist. */
  ghost predicate Remembers(incidents: seq<Row>, due: seq<Notice>) {
    && (forall i | 0 <= i < |incidents| :: incidents[i].lastNotification == LastStamp(due, i))
    && forall n | n in due :: n.incident < |incidents|
  }

  lemma {:induction false} NoStampYet(due: seq<Notice>, incident: nat)
    requires forall n | n in due :: n.incident < incident
    ensures LastStamp(due, incident) == None
  {
    if due != [] { NoStampYet(due[..|due| - 1], incident); }
  }

  // ---------- every run remembers ----------

  lemma AdvanceRemembers(before: seq<Row>, after: seq<Row>, due: seq<Notice>)
    requires Remembers(before, due) && O.Advanced(before, after)
    ensures Remembers(after, due)
  {
    forall i | 0 <= i < |after| ensures after[i].lastNotification == LastStamp(due, i) {
      if i >= |before| { NoStampYet(due, i); }
    }
  }

  lemma {:induction false} EnqueueRemembers(q: IN.Queued, ts: seq<Incidents.Transition>, channels: seq<NT.Channel>, due: seq<Notice>)
    requires IN.InRange(ts, |q.incidents|) && Remembers(q.incidents, due)
    ensures var r := IN.EnqueueEach(q, ts, channels);
            r.Ok? ==> Remembers(r.value.incidents, due + P.NoticesOf(q.incidents, ts))
  {
    hide NT.ValidRequest, IN.RequestFor, Remembers;
    if ts == [] {
      assert due + [] == due;
    } else {
      var front, t := ts[..|ts| - 1], ts[|ts| - 1];
      EnqueueRemembers(q, front, channels, due);
      O.EnqueueStamps(q, front, channels);
      var before := IN.EnqueueEach(q, front, channels);
      if before.Ok? && t.shouldNotify {
        var row := before.value.incidents[t.incident];
        SeenStays(q.incidents, before.value.incidents, front, t.incident);
        var n := P.Notice(t.incident, q.incidents[t.incident].occurrence, row.lastSeen);
        StampRemembers(before.value.incidents, due + P.NoticesOf(q.incidents, front), n);
        assert due + P.NoticesOf(q.incidents, ts) == (due + P.NoticesOf(q.incidents, front)) + [n];
      }
    }
  }

  lemma SeenStays(before: seq<Row>, after: seq<Row>, ts: seq<Incidents.Transition>, i: nat)
    requires O.Stamped(before, after, ts) && i < |before|
    ensures i < |after| && after[i].lastSeen == before[i].lastSeen
  {
  }

  lemma StampRemembers(incidents: seq<Row>, due: seq<Notice>, n: Notice)
    requires Remembers(incidents, due) && n.incident < |incidents| && n.stamp == incidents[n.incident].lastSeen
    ensures var row := incidents[n.incident];
            Remembers(incidents[n.incident := row.(lastNotification := Some(row.lastSeen))], due + [n])
  {
    forall i | 0 <= i < |incidents| ensures LastStamp(due + [n], i) == if i == n.incident then Some(n.stamp) else LastStamp(due, i) {
      LastStampNext(due, n, i);
    }
  }

  lemma {:induction false} TransactionRemembers(s: P.System, ops: seq<Incidents.Op>, channels: seq<NT.Channel>, now: Time, later: Time)
    requires Remembers(s.incidents, s.due) && TableInv(s.incidents) && P.DistinctKeys(ops)
    ensures var s' := P.TransactIncidents(s, ops, channels, now, later); Remembers(s'.incidents, s'.due)
  {
    hide TableInv, Remembers, O.Advanced, O.Apart, O.Ready, Incidents.ApplyOps, IN.EnqueueEach, P.NoticesOf;
    var (after, ts) := Incidents.ApplyOps(s.incidents, ops, now, later);
    O.OpsOutcomeHolds(s.incidents, ops, now, later, None);
    AdvanceRemembers(s.incidents, after, s.due);
    EnqueueRemembers(IN.Queued(after, s.tables.outbox), ts, channels, s.due);
  }

  lemma OperatorRemembers(incidents: seq<Row>, due: seq<Notice>, row: nat, r: Row)
    requires Remembers(incidents, due) && row < |incidents| && r.lastNotification == incidents[row].lastNotification
    ensures Remembers(incidents[row := r], due)
  {
  }

  lemma {:induction false} StepRemembers(s: P.System, a: P.Action)
    requires Remembers(s.incidents, s.due) && TableInv(s.incidents) && P.Enabled(s, a)
    ensures Remembers(P.Apply(s, a).incidents, P.Apply(s, a).due)
  {
    hide TableInv, Remembers, P.TransactIncidents, P.PickOutbox, P.PickDeliveries, P.HeldRows, P.Logged, NT.ClaimOutbox, NT.MarkPublished,
      NT.MarkPublishFailed, NT.ClaimRequest, NT.FanOut, NT.ClaimDeliveries, NT.MarkDelivered, NT.ScheduleRetry, NT.DeadLetterDelivery,
      P.DistinctKeys;
    match a
    case IncidentTransaction(ops, channels, now, later) => TransactionRemembers(s, ops, channels, now, later);
    case AcknowledgeIncident(row, actor, now) =>
      if s.incidents[row].status == Incidents.Open {
        OperatorRemembers(s.incidents, s.due, row, P.Apply(s, a).incidents[row]);
      }
    case ResolveIncident(row, actor, now) =>
      if s.incidents[row].status != Incidents.Resolved {
        OperatorRemembers(s.incidents, s.due, row, P.Apply(s, a).incidents[row]);
      }
    case _ =>
  }

  lemma {:induction false} AlwaysRemembers(actions: seq<P.Action>)
    requires P.Feasible(actions)
    ensures Remembers(P.Run(actions).incidents, P.Run(actions).due) && TableInv(P.Run(actions).incidents)
  {
    hide P.Apply, P.Enabled, Remembers, TableInv, P.Inv, O.NoticeInv, O.RequestInv;
    O.Unpaced(actions);
    O.OriginsAlways(actions, None);
    if actions == [] {
      NothingToRemember();
    } else {
      var front := actions[..|actions| - 1];
      AlwaysRemembers(front);
      StepRemembers(P.Run(front), actions[|actions| - 1]);
    }
  }

  lemma NothingToRemember()
    ensures Remembers([], [])
  {
  }

  // ---------- one op among those of a transaction ----------

  /** Rows whose key no op touches stand. */
  lemma {:induction false} UntouchedStand(incidents: seq<Row>, ops: seq<Incidents.Op>, now: Time, later: Time, key: string)
    requires TableInv(incidents) && P.DistinctKeys(ops) && !O.Touches(ops, key)
    ensures var (after, ts) := Incidents.ApplyOps(incidents, ops, now, later);
            && TableInv(after) && |incidents| <= |after|
            && (forall i | 0 <= i < |incidents| && incidents[i].fingerprint == key :: after[i] == incidents[i])
            && (forall i | 0 <= i < |incidents| :: after[i].fingerprint == incidents[i].fingerprint)
            && Active(after, key) == Active(incidents, key)
  {
    hide TableInv, Incidents.ApplyOp, Incidents.OpKey, O.Ready, Active;
    if ops != [] {
      var front, op := ops[..|ops| - 1], ops[|ops| - 1];
      assert ops[|ops| - 1] == op && !(Incidents.OpKey(op) == key);
      assert forall i | 0 <= i < |front| :: front[i] == ops[i];
      UntouchedStand(incidents, front, now, later, key);
      var middle := Incidents.ApplyOps(incidents, front, now, later).0;
      OpEffect(middle, op, now, later, key);
      O.OneOp(middle, op, now, later, None);
      Frame(middle, Incidents.ApplyOp(middle, op, now, later).0, Incidents.OpKey(op), key, |incidents|);
    }
  }

  lemma Frame(middle: seq<Row>, after: seq<Row>, opKey: string, key: string, n: nat)
    requires O.Advanced(middle, after) && opKey != key && n <= |middle|
    requires forall i | 0 <= i < |middle| && middle[i].fingerprint != opKey :: after[i] == middle[i]
    ensures n <= |after| && (forall i | 0 <= i < n && middle[i].fingerprint == key :: after[i] == middle[i])
    ensures forall i | 0 <= i < n :: after[i].fingerprint == middle[i].fingerprint
  {
  }

  /** The one active row of a key. */
  lemma ActiveRow(incidents: seq<Row>, key: string, i: nat)
    requires TableInv(incidents) && i < |incidents| && incidents[i].activeKey == Some(key)
    ensures Incidents.ActiveAt(incidents, key) == Some(i) && incidents[i].fingerprint == key
  {
    hide Fingerprint, Incidents.ActiveAt;
    assert RowInv(incidents[i]);
    var at := Incidents.ActiveAt(incidents, key);
    assert at.Some?;
    assert incidents[at.value].activeKey == incidents[i].activeKey;
  }

  /** A row whose key no op touches is not announced by them. */
  lemma {:induction false} UntouchedIsSilent(incidents: seq<Row>, ops: seq<Incidents.Op>, now: Time, later: Time, i: nat)
    requires TableInv(incidents) && P.DistinctKeys(ops) && i < |incidents| && !O.Touches(ops, incidents[i].fingerprint)
    ensures !O.Mentioned(Incidents.ApplyOps(incidents, ops, now, later).1, i)
  {
    hide TableInv, Incidents.ApplyOps, O.Ready, O.Apart, Incidents.OpKey;
    O.OpsOutcomeHolds(incidents, ops, now, later, None);
  }

  lemma Parts(ops: seq<Incidents.Op>, k: nat)
    requires P.DistinctKeys(ops) && k < |ops|
    ensures ops == ops[..k] + ([ops[k]] + ops[k + 1..])
    ensures P.DistinctKeys(ops[..k]) && P.DistinctKeys(ops[k + 1..])
    ensures !O.Touches(ops[..k], Incidents.OpKey(ops[k])) && !O.Touches(ops[k + 1..], Incidents.OpKey(ops[k]))
  {
    hide Incidents.OpKey;
    var back := ops[k + 1..];
    assert forall j | 0 <= j < |back| :: back[j] == ops[k + 1 + j];
  }

  lemma MentionedInParts(a: seq<Incidents.Transition>, b: seq<Incidents.Transition>, i: nat)
    ensures O.Mentioned(a + b, i) <==> O.Mentioned(a, i) || O.Mentioned(b, i)
  {
    if O.Mentioned(a, i) {
      var j :| 0 <= j < |a| && a[j].shouldNotify && a[j].incident == i;
      assert (a + b)[j] == a[j];
    }
    if O.Mentioned(b, i) {
      var j :| 0 <= j < |b| && b[j].shouldNotify && b[j].incident == i;
      assert (a + b)[|a| + j] == b[j];
    }
  }

  /** What the k-th op, a report, announces: a new incident always, an active one exactly when it rested long enough. */
  lemma {:induction false} ReportAnnounces(incidents: seq<Row>, ops: seq<Incidents.Op>, now: Time, later: Time, k: nat)
    requires TableInv(incidents) && P.DistinctKeys(ops) && k < |ops| && ops[k].Report?
    ensures var (after, ts) := Incidents.ApplyOps(incidents, ops, now, later);
            var key := Incidents.OpKey(ops[k]);
            match Incidents.ActiveAt(incidents, key)
            case None => exists i: nat :: NewlyAnnounced(incidents, after, ts, key, i)
            case Some(i) =>
              O.Mentioned(ts, i) <==> Rested(incidents[i].lastNotification, ops[k].source.cooldown, later)
  {
    hide TableInv, Incidents.OpKey, Incidents.ActiveAt, Incidents.ApplyOps, O.Mentioned, Incidents.ApplyOp;
    var op, key := ops[k], Incidents.OpKey(ops[k]);
    var front, back := ops[..k], ops[k + 1..];
    Parts(ops, k);
    Incidents.OpsConcat(incidents, front, [op] + back, now, later);
    UntouchedStand(incidents, front, now, later, key);
    var (m, us) := Incidents.ApplyOps(incidents, front, now, later);
    Incidents.OpsConcat(m, [op], back, now, later);
    Incidents.SingleOp(m, op, now, later);
    var (n, t) := Incidents.ApplyOp(m, op, now, later);
    OpEffect(m, op, now, later, key);
    UntouchedStand(n, back, now, later, key);
    var (after, vs) := Incidents.ApplyOps(n, back, now, later);
    var mine := if t.Some? then [t.value] else [];
    assert Incidents.ApplyOps(incidents, ops, now, later).0 == after;
    assert Incidents.ApplyOps(incidents, ops, now, later).1 == us + (mine + vs);
    var at := Incidents.ActiveAt(incidents, key);
    if at.Some? {
      var i := at.value;
      StillActive(incidents, m, key, i);
      OneReport(m, op, now, later, i);
      UntouchedIsSilent(incidents, front, now, later, i);
      UntouchedIsSilent(n, back, now, later, i);
      MentionedInParts(us, mine + vs, i);
      MentionedInParts(mine, vs, i);
    } else {
      NoneActive(incidents, m, key);
      FirstReport(m, op, now, later);
      var i := |m|;
      MentionedInParts(us, mine + vs, i);
      MentionedInParts(mine, vs, i);
      assert NewlyAnnounced(incidents, after, us + (mine + vs), key, i);
    }
  }

  ghost predicate NewlyAnnounced(before: seq<Row>, after: seq<Row>, ts: seq<Incidents.Transition>, key: string, i: nat) {
    |before| <= i < |after| && after[i].fingerprint == key && O.Mentioned(ts, i)
  }

  lemma StillActive(incidents: seq<Row>, m: seq<Row>, key: string, i: nat)
    requires TableInv(incidents) && TableInv(m) && Incidents.ActiveAt(incidents, key) == Some(i) && |incidents| <= |m|
    requires forall j | 0 <= j < |incidents| && incidents[j].fingerprint == key :: m[j] == incidents[j]
    ensures i < |incidents| && m[i] == incidents[i] && incidents[i].fingerprint == key
    ensures Incidents.ActiveAt(m, key) == Some(i)
  {
    hide Incidents.ActiveAt;
    ActiveRow(incidents, key, i);
    ActiveRow(m, key, i);
  }

  lemma NoneActive(incidents: seq<Row>, m: seq<Row>, key: string)
    requires Incidents.ActiveAt(incidents, key).None? && Active(m, key) == Active(incidents, key)
    ensures Incidents.ActiveAt(m, key).None?
  {
  }

  lemma OneReport(m: seq<Row>, op: Incidents.Op, now: Time, later: Time, i: nat)
    requires op.Report? && Incidents.ActiveAt(m, Incidents.OpKey(op)) == Some(i)
    ensures |Incidents.ApplyOp(m, op, now, later).0| == |m|
    ensures Incidents.ApplyOp(m, op, now, later).0[i].fingerprint == m[i].fingerprint
    ensures Incidents.ApplyOp(m, op, now, later).1.Some?
    ensures O.Mentioned([Incidents.ApplyOp(m, op, now, later).1.value], i)
       <==> Rested(m[i].lastNotification, op.source.cooldown, later)
  {
    SingleMention(Incidents.ApplyOp(m, op, now, later).1.value, i);
  }

  lemma SingleMention(t: Incidents.Transition, i: nat)
    ensures O.Mentioned([t], i) <==> t.shouldNotify && t.incident == i
  {
    assert [t][0] == t;
  }

  lemma FirstReport(m: seq<Row>, op: Incidents.Op, now: Time, later: Time)
    requires op.Report? && Incidents.ActiveAt(m, Incidents.OpKey(op)).None?
    ensures var (n, t) := Incidents.ApplyOp(m, op, now, later);
            && |n| == |m| + 1 && n[|m|].fingerprint == Incidents.OpKey(op) && t.Some? && O.Mentioned([t.value], |m|)
  {
    hide Incidents.ActiveAt;
    var t := Incidents.ApplyOp(m, op, now, later).1;
    assert [t.value][0] == t.value;
  }

  // ---------- the exact cadence ----------

  /** The transaction commits. */
  ghost predicate Commits(s: P.System, a: P.Action) {
    && a.IncidentTransaction?
    && var (after, ts) := Incidents.ApplyOps(s.incidents, a.ops, a.now, a.later);
       IN.EnqueueRequests(IN.Queued(after, s.tables.outbox), ts, a.channels).Ok?
  }

  lemma CommitsReport(s: P.System, a: P.Action)
    requires Commits(s, a)
    ensures a.IncidentTransaction?
  {
  }

  /** A notice about the incident is among those added. */
  ghost predicate Added(before: seq<Notice>, after: seq<Notice>, incident: nat) {
    exists k | |before| <= k < |after| :: after[k].incident == incident
  }

  lemma {:induction false} NoticesMention(incidents: seq<Row>, ts: seq<Incidents.Transition>, i: nat)
    requires IN.InRange(ts, |incidents|)
    ensures (exists n | n in P.NoticesOf(incidents, ts) :: n.incident == i) <==> O.Mentioned(ts, i)
  {
    if ts != [] {
      var front, t := ts[..|ts| - 1], ts[|ts| - 1];
      assert ts == front + [t];
      NoticesMention(incidents, front, i);
      O.MentionGrows(front, t);
      if t.shouldNotify {
        var n := P.Notice(t.incident, incidents[t.incident].occurrence, incidents[t.incident].lastSeen);
        assert P.NoticesOf(incidents, ts) == P.NoticesOf(incidents, front) + [n];
      }
    }
  }

  lemma AddedIsMentioned(due: seq<Notice>, notices: seq<Notice>, i: nat)
    ensures Added(due, due + notices, i) <==> exists n | n in notices :: n.incident == i
  {
    if n :| n in notices && n.incident == i {
      var j :| 0 <= j < |notices| && notices[j] == n;
      assert (due + notices)[|due| + j] == n;
    }
  }

  /** What a committed transaction adds to the history. */
  lemma {:induction false} CommitAdds(s: P.System, a: P.Action, i: nat)
    requires Commits(s, a)
    ensures var s' := P.Apply(s, a); var (after, ts) := Incidents.ApplyOps(s.incidents, a.ops, a.now, a.later);
            && Added(s.due, s'.due, i) == O.Mentioned(ts, i)
            && |s'.incidents| == |after| && forall j | 0 <= j < |after| :: s'.incidents[j].fingerprint == after[j].fingerprint
  {
    hide Incidents.ApplyOps, IN.EnqueueEach, P.NoticesOf, Added, O.Mentioned;
    var (after, ts) := Incidents.ApplyOps(s.incidents, a.ops, a.now, a.later);
    O.EnqueueStamps(IN.Queued(after, s.tables.outbox), ts, a.channels);
    NoticesMention(after, ts, i);
    AddedIsMentioned(s.due, P.NoticesOf(after, ts), i);
  }

  /** Main result: in every run a committed report of an active incident is announced exactly when the incident was never
      announced or its last notice is at least the cooldown old by the transaction's second clock reading; a report that
      opens an incident is always announced. */
  lemma {:induction false} AnnouncedExactlyAfterCooldown(actions: seq<P.Action>, a: P.Action, k: nat)
    requires P.Feasible(actions + [a]) && Commits(P.Run(actions), a) && k < |a.ops| && a.ops[k].Report?
    ensures var s, s' := P.Run(actions), P.Run(actions + [a]);
            var key := Incidents.OpKey(a.ops[k]);
            match Incidents.ActiveAt(s.incidents, key)
            case Some(i) =>
              Added(s.due, s'.due, i) <==> Rested(LastStamp(s.due, i), a.ops[k].source.cooldown, a.later)
            case None =>
              exists i: nat :: |s.incidents| <= i < |s'.incidents| && s'.incidents[i].fingerprint == key && Added(s.due, s'.due, i)
  {
    hide P.Run, P.Apply, P.Feasible, Incidents.ApplyOps, Incidents.ActiveAt, Incidents.OpKey, TableInv, Commits, Added, O.Mentioned;
    var s := P.Run(actions);
    LastAction(actions, a);
    CommitsReport(s, a);
    AlwaysRemembers(actions);
    ReportAnnounces(s.incidents, a.ops, a.now, a.later, k);
    var (after, ts) := Incidents.ApplyOps(s.incidents, a.ops, a.now, a.later);
    var at := Incidents.ActiveAt(s.incidents, Incidents.OpKey(a.ops[k]));
    if at.Some? {
      CommitAdds(s, a, at.value);
    } else {
      var i: nat :| NewlyAnnounced(s.incidents, after, ts, Incidents.OpKey(a.ops[k]), i);
      CommitAdds(s, a, i);
      assert |s.incidents| <= i < |P.Apply(s, a).incidents| && Added(s.due, P.Apply(s, a).due, i);
    }
  }

  lemma LastAction(actions: seq<P.Action>, a: P.Action)
    requires P.Feasible(actions + [a])
    ensures P.Feasible(actions) && P.Enabled(P.Run(actions), a) && P.Run(actions + [a]) == P.Apply(P.Run(actions), a)
    ensures a.IncidentTransaction? ==> P.DistinctKeys(a.ops)
  {
    hide P.Apply;
    assert (actions + [a])[..|actions|] == actions;
  }

  /** Where notices of one incident come in the order of their stamps, the last one decides for all. */
  lemma {:induction false} LastIsLatest(due: seq<Notice>, i: nat, bound: Time)
    requires forall a, b | 0 <= a < b < |due| && due[a].incident == due[b].incident == i :: due[a].stamp <= due[b].stamp
    ensures Rested(LastStamp(due, i), 0, bound) <==> forall n | n in due && n.incident == i :: n.stamp <= bound
  {
    if due != [] {
      var front, last := due[..|due| - 1], due[|due| - 1];
      assert due == front + [last];
      if last.incident == i {
        forall n | n in front && n.incident == i ensures n.stamp <= last.stamp {
          var a :| 0 <= a < |front| && front[a] == n;
          assert due[a] == n && due[|front|] == last;
        }
      } else {
        LastIsLatest(front, i, bound);
      }
    }
  }

  /** Main result: when no step's two clock readings lie further apart than the cooldown, an active incident is announced
      again exactly when no earlier notice of it is younger than the cooldown. */
  lemma {:induction false} AnnouncedIffNoYoungerNotice(actions: seq<P.Action>, a: P.Action, k: nat, i: nat)
    requires P.Feasible(actions + [a]) && Commits(P.Run(actions), a) && k < |a.ops| && a.ops[k].Report?
    requires O.PacedRun(actions, Some(0))
    requires Incidents.ActiveAt(P.Run(actions).incidents, Incidents.OpKey(a.ops[k])) == Some(i)
    ensures Added(P.Run(actions).due, P.Run(actions + [a]).due, i)
       <==> forall n | n in P.Run(actions).due && n.incident == i :: n.stamp <= a.later - a.ops[k].source.cooldown
  {
    hide P.Run, P.Feasible, Commits, Added, O.PacedRun, Incidents.ActiveAt, Incidents.OpKey, LastStamp;
    LastAction(actions, a);
    CommitsReport(P.Run(actions), a);
    AnnouncedExactlyAfterCooldown(actions, a, k);
    O.NotificationsKeepTheirDistance(actions, 0);
    LastIsLatest(P.Run(actions).due, i, a.later - a.ops[k].source.cooldown);
  }
}
