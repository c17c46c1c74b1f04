/** The version chain of accepted baselines, and the one response each responding drift event gets. */
module ContractChain {
  import opened Wrappers
  import Incidents
  import IncidentNotifications
  import NotificationTables
  import Keys
  import Flattening
  import opened ContractDiff
  import opened CandidateRuns
  import opened ContractBaselines
  import opened ContractHistory

  // ---------- the chain ----------

  datatype Link = Link(id: nat, version: nat, active: bool, activeKey: Option<string>, promotedFrom: Option<nat>)

  function LinkOf(row: Baseline): Link {
    Link(row.id, row.version, row.active, row.activeKey, row.promotedFrom)
  }

  /** The baselines of one source, oldest first. */
  function Links(rows: seq<Baseline>, s: nat): seq<Link> {
    if rows == [] then []
    else
      var last := rows[|rows| - 1];
      Links(rows[..|rows| - 1], s) + if last.sourceId == s then [LinkOf(last)] else []
  }

  /** Versions count up from one, only the newest is active and holds the unique key, each names its predecessor. */
  ghost predicate Chain(links: seq<Link>, s: nat) {
    forall k | 0 <= k < |links| ::
      && links[k].version == k + 1
      && (links[k].active <==> k == |links| - 1)
      && links[k].activeKey == (if k == |links| - 1 then Some(BaselineKey(s)) else None)
      && links[k].promotedFrom == (if k == 0 then None else Some(links[k - 1].id))
  }

  ghost predicate RowsNumbered(rows: seq<Baseline>) {
    forall i | 0 <= i < |rows| :: rows[i].id == i + 1
  }

  lemma LinksAppend(rows: seq<Baseline>, r: Baseline, s: nat)
    ensures Links(rows + [r], s) == Links(rows, s) + if r.sourceId == s then [LinkOf(r)] else []
  {
    assert (rows + [r])[..|rows|] == rows;
  }

  lemma {:induction false} LinksSame(rows: seq<Baseline>, at: nat, r: Baseline, s: nat)
    requires at < |rows| && r.sourceId == rows[at].sourceId
    requires LinkOf(r) == LinkOf(rows[at]) || r.sourceId != s
    ensures Links(rows[at := r], s) == Links(rows, s)
  {
    var front := rows[..|rows| - 1];
    if at < |front| {
      LinksSame(front, at, r, s);
      assert rows[at := r][..|rows| - 1] == front[at := r];
    } else {
      assert rows[at := r][..|rows| - 1] == front;
    }
  }

  lemma {:induction false} IsLinked(rows: seq<Baseline>, at: nat, s: nat)
    requires at < |rows| && rows[at].sourceId == s
    ensures LinkOf(rows[at]) in Links(rows, s)
  {
    if at < |rows| - 1 { IsLinked(rows[..|rows| - 1], at, s); }
  }

  lemma {:induction false} NotLinked(rows: seq<Baseline>, s: nat)
    requires forall i | 0 <= i < |rows| :: rows[i].sourceId != s || !rows[i].active
    ensures forall l | l in Links(rows, s) :: !l.active
  {
    if rows != [] { NotLinked(rows[..|rows| - 1], s); }
  }

  ghost predicate NewestActive(links: seq<Link>) {
    forall k | 0 <= k < |links| :: links[k].active <==> k == |links| - 1
  }

  /** Updating the active row changes the newest link only. */
  lemma {:induction false} LinksNewest(rows: seq<Baseline>, at: nat, r: Baseline, s: nat)
    requires at < |rows| && rows[at].sourceId == s == r.sourceId && rows[at].active
    requires NewestActive(Links(rows, s))
    ensures Links(rows, s) != [] && Links(rows, s)[|Links(rows, s)| - 1] == LinkOf(rows[at])
    ensures Links(rows[at := r], s) == Links(rows, s)[..|Links(rows, s)| - 1] + [LinkOf(r)]
  {
    var front, last := rows[..|rows| - 1], rows[|rows| - 1];
    if at == |rows| - 1 {
      assert rows[at := r][..|rows| - 1] == front;
    } else {
      IsLinked(front, at, s);
      var k :| 0 <= k < |Links(front, s)| && Links(front, s)[k] == LinkOf(rows[at]);
      assert Links(rows, s)[k].active;
      assert last.sourceId != s;
      assert Links(rows, s) == Links(front, s);
      LinksNewest(front, at, r, s);
      assert rows[at := r][..|rows| - 1] == front[at := r];
    }
  }

  lemma PromoteKeepsChain(db: Db, c: Command, s: nat)
    requires c.AcceptCandidate? && Accept(db, c.sourceId, c.requested, c.actor, c.now).Ok?
    requires Chain(Links(db.baselines, s), s) && RowsNumbered(db.baselines)
    ensures Chain(Links(Step(db, c).baselines, s), s) && RowsNumbered(Step(db, c).baselines)
  {
    hide Step, Accept, Links, BaselineKey;
    AcceptWrites(db, c);
    var at := ActiveBaseline(db.baselines, c.sourceId).value;
    var row := db.baselines[at];
    var retired := Superseded(row, c.now);
    var middle := db.baselines[at := retired];
    var promoted := Promoted(|db.baselines| + 1, row, row.candidateSnapshot.value, c.actor, c.now);
    LinksAppend(middle, promoted, s);
    if c.sourceId == s {
      LinksNewest(db.baselines, at, retired, s);
    } else {
      LinksSame(db.baselines, at, retired, s);
      assert Links(middle + [promoted], s) == Links(db.baselines, s);
    }
  }

  lemma NewestInChain(links: seq<Link>, s: nat)
    requires Chain(links, s)
    ensures links == [] || exists l | l in links :: l.active
  {
    if links != [] { assert links[|links| - 1] in links; }
  }

  lemma {:induction false} CommitKeepsChain(db: Db, c: Command, s: nat)
    requires Commits(db, c) && AllAnchored(db.baselines, db.snapshots)
    requires Chain(Links(db.baselines, s), s) && RowsNumbered(db.baselines)
    ensures Chain(Links(Step(db, c).baselines, s), s) && RowsNumbered(Step(db, c).baselines)
  {
    hide Poll, Links, BaselineKey, Flattening.Flat, DiffContract, CompatibilityScore, EventFor, NextRow, Confirms;
    var source := c.source.value;
    var at := ActiveBaseline(db.baselines, source.id);
    if at.Some? {
      assert Anchored(db.baselines[at.value], db.snapshots);
      PollWrites(db, at.value, source, c.payload, c.clock, c.delivery);
      var diff := Judged(db, at.value, c.payload);
      var structure := Flattening.Flat(c.payload, "");
      NextRowKeeps(db.baselines[at.value], diff, |db.snapshots| + 1, structure, c.clock.seen, |db.events| + 1);
      LinksSame(db.baselines, at.value,
                NextRow(db.baselines[at.value], diff, |db.snapshots| + 1, structure, c.clock.seen, |db.events| + 1), s);
    } else {
      var first := FirstBaseline(|db.baselines| + 1, source, |db.snapshots| + 1, c.clock.seen);
      FirstPollWrites(db, source, c.payload, c.clock, c.delivery);
      LinksAppend(db.baselines, first, s);
      if source.id == s {
        NewestInChain(Links(db.baselines, s), s);
        NotLinked(db.baselines, s);
        assert Links(db.baselines, s) == [];
      } else {
        assert Links(db.baselines + [first], s) == Links(db.baselines, s);
      }
    }
  }

  lemma InvAnchors(db: Db, s: nat, rs: seq<Reading>)
    requires Inv(db, s, rs)
    ensures AllAnchored(db.baselines, db.snapshots)
  {
  }

  lemma QuietBaselines(db: Db, c: Command)
    requires !Commits(db, c)
    requires c.AcceptCandidate? ==> Accept(db, c.sourceId, c.requested, c.actor, c.now).Err?
    ensures Step(db, c).baselines == db.baselines
  {
    hide Poll, Accept;
  }

  /** In every history the baselines of a source are versions 1..n, exactly the last active, each linked to the one before. */
  lemma {:induction false} VersionsFormAChain(cs: seq<Command>, s: nat)
    ensures Chain(Links(Run(cs).baselines, s), s) && RowsNumbered(Run(cs).baselines)
  {
    if cs == [] {
      assert Links([], s) == [];
    } else {
      hide Commits, Accept, Chain, Inv, RowsNumbered, Links;
      var front, c := cs[..|cs| - 1], cs[|cs| - 1];
      VersionsFormAChain(front, s);
      if c.AcceptCandidate? && Accept(Run(front), c.sourceId, c.requested, c.actor, c.now).Ok? {
        PromoteKeepsChain(Run(front), c, s);
      } else if Commits(Run(front), c) {
        HistoryKeeps(front, s);
        InvAnchors(Run(front), s, Readings(front, s));
        CommitKeepsChain(Run(front), c, s);
      } else {
        QuietBaselines(Run(front), c);
      }
    }
  }

  // ---------- responses ----------

  /** One observation and one agent run for each event that needs a response, in order, and none besides. */
  ghost predicate Answered(events: seq<DriftEvent>, observations: seq<Observation>, agentRuns: seq<AgentRun>) {
    && (forall k | 0 <= k < |observations| ::
          var o := observations[k];
          && 0 < o.driftEvent <= |events| && Responds(events[o.driftEvent - 1])
          && o.sourceId == events[o.driftEvent - 1].sourceId && o.severity == events[o.driftEvent - 1].severity)
    && (forall j, k | 0 <= j < k < |observations| :: observations[j].driftEvent < observations[k].driftEvent)
    && (forall i | 0 <= i < |events| && Responds(events[i]) :: HasObservation(observations, i + 1))
    && |agentRuns| == |observations|
    && forall k | 0 <= k < |agentRuns| :: agentRuns[k].observationId == k + 1
  }

  ghost predicate HasObservation(observations: seq<Observation>, event: nat) {
    exists k | 0 <= k < |observations| :: observations[k].driftEvent == event
  }

  lemma AnsweredUnanswerable(events: seq<DriftEvent>, observations: seq<Observation>, agentRuns: seq<AgentRun>, e: DriftEvent)
    requires Answered(events, observations, agentRuns) && !Responds(e)
    ensures Answered(events + [e], observations, agentRuns)
  {
    hide Responds;
  }

  lemma AnsweredNext(events: seq<DriftEvent>, observations: seq<Observation>, agentRuns: seq<AgentRun>, e: DriftEvent,
                     tenant: Option<nat>)
    requires Answered(events, observations, agentRuns) && Responds(e)
    ensures Answered(events + [e], observations + [Observation(e.sourceId, tenant, |events| + 1, e.severity)],
                     agentRuns + [AgentRun(|observations| + 1)])
  {
    hide Responds;
    var more := observations + [Observation(e.sourceId, tenant, |events| + 1, e.severity)];
    forall i | 0 <= i < |events + [e]| && Responds((events + [e])[i]) ensures HasObservation(more, i + 1) {
      if i < |events| {
        assert Responds(events[i]) && HasObservation(observations, i + 1);
        var k :| 0 <= k < |observations| && observations[k].driftEvent == i + 1;
        assert more[k].driftEvent == i + 1;
      } else {
        assert more[|observations|].driftEvent == i + 1;
      }
    }
  }

  /** What a committed poll does about the event it raised, if any. */
  ghost predicate RespondedOnce(before: Db, c: Command, after: Db)
    requires c.PollSource? && c.source.Some?
  {
    if |after.events| > |before.events| && Responds(after.events[|before.events|]) then
      var e, source := after.events[|before.events|], c.source.value;
      var (incidents, t) := Incidents.ApplyOp(before.incidents, DriftReport(source, e), c.clock.reported, c.clock.checked);
      var queued := IncidentNotifications.Queued(incidents, before.outbox);
      && t.Some? && IncidentNotifications.InRange([t.value], |incidents|)
      && after.observations == before.observations + [Observation(e.sourceId, source.tenantId, |before.events| + 1, e.severity)]
      && after.agentRuns == before.agentRuns + [AgentRun(|before.observations| + 1)]
      && Ok(IncidentNotifications.Queued(after.incidents, after.outbox)) ==
         (if c.delivery.brokerMode then IncidentNotifications.EnqueueRequests(queued, [t.value], c.delivery.channels)
          else Ok(queued))
    else
      && after.observations == before.observations && after.agentRuns == before.agentRuns
      && after.incidents == before.incidents && after.outbox == before.outbox
  }

  /** A responding event brings exactly one incident transition, observation and agent run in its own transaction;
      any other poll touches none of these tables. */
  lemma {:induction false} PollRespondsOnce(db: Db, c: Command)
    requires Commits(db, c) && AllAnchored(db.baselines, db.snapshots)
    ensures RespondedOnce(db, c, Step(db, c))
    ensures Step(db, c).events == db.events
         || (|Step(db, c).events| == |db.events| + 1 && Step(db, c).events[..|db.events|] == db.events
             && Step(db, c).events[|db.events|].sourceId == c.source.value.id)
  {
    hide Flattening.Flat, DiffContract, CompatibilityScore, EventFor, NextRow, Confirms, Responds, DriftReport,
         Incidents.ApplyOp, IncidentNotifications.EnqueueEach, Raise;
    var source := c.source.value;
    var at := ActiveBaseline(db.baselines, source.id);
    if at.Some? {
      assert Anchored(db.baselines[at.value], db.snapshots);
      var (polled, transitions) := PollAgainst(db, at.value, source, c.payload, c.clock);
      ComparedRespondsOnce(db, at.value, c);
      EnqueueKeeps(polled, transitions, c.delivery);
      NothingEnqueued(IncidentNotifications.Queued(polled.incidents, polled.outbox), c);
    } else {
      FirstPollWrites(db, source, c.payload, c.clock, c.delivery);
    }
  }

  /** The same before the enqueue. */
  lemma {:induction false} ComparedRespondsOnce(db: Db, at: nat, c: Command)
    requires c.PollSource? && c.source.Some?
    requires at < |db.baselines| && 0 < db.baselines[at].snapshotId <= |db.snapshots|
    ensures var source := c.source.value;
            var (polled, ts) := PollAgainst(db, at, source, c.payload, c.clock);
            && polled.outbox == db.outbox
            && (polled.events == db.events
                || (|polled.events| == |db.events| + 1 && polled.events[..|db.events|] == db.events
                    && polled.events[|db.events|].sourceId == source.id))
            && (if |polled.events| > |db.events| && Responds(polled.events[|db.events|]) then
                  var e := polled.events[|db.events|];
                  var (incidents, t) := Incidents.ApplyOp(db.incidents, DriftReport(source, e), c.clock.reported, c.clock.checked);
                  && t.Some? && ts == [t.value] && polled.incidents == incidents
                  && polled.observations == db.observations + [Observation(e.sourceId, source.tenantId, |db.events| + 1, e.severity)]
                  && polled.agentRuns == db.agentRuns + [AgentRun(|db.observations| + 1)]
                else
                  && ts == [] && polled.incidents == db.incidents
                  && polled.observations == db.observations && polled.agentRuns == db.agentRuns)
  {
    hide Flattening.Flat, DiffContract, CompatibilityScore, EventFor, NextRow, Confirms, Responds;
    var row, id, structure := db.baselines[at], |db.snapshots| + 1, Flattening.Flat(c.payload, "");
    var diff := Judged(db, at, c.payload);
    EventNames(c.source.value.id, row.snapshotId, id, diff);
  }

  lemma NothingEnqueued(q: IncidentNotifications.Queued, c: Command)
    requires c.PollSource?
    ensures IncidentNotifications.EnqueueEach(q, [], c.delivery.channels) == Ok(q)
  {
  }

  lemma CommitsPolls(db: Db, c: Command)
    requires Commits(db, c)
    ensures c.PollSource? && c.source.Some?
  {
    hide Poll;
  }

  lemma {:induction false} CommitKeepsAnswers(db: Db, c: Command)
    requires Commits(db, c) && AllAnchored(db.baselines, db.snapshots)
    requires Answered(db.events, db.observations, db.agentRuns)
    ensures Answered(Step(db, c).events, Step(db, c).observations, Step(db, c).agentRuns)
  {
    hide Step, Commits, Answered, AllAnchored, RespondedOnce;
    CommitsPolls(db, c);
    PollRespondsOnce(db, c);
    RespondedKeepsAnswers(db, c, Step(db, c));
  }

  lemma {:induction false} RespondedKeepsAnswers(db: Db, c: Command, after: Db)
    requires c.PollSource? && c.source.Some? && RespondedOnce(db, c, after)
    requires Answered(db.events, db.observations, db.agentRuns)
    requires after.events == db.events
          || (|after.events| == |db.events| + 1 && after.events[..|db.events|] == db.events)
    ensures Answered(after.events, after.observations, after.agentRuns)
  {
    hide Responds, Answered, Incidents.ApplyOp, IncidentNotifications.EnqueueRequests, DriftReport;
    if after.events != db.events {
      var e := after.events[|db.events|];
      assert after.events == db.events + [e];
      if Responds(e) {
        AnsweredNext(db.events, db.observations, db.agentRuns, e, c.source.value.tenantId);
      } else {
        AnsweredUnanswerable(db.events, db.observations, db.agentRuns, e);
      }
    }
  }

  /** In every history each responding drift event has exactly one observation with one agent run. */
  lemma {:induction false} EachResponseOnce(cs: seq<Command>)
    ensures Answered(Run(cs).events, Run(cs).observations, Run(cs).agentRuns)
  {
    if cs != [] {
      hide Commits, Accept, Answered, Inv, AllAnchored;
      var front, c := cs[..|cs| - 1], cs[|cs| - 1];
      EachResponseOnce(front);
      if Commits(Run(front), c) {
        HistoryKeeps(front, 0);
        InvAnchors(Run(front), 0, Readings(front, 0));
        CommitKeepsAnswers(Run(front), c);
      } else {
        QuietStep(Run(front), c);
      }
    }
  }

  lemma QuietStep(db: Db, c: Command)
    requires !Commits(db, c)
    ensures Step(db, c).events == db.events && Step(db, c).observations == db.observations
    ensures Step(db, c).agentRuns == db.agentRuns
  {
    hide Poll;
  }

  // ---------- grades ----------

  /** In every history every event, and the snapshot it was raised for, carries the grade of its own diff. */
  lemma EventsAreGraded(cs: seq<Command>, e: DriftEvent)
    requires e in Run(cs).events
    ensures Points(e.diff) > 0 && Graded(e.diff, e.event, e.severity, e.score)
  {
    hide Run, Flattening.Flat, DiffContract, Points, Graded, CompatibilityScore;
    EventsAreSound(cs, e);
    GradeIsExact(e.diff);
  }

  /** And so does every observation, by its event's points. */
  lemma ObservationsAreGraded(cs: seq<Command>, k: nat)
    requires k < |Run(cs).observations|
    ensures var db, o := Run(cs), Run(cs).observations[k];
            && 0 < o.driftEvent <= |db.events|
            && Graded(db.events[o.driftEvent - 1].diff, db.events[o.driftEvent - 1].event, o.severity, db.events[o.driftEvent - 1].score)
  {
    hide Run, Responds, Graded;
    EachResponseOnce(cs);
    var o := Run(cs).observations[k];
    EventsAreGraded(cs, Run(cs).events[o.driftEvent - 1]);
  }

  /** The severity text of an incident, by the points of the diff behind it. */
  ghost predicate SeverityText(points: nat, text: string) {
    if points <= 10 then text == "low"
    else if points <= 25 then text == "medium"
    else if points <= 50 then text == "high"
    else text == "critical"
  }

  lemma TextOfGrade(d: Diff, event: EventType, severity: Severity, score: int)
    requires Points(d) > 0 && Graded(d, event, severity, score)
    ensures SeverityText(Points(d), SeverityName(severity))
  {
  }

  /** An incident the poll reported: its row says how severe the drift was, and carries the event's summary. */
  ghost predicate ReportedAs(incidents: seq<Incidents.Incident>, i: nat, key: string, points: nat, summary: string) {
    i < |incidents| && incidents[i].activeKey == Some(key) && SeverityText(points, incidents[i].severity)
    && incidents[i].summary == summary
  }

  lemma ReportGrades(before: seq<Incidents.Incident>, source: Incidents.Source, e: DriftEvent, reported: Time, checked: Time)
    requires SeverityText(Points(e.diff), SeverityName(e.severity))
    ensures var (after, t) := Incidents.ApplyOp(before, DriftReport(source, e), reported, checked);
            t.Some? && ReportedAs(after, t.value.incident, Incidents.KeyOf(source, Keys.Drift), Points(e.diff), e.summary)
  {
    hide SeverityText, Points, SeverityName, Incidents.KeyOf;
  }

  lemma EnqueueKeepsReports(q: IncidentNotifications.Queued, ts: seq<Incidents.Transition>, c: Command, i: nat, key: string,
                            points: nat, summary: string)
    requires c.PollSource? && |ts| == 1 && IncidentNotifications.InRange(ts, |q.incidents|)
    requires ReportedAs(q.incidents, i, key, points, summary)
    ensures var r := IncidentNotifications.EnqueueRequests(q, ts, c.delivery.channels);
            r.Ok? ==> ReportedAs(r.value.incidents, i, key, points, summary)
  {
    hide SeverityText, NotificationTables.AddOutbox, NotificationTables.ValidRequest, IncidentNotifications.RequestFor;
    assert ts[..|ts| - 1] == [];
    assert IncidentNotifications.EnqueueEach(q, [], c.delivery.channels) == Ok(q);
  }

  /** When a poll answers a drift, the source's drift incident carries the severity text of its points afterwards. */
  lemma IncidentsAreGraded(db: Db, c: Command)
    requires Commits(db, c) && AllAnchored(db.baselines, db.snapshots)
    requires |Step(db, c).events| > |db.events| && Responds(Step(db, c).events[|db.events|])
    requires var e := Step(db, c).events[|db.events|]; SeverityText(Points(e.diff), SeverityName(e.severity))
    ensures c.PollSource? && c.source.Some?
    ensures var e := Step(db, c).events[|db.events|];
            exists i :: ReportedAs(Step(db, c).incidents, i, Incidents.KeyOf(c.source.value, Keys.Drift), Points(e.diff), e.summary)
  {
    hide Step, Commits, Responds, AllAnchored, SeverityText, Points, SeverityName, DriftReport, Incidents.ApplyOp, ReportedAs,
      IncidentNotifications.EnqueueRequests;
    CommitsPolls(db, c);
    PollRespondsOnce(db, c);
    var e, source := Step(db, c).events[|db.events|], c.source.value;
    ReportGrades(db.incidents, source, e, c.clock.reported, c.clock.checked);
    var (incidents, t) := Incidents.ApplyOp(db.incidents, DriftReport(source, e), c.clock.reported, c.clock.checked);
    var q := IncidentNotifications.Queued(incidents, db.outbox);
    EnqueueKeepsReports(q, [t.value], c, t.value.incident, Incidents.KeyOf(source, Keys.Drift), Points(e.diff), e.summary);
  }

  /** The same over histories, with the numbers of the event itself. */
  lemma AnsweredIncidentsAreGraded(cs: seq<Command>, c: Command)
    requires Commits(Run(cs), c)
    requires |Run(cs + [c]).events| > |Run(cs).events| && Responds(Run(cs + [c]).events[|Run(cs).events|])
    ensures c.PollSource? && c.source.Some?
    ensures var e := Run(cs + [c]).events[|Run(cs).events|];
            exists i :: ReportedAs(Run(cs + [c]).incidents, i, Incidents.KeyOf(c.source.value, Keys.Drift), Points(e.diff), e.summary)
  {
    hide Run, Step, Commits, Responds, SeverityText, Points, Graded, SeverityName, ReportedAs, AllAnchored, Inv, Incidents.KeyOf;
    OneMore(cs, c, 0);
    var e := Run(cs + [c]).events[|Run(cs).events|];
    HistoryKeeps(cs, 0);
    InvAnchors(Run(cs), 0, Readings(cs, 0));
    EventsAreGraded(cs + [c], e);
    TextOfGrade(e.diff, e.event, e.severity, e.score);
    IncidentsAreGraded(Run(cs), c);
  }
}
