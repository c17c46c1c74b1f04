/** Drift events against every baseline ever accepted, over the readings taken while it was the active one. */
module ContractEras {
  import opened Wrappers
  import Incidents
  import Flattening
  import opened ContractDiff
  import opened CandidateRuns
  import opened ContractBaselines
  import opened ContractHistory

  /** The command is a committed poll against row `at`. */
  predicate PollsRow(db: Db, c: Command, at: nat) {
    Commits(db, c) && ActiveBaseline(db.baselines, c.source.value.id) == Some(at)
    && 0 < db.baselines[at].snapshotId <= |db.snapshots|
  }

  /** The readings one baseline row has taken: the committed polls of its source while it was the active one. */
  function RowReadings(cs: seq<Command>, at: nat): seq<Reading> {
    if cs == [] then []
    else
      var front, c := cs[..|cs| - 1], cs[|cs| - 1];
      var db, rs := Run(front), RowReadings(front, at);
      if PollsRow(db, c, at) then rs + [ReadingOf(db, at, c.payload)] else rs
  }

  // ---------- what one command does to the rows ----------

  /** Nothing changes in the rows; a poll writes the candidate of the active row; a first poll or an acceptance adds an
      active row, the latter retiring the one before. */
  datatype Change = Quiet | Observed(at: nat) | First(source: nat) | Promoted(at: nat)

  function ChangeOf(db: Db, c: Command): Change {
    if Commits(db, c) then
      var at := ActiveBaseline(db.baselines, c.source.value.id);
      if at.Some? then Change.Observed(at.value) else First(c.source.value.id)
    else if c.AcceptCandidate? && Accept(db, c.sourceId, c.requested, c.actor, c.now).Ok? then
      var at := ActiveBaseline(db.baselines, c.sourceId);
      if at.Some? then Change.Promoted(at.value) else Quiet
    else Quiet
  }

  ghost predicate SameRow(a: Baseline, b: Baseline) {
    a.sourceId == b.sourceId && a.active == b.active && a.snapshotId == b.snapshotId
  }

  /** The rows afterwards, as far as activity and accepted snapshots go. */
  ghost predicate Rows(before: seq<Baseline>, after: seq<Baseline>, change: Change) {
    match change
    case Quiet => after == before
    case Observed(at) =>
      |after| == |before| && forall i | 0 <= i < |before| :: SameRow(after[i], before[i])
    case First(source) =>
      && |after| == |before| + 1 && after[..|before|] == before
      && after[|before|].sourceId == source && after[|before|].active
    case Promoted(at) =>
      && at < |before| && |after| == |before| + 1
      && (forall i | 0 <= i < |before| && i != at :: after[i] == before[i])
      && after[at].sourceId == before[at].sourceId && after[at].snapshotId == before[at].snapshotId && !after[at].active
      && after[|before|].sourceId == before[at].sourceId && after[|before|].active
      && after[|before|].snapshotId > before[at].snapshotId
  }

  lemma StepRows(db: Db, c: Command)
    requires AllAnchored(db.baselines, db.snapshots)
    ensures Rows(db.baselines, Step(db, c).baselines, ChangeOf(db, c))
  {
    hide Poll, Accept, Flattening.Flat, DiffContract, EventFor, CompatibilityScore, NextRow, Confirms, BaselineKey, Anchored;
    if Commits(db, c) {
      var source := c.source.value;
      var at := ActiveBaseline(db.baselines, source.id);
      if at.Some? {
        assert Anchored(db.baselines[at.value], db.snapshots);
        AnchoredIds(db.baselines[at.value], db.snapshots);
        PollWrites(db, at.value, source, c.payload, c.clock, c.delivery);
        NextRowKeeps(db.baselines[at.value], Judged(db, at.value, c.payload), |db.snapshots| + 1,
                     Flattening.Flat(c.payload, ""), c.clock.seen, |db.events| + 1);
      } else {
        FirstPollWrites(db, source, c.payload, c.clock, c.delivery);
      }
    } else if c.AcceptCandidate? && Accept(db, c.sourceId, c.requested, c.actor, c.now).Ok? {
      AcceptWrites(db, c);
      var row := db.baselines[ActiveBaseline(db.baselines, c.sourceId).value];
      assert Anchored(row, db.snapshots);
      AnchoredIds(row, db.snapshots);
    }
  }

  /** At most one event, against the active row's snapshot, and only from a poll of its source. */
  lemma StepEvents(db: Db, c: Command)
    requires AllAnchored(db.baselines, db.snapshots)
    ensures var after, change := Step(db, c).events, ChangeOf(db, c);
            after == db.events
            || (change.Observed? && |after| == |db.events| + 1 && after[..|db.events|] == db.events
                && after[|db.events|].sourceId == db.baselines[change.at].sourceId
                && after[|db.events|].previousSnapshot == db.baselines[change.at].snapshotId)
  {
    hide Poll, Accept, Flattening.Flat, DiffContract, EventFor, CompatibilityScore, NextRow, Confirms, BaselineKey, Anchored;
    if Commits(db, c) {
      var source := c.source.value;
      var at := ActiveBaseline(db.baselines, source.id);
      if at.Some? {
        var row := db.baselines[at.value];
        assert Anchored(row, db.snapshots);
        AnchoredIds(row, db.snapshots);
        PollWrites(db, at.value, source, c.payload, c.clock, c.delivery);
        EventNames(source.id, row.snapshotId, |db.snapshots| + 1, Judged(db, at.value, c.payload));
      } else {
        FirstPollWrites(db, source, c.payload, c.clock, c.delivery);
      }
    } else if c.AcceptCandidate? && Accept(db, c.sourceId, c.requested, c.actor, c.now).Ok? {
      AcceptWrites(db, c);
    }
  }

  lemma RunAnchored(cs: seq<Command>)
    ensures AllAnchored(Run(cs).baselines, Run(cs).snapshots)
  {
    hide Run, Readings, AllSound, OneActive, Current, AllAnchored;
    HistoryKeeps(cs, 0);
  }

  // ---------- one active row per source, the others older ----------

  ghost predicate OlderRow(rows: seq<Baseline>, i: nat)
    requires i < |rows|
  {
    var a := ActiveBaseline(rows, rows[i].sourceId);
    a.Some? && (rows[i].active ==> a == Some(i)) && (!rows[i].active ==> rows[i].snapshotId < rows[a.value].snapshotId)
  }

  ghost predicate Older(rows: seq<Baseline>) {
    forall i | 0 <= i < |rows| :: OlderRow(rows, i)
  }

  lemma LookupExtended(before: seq<Baseline>, after: seq<Baseline>, s: nat)
    requires |after| == |before| + 1 && after[..|before|] == before
    ensures ActiveBaseline(after, s) ==
      if ActiveBaseline(before, s).Some? then ActiveBaseline(before, s)
      else if after[|before|].sourceId == s && after[|before|].active then Some(|before|) else None
  {
    assert after == before + [after[|before|]];
    LookupAppend(before, after[|before|], s);
  }

  lemma RowsKeepOlder(before: seq<Baseline>, after: seq<Baseline>, change: Change)
    requires Older(before) && Rows(before, after, change)
    requires change.First? ==> ActiveBaseline(before, change.source).None?
    requires change.Promoted? ==> change.at < |before| && ActiveBaseline(before, before[change.at].sourceId) == Some(change.at)
    ensures Older(after)
  {
    hide OlderRow;
    forall i | 0 <= i < |after| ensures OlderRow(after, i) {
      if i < |before| { assert OlderRow(before, i); }
      match change
      case Quiet =>
      case Observed(at) => ObservedKeepsOlder(before, after, i);
      case First(source) => FirstKeepsOlder(before, after, source, i);
      case Promoted(at) => PromotedKeepsOlder(before, after, at, i);
    }
  }

  lemma ObservedKeepsOlder(before: seq<Baseline>, after: seq<Baseline>, i: nat)
    requires |after| == |before| && (forall j | 0 <= j < |before| :: SameRow(after[j], before[j]))
    requires i < |before| && OlderRow(before, i)
    ensures OlderRow(after, i)
  {
    LookupSame(before, after, after[i].sourceId);
  }

  lemma FirstKeepsOlder(before: seq<Baseline>, after: seq<Baseline>, source: nat, i: nat)
    requires Rows(before, after, First(source)) && ActiveBaseline(before, source).None?
    requires i < |after| && (i < |before| ==> OlderRow(before, i))
    ensures OlderRow(after, i)
  {
    LookupExtended(before, after, after[i].sourceId);
    if i < |before| { assert after[i] == before[i]; }
  }

  lemma PromotedKeepsOlder(before: seq<Baseline>, after: seq<Baseline>, at: nat, i: nat)
    requires Rows(before, after, Change.Promoted(at)) && ActiveBaseline(before, before[at].sourceId) == Some(at)
    requires Older(before)
    requires i < |after|
    ensures OlderRow(after, i)
  {
    var t, s, n := before[at].sourceId, after[i].sourceId, |before|;
    var middle := after[..n];
    LookupExtended(middle, after, s);
    if s == t {
      forall j | 0 <= j < n && before[j].sourceId == t && before[j].active ensures j == at { assert OlderRow(before, j); }
      NobodyLeft(middle, t);
    } else {
      LookupSame(before, middle, s);
    }
    if i < n { assert OlderRow(before, i); }
  }

  lemma {:induction false} NobodyLeft(rows: seq<Baseline>, s: nat)
    requires forall j | 0 <= j < |rows| :: rows[j].sourceId != s || !rows[j].active
    ensures ActiveBaseline(rows, s).None?
  {
    if rows != [] { NobodyLeft(rows[..|rows| - 1], s); }
  }

  lemma {:induction false} AlwaysOlder(cs: seq<Command>)
    ensures Older(Run(cs).baselines)
  {
    if cs != [] {
      hide Older, Step, Rows, AllAnchored, Commits, Accept;
      var front, c := cs[..|cs| - 1], cs[|cs| - 1];
      AlwaysOlder(front);
      RunAnchored(front);
      StepRows(Run(front), c);
      RowsKeepOlder(Run(front).baselines, Run(cs).baselines, ChangeOf(Run(front), c));
    }
  }

  // ---------- readings of one row ----------

  lemma {:induction false} NoReadingsYet(cs: seq<Command>, at: nat)
    requires at >= |Run(cs).baselines|
    ensures RowReadings(cs, at) == []
  {
    if cs != [] {
      hide Commits, Step, ReadingOf, Extends;
      var front, c := cs[..|cs| - 1], cs[|cs| - 1];
      RowsOnlyGrow(front, c);
      NoReadingsYet(front, at);
    }
  }

  lemma RowsOnlyGrow(cs: seq<Command>, c: Command)
    ensures |Run(cs).baselines| <= |Step(Run(cs), c).baselines|
  {
    hide Run, Step;
    StepExtends(cs, c);
  }

  /** The active row has taken exactly its source's readings. */
  lemma {:induction false} ActiveRowReadings(cs: seq<Command>, at: nat)
    requires at < |Run(cs).baselines| && Run(cs).baselines[at].active
    ensures RowReadings(cs, at) == Readings(cs, Run(cs).baselines[at].sourceId)
  {
    if cs != [] {
      hide Step, Rows, ReadingOf, Commits, Accept, Older;
      var front, c := cs[..|cs| - 1], cs[|cs| - 1];
      var db := Run(front);
      RunAnchored(front);
      StepRows(db, c);
      AlwaysOlder(front);
      ActiveStep(db, c, at, Readings(front, Run(cs).baselines[at].sourceId));
      if at < |db.baselines| {
        ActiveRowReadings(front, at);
      } else {
        NoReadingsYet(front, at);
      }
    }
  }

  lemma ActiveStep(db: Db, c: Command, at: nat, rs: seq<Reading>)
    requires AllAnchored(db.baselines, db.snapshots) && Older(db.baselines)
    requires at < |Step(db, c).baselines| && Step(db, c).baselines[at].active
    ensures var row := Step(db, c).baselines[at];
            if at >= |db.baselines| then NextReadings(db, c, row.sourceId, rs) == [] && !PollsRow(db, c, at)
            else
              && db.baselines[at].active && db.baselines[at].sourceId == row.sourceId
              && NextReadings(db, c, row.sourceId, rs)
                 == if PollsRow(db, c, at) then rs + [ReadingOf(db, at, c.payload)] else rs
  {
    hide Step, Commits, Accept, ReadingOf, Anchored;
    StepRows(db, c);
    var s := Step(db, c).baselines[at].sourceId;
    if at < |db.baselines| { assert OlderRow(db.baselines, at); }
    if Commits(db, c) { PollsAnchored(db, c); }
    AcceptedIsNotPolled(db, c);
  }

  lemma AcceptedIsNotPolled(db: Db, c: Command)
    ensures Commits(db, c) ==> c.PollSource? && c.source.Some?
    ensures c.AcceptCandidate? && Accept(db, c.sourceId, c.requested, c.actor, c.now).Ok? ==>
              ActiveBaseline(db.baselines, c.sourceId).Some?
  {
    hide Poll;
  }

  lemma PollsAnchored(db: Db, c: Command)
    requires AllAnchored(db.baselines, db.snapshots) && Commits(db, c)
    ensures var at := ActiveBaseline(db.baselines, c.source.value.id);
            at.Some? ==> 0 < db.baselines[at.value].snapshotId <= |db.snapshots|
  {
    hide Poll, Anchored;
    var at := ActiveBaseline(db.baselines, c.source.value.id);
    if at.Some? {
      assert Anchored(db.baselines[at.value], db.snapshots);
      AnchoredIds(db.baselines[at.value], db.snapshots);
    }
  }

  // ---------- every baseline ever accepted ----------

  /** A row that is not active afterwards gains neither readings nor events. */
  lemma RetiredStep(db: Db, c: Command, at: nat)
    requires AllAnchored(db.baselines, db.snapshots) && Older(db.baselines)
    requires at < |Step(db, c).baselines| && !Step(db, c).baselines[at].active
    ensures at < |db.baselines| && !PollsRow(db, c, at)
    ensures var row, row' := db.baselines[at], Step(db, c).baselines[at];
            row'.sourceId == row.sourceId && row'.snapshotId == row.snapshotId
            && Against(Step(db, c).events, row.sourceId, row.snapshotId) == Against(db.events, row.sourceId, row.snapshotId)
  {
    hide Step, Commits, Accept, Against, Anchored;
    StepRows(db, c);
    StepEvents(db, c);
    assert OlderRow(db.baselines, at);
    var after := Step(db, c).events;
    var row := db.baselines[at];
    if after != db.events {
      assert after == db.events + [after[|db.events|]];
      AgainstAppend(db.events, after[|db.events|], row.sourceId, row.snapshotId);
      assert OlderRow(db.baselines, ChangeOf(db, c).at);
    }
  }

  lemma {:induction false} EveryRowCounted(cs: seq<Command>, at: nat)
    requires at < |Run(cs).baselines|
    ensures var row := Run(cs).baselines[at];
            Against(Run(cs).events, row.sourceId, row.snapshotId) == Confirmations(RowReadings(cs, at))
  {
    var row := Run(cs).baselines[at];
    if row.active {
      hide Run, Readings, RowReadings, Tracks, Against, Confirmations, AllSound, AllAnchored;
      HistoryKeeps(cs, row.sourceId);
      ActiveRowReadings(cs, at);
    } else {
      hide Step, Against, Confirmations, Older, AllAnchored, Commits, ReadingOf, PollsRow;
      var front, c := cs[..|cs| - 1], cs[|cs| - 1];
      RunAnchored(front);
      AlwaysOlder(front);
      RetiredStep(Run(front), c, at);
      EveryRowCounted(front, at);
    }
  }

  /** As many events were raised against each baseline ever accepted as the readings it took while active have maximal
      runs of three or more. */
  lemma {:induction false} EventsOfEveryBaseline(cs: seq<Command>, at: nat)
    requires at < |Run(cs).baselines|
    ensures var row := Run(cs).baselines[at];
            Against(Run(cs).events, row.sourceId, row.snapshotId) == |LongRuns(RowReadings(cs, at))|
  {
    hide Run, RowReadings, Against, Confirmations, LongRuns;
    EveryRowCounted(cs, at);
    ConfirmationsAreLongRuns(RowReadings(cs, at));
  }
}
