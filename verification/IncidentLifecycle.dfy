/** What the incident table keeps over every run, and when an incident is active. */
module IncidentLifecycle {
  import opened Wrappers
  import opened Keys
  import opened Incidents

  // ---------- the table invariant ----------

  ghost predicate RowInv(r: Incident) {
    && r.activeKey == (if r.status == Resolved then None else Some(r.fingerprint))
    && r.fingerprint == Fingerprint(r.tenantId, r.sourceId, r.trigger)
    && r.occurrence >= 1
  }

  /** Every row is in its lifecycle, and no active key is held twice (the unique index). */
  ghost predicate TableInv(incidents: seq<Incident>) {
    && (forall i | 0 <= i < |incidents| :: RowInv(incidents[i]))
    && (forall i, j | 0 <= i < j < |incidents| :: incidents[i].activeKey.Some? ==>
         incidents[i].activeKey != incidents[j].activeKey)
  }

  ghost predicate Active(incidents: seq<Incident>, key: string) { ActiveAt(incidents, key).Some? }

  /** One op keeps the table and decides the activity of exactly its own key. */
  lemma OpEffect(incidents: seq<Incident>, op: Op, now: Time, later: Time, key: string)
    requires TableInv(incidents)
    ensures TableInv(ApplyOp(incidents, op, now, later).0)
    ensures Active(ApplyOp(incidents, op, now, later).0, key) <==>
            if key == OpKey(op) then op.Report? else Active(incidents, key)
  {
    hide ActiveAt, Fingerprint;
    var after := ApplyOp(incidents, op, now, later).0;
    var at, was := ActiveAt(incidents, OpKey(op)), ActiveAt(incidents, key);
    assert forall i :: 0 <= i < |incidents| && at != Some(i) ==> after[i] == incidents[i];
    if was.Some? { assert incidents[was.value].activeKey == Some(key); }
    if at.Some? { assert RowInv(incidents[at.value]); }
    if op.Report? && at.None? { assert after[|incidents|].activeKey == Some(OpKey(op)); }
    if op.Report? && at.Some? { assert after[at.value].activeKey == Some(OpKey(op)); }
  }

  /** The last op on a key, if any, says whether the key ends active. */
  function Verdict(ops: seq<Op>, key: string): Option<bool> {
    if ops == [] then None
    else if OpKey(ops[|ops| - 1]) == key then Some(ops[|ops| - 1].Report?)
    else Verdict(ops[..|ops| - 1], key)
  }

  lemma {:induction false} OpsEffect(incidents: seq<Incident>, ops: seq<Op>, now: Time, later: Time, key: string)
    requires TableInv(incidents)
    ensures TableInv(ApplyOps(incidents, ops, now, later).0)
    ensures Active(ApplyOps(incidents, ops, now, later).0, key) <==>
            (match Verdict(ops, key) case Some(b) => b case None => Active(incidents, key))
  {
    if ops != [] {
      OpsEffect(incidents, ops[..|ops| - 1], now, later, key);
      OpEffect(ApplyOps(incidents, ops[..|ops| - 1], now, later).0, ops[|ops| - 1], now, later, key);
    }
  }

  // ---------- runs ----------

  datatype Action =
    | RecordSample(source: Source, sample: Sample, now: Time, later: Time)
    | ReportDrift(source: Source, severity: string, summary: string, now: Time, later: Time)
    | AcknowledgeRow(row: nat, actor: string, now: Time)
    | OperatorResolve(row: nat, actor: string, now: Time)

  datatype World = World(incidents: seq<Incident>, samples: seq<Sample>)

  function Rejected(before: seq<Incident>, r: Result<seq<Incident>, string>): seq<Incident> {
    match r case Ok(after) => after case Err(_) => before
  }

  function Step(w: World, a: Action): World {
    match a
    case RecordSample(source, sample, now, later) =>
      var samples := w.samples + [sample.(sourceId := source.id)];
      var recent := Recent(samples, source.id, source.failureThreshold);
      World(ApplyOps(w.incidents, HealthOps(source, recent, sample), now, later).0, samples)
    case ReportDrift(source, severity, summary, now, later) =>
      w.(incidents := ApplyOp(w.incidents, Report(source, Drift, severity, summary), now, later).0)
    case AcknowledgeRow(row, actor, now) =>
      if row < |w.incidents| then w.(incidents := Rejected(w.incidents, Acknowledge(w.incidents, row, actor, now))) else w
    case OperatorResolve(row, actor, now) =>
      if row < |w.incidents| then w.(incidents := Rejected(w.incidents, ResolveById(w.incidents, row, actor, now))) else w
  }

  function Run(actions: seq<Action>): World {
    if actions == [] then World([], []) else Step(Run(actions[..|actions| - 1]), actions[|actions| - 1])
  }

  lemma {:induction false} StepKeepsTable(w: World, a: Action)
    requires TableInv(w.incidents)
    ensures TableInv(Step(w, a).incidents)
  {
    hide HealthOps, Recent, ApplyOps, ApplyOp, Fingerprint;
    match a
    case RecordSample(source, sample, now, later) =>
      var samples := w.samples + [sample.(sourceId := source.id)];
      OpsEffect(w.incidents, HealthOps(source, Recent(samples, source.id, source.failureThreshold), sample), now, later, "");
    case ReportDrift(source, severity, summary, now, later) =>
      OpEffect(w.incidents, Report(source, Drift, severity, summary), now, later, "");
    case AcknowledgeRow(row, actor, now) =>
    case OperatorResolve(row, actor, now) =>
  }

  /** Main result: after any run, operator actions included, each fingerprint has at most one active
      incident, and a row holds its active key exactly while it is unresolved. */
  lemma {:induction false} AtMostOneActivePerFingerprint(actions: seq<Action>)
    ensures TableInv(Run(actions).incidents)
    ensures forall i, j | 0 <= i < |Run(actions).incidents| && 0 <= j < |Run(actions).incidents| ::
              (&& Run(actions).incidents[i].fingerprint == Run(actions).incidents[j].fingerprint
               && Run(actions).incidents[i].status != Resolved && Run(actions).incidents[j].status != Resolved) ==> i == j
  {
    if actions != [] {
      AtMostOneActivePerFingerprint(actions[..|actions| - 1]);
      StepKeepsTable(Run(actions[..|actions| - 1]), actions[|actions| - 1]);
    }
    var incidents := Run(actions).incidents;
    forall i, j | 0 <= i < |incidents| && 0 <= j < |incidents| && incidents[i].fingerprint == incidents[j].fingerprint
                  && incidents[i].status != Resolved && incidents[j].status != Resolved
      ensures i == j
    {
      assert RowInv(incidents[i]) && RowInv(incidents[j]);
    }
  }

  // ---------- when is an incident active? ----------

  /** Length of the run of failures at the end of a history. */
  function TrailingFailures(xs: seq<Sample>): nat {
    if xs == [] || xs[|xs| - 1].isSuccess then 0 else 1 + TrailingFailures(xs[..|xs| - 1])
  }

  ghost predicate SlowRun(xs: seq<Sample>, start: nat, length: nat, threshold: real) {
    start + length <= |xs| && forall j | start <= j < start + length :: Slow(xs[j], threshold)
  }

  ghost predicate NoFastSince(xs: seq<Sample>, from: nat, threshold: real) {
    forall j | from <= j < |xs| :: !Fast(xs[j], threshold)
  }

  /** Some slow run of the given length has had no fast success since. */
  ghost predicate SlowEpisode(xs: seq<Sample>, length: nat, threshold: real) {
    exists start: nat :: SlowRun(xs, start, length, threshold) && NoFastSince(xs, start + length, threshold)
  }

  ghost predicate InOrder(xs: seq<Sample>) {
    forall i, j | 0 <= i < j < |xs| :: xs[i].sampledAt <= xs[j].sampledAt
  }

  lemma {:induction false} SortingSortedHistory(xs: seq<Sample>)
    requires InOrder(xs)
    ensures |NewestFirst(xs)| == |xs|
    ensures forall i | 0 <= i < |xs| :: NewestFirst(xs)[i] == xs[|xs| - 1 - i]
  {
    if xs != [] {
      SortingSortedHistory(xs[..|xs| - 1]);
      assert NewestFirst(xs) == [xs[|xs| - 1]] + NewestFirst(xs[..|xs| - 1]);
    }
  }

  lemma {:induction false} TrailingRun(xs: seq<Sample>, k: nat)
    requires k <= |xs|
    ensures TrailingFailures(xs) >= k <==> forall j | |xs| - k <= j < |xs| :: !xs[j].isSuccess
  {
    if k > 0 {
      var front := xs[..|xs| - 1];
      TrailingRun(front, k - 1);
      assert forall j | 0 <= j < |front| :: front[j] == xs[j];
      assert !xs[|xs| - 1].isSuccess ==> TrailingFailures(xs) == 1 + TrailingFailures(front);
      if TrailingFailures(xs) >= k {
        assert forall j | |xs| - k <= j < |xs| :: j < |front| ==> !front[j].isSuccess;
      }
      if forall j | |xs| - k <= j < |xs| :: !xs[j].isSuccess {
        assert forall j | |front| - (k - 1) <= j < |front| :: !xs[j].isSuccess && front[j] == xs[j];
      }
    }
  }

  lemma {:induction false} TrailingBound(xs: seq<Sample>)
    ensures TrailingFailures(xs) <= |xs|
  {
    if xs != [] && !xs[|xs| - 1].isSuccess { TrailingBound(xs[..|xs| - 1]); }
  }

  /** On an ordered history the queried window is its last `threshold` samples. */
  lemma {:induction false} RecentIsTheTail(samples: seq<Sample>, source: nat, k: nat)
    requires InOrder(SamplesOf(samples, source))
    ensures var xs, recent := SamplesOf(samples, source), Recent(samples, source, k);
            && |recent| == (if |xs| <= k then |xs| else k)
            && forall i | 0 <= i < |recent| :: recent[i] == xs[|xs| - 1 - i]
  {
    SortingSortedHistory(SamplesOf(samples, source));
  }

  /** A condition on the window is that condition on the tail of the history. */
  lemma WindowAll(samples: seq<Sample>, source: nat, k: nat, p: Sample -> bool)
    requires InOrder(SamplesOf(samples, source)) && k <= |SamplesOf(samples, source)|
    ensures |Recent(samples, source, k)| == k
    ensures var xs, recent := SamplesOf(samples, source), Recent(samples, source, k);
            (forall x | x in recent :: p(x)) <==> forall j | |xs| - k <= j < |xs| :: p(xs[j])
  {
    hide Recent, NewestFirst, SamplesOf, InOrder;
    var xs, recent := SamplesOf(samples, source), Recent(samples, source, k);
    RecentIsTheTail(samples, source, k);
    if forall x | x in recent :: p(x) {
      forall j | |xs| - k <= j < |xs| ensures p(xs[j]) {
        assert recent[|xs| - 1 - j] in recent;
      }
    }
    if forall j | |xs| - k <= j < |xs| :: p(xs[j]) {
      forall x | x in recent ensures p(x) {
        var i :| 0 <= i < |recent| && recent[i] == x;
        assert p(xs[|xs| - 1 - i]);
      }
    }
  }

  /** The availability verdict of one sample, read against the whole history. */
  lemma AvailabilityVerdict(source: Source, samples: seq<Sample>, sample: Sample)
    requires source.failureThreshold >= 1
    requires InOrder(SamplesOf(samples, source.id))
    requires var xs := SamplesOf(samples, source.id); xs != [] && xs[|xs| - 1].isSuccess == sample.isSuccess
    ensures var xs, ops := SamplesOf(samples, source.id),
                AvailabilityOps(source, Recent(samples, source.id, source.failureThreshold), sample);
            if TrailingFailures(xs) >= source.failureThreshold then
              |ops| == 1 && ops[0].Report? && OpKey(ops[0]) == KeyOf(source, Availability) && ops[0].severity == "critical"
            else if sample.isSuccess then
              |ops| == 1 && ops[0].Recover? && OpKey(ops[0]) == KeyOf(source, Availability)
              && ops[0].actor == "health-probe-recovery"
            else ops == []
  {
    hide Recent, NewestFirst, SamplesOf, InOrder, Fingerprint;
    var k, xs := source.failureThreshold, SamplesOf(samples, source.id);
    TrailingBound(xs);
    if |xs| >= k {
      TrailingRun(xs, k);
      WindowAll(samples, source.id, k, (x: Sample) => !x.isSuccess);
    } else {
      RecentIsTheTail(samples, source.id, k);
    }
  }

  /** The latency verdict of one sample, read against the whole history. */
  lemma LatencyVerdict(source: Source, samples: seq<Sample>, sample: Sample)
    requires source.failureThreshold >= 1 && source.latencyThreshold.Some?
    requires InOrder(SamplesOf(samples, source.id))
    requires var xs := SamplesOf(samples, source.id);
             xs != [] && xs[|xs| - 1].isSuccess == sample.isSuccess && xs[|xs| - 1].latency == sample.latency
    ensures var xs, k, l := SamplesOf(samples, source.id), source.failureThreshold, source.latencyThreshold.value;
            var ops := LatencyOps(source, Recent(samples, source.id, k), sample);
            if |xs| >= k && SlowRun(xs, |xs| - k, k, l) then
              |ops| == 1 && ops[0].Report? && OpKey(ops[0]) == KeyOf(source, Latency) && ops[0].severity == "warning"
            else if Fast(xs[|xs| - 1], l) then
              |ops| == 1 && ops[0].Recover? && OpKey(ops[0]) == KeyOf(source, Latency)
              && ops[0].actor == "health-probe-recovery"
            else ops == []
  {
    hide Recent, NewestFirst, SamplesOf, InOrder, Fingerprint;
    var k, xs, l := source.failureThreshold, SamplesOf(samples, source.id), source.latencyThreshold.value;
    if |xs| >= k {
      WindowAll(samples, source.id, k, (x: Sample) => Slow(x, l));
    } else {
      RecentIsTheTail(samples, source.id, k);
    }
  }

  /** One more sample: an episode begins, ends or stays as it was. */
  lemma EpisodeStep(xs: seq<Sample>, x: Sample, k: nat, l: real)
    requires k >= 1
    ensures var ys := xs + [x];
            SlowEpisode(ys, k, l) <==>
              if |ys| >= k && SlowRun(ys, |ys| - k, k, l) then true
              else if Fast(x, l) then false
              else SlowEpisode(xs, k, l)
  {
    var ys := xs + [x];
    var n := |xs|;
    assert forall j | 0 <= j < n :: ys[j] == xs[j];
    if |ys| >= k && SlowRun(ys, |ys| - k, k, l) {
      assert NoFastSince(ys, |ys| - k + k, l);
    } else {
      forall start: nat | SlowRun(ys, start, k, l) && NoFastSince(ys, start + k, l)
        ensures !Fast(x, l) && SlowRun(xs, start, k, l) && NoFastSince(xs, start + k, l)
      {
        assert start + k == n + 1 ==> start == |ys| - k;
        assert start + k <= n;
        assert !Fast(ys[n], l);
        assert forall j | start <= j < start + k :: Slow(ys[j], l) && ys[j] == xs[j];
        assert forall j | start + k <= j < n :: !Fast(ys[j], l) && ys[j] == xs[j];
      }
      if !Fast(x, l) && SlowEpisode(xs, k, l) {
        var start: nat :| SlowRun(xs, start, k, l) && NoFastSince(xs, start + k, l);
        assert SlowRun(ys, start, k, l) && NoFastSince(ys, start + k, l);
      }
    }
  }

  /** The triggers whose incidents the source's policy drives. */
  ghost predicate Driven(source: Source, t: Trigger) {
    t == Availability || (t == Latency && source.latencyThreshold.Some?)
  }

  /** An operator resolves an active incident that the source's own policy drives. */
  ghost predicate Disturbs(w: World, a: Action, source: Source) {
    a.OperatorResolve? && a.row < |w.incidents|
    && exists t: Trigger :: Driven(source, t) && w.incidents[a.row].activeKey == Some(KeyOf(source, t))
  }

  /** The source keeps one policy, its samples arrive in order, and no operator resolves its own active health
      incidents by hand; other resolves, of drift incidents, of other sources or of resolved rows, do not matter. */
  ghost predicate Undisturbed(actions: seq<Action>, source: Source) {
    && (forall k | 0 <= k < |actions| :: !Disturbs(Run(actions[..k]), actions[k], source))
    && (forall a | a in actions :: a.RecordSample? && a.source.id == source.id ==> a.source == source)
    && InOrder(SamplesOf(Run(actions).samples, source.id))
  }

  ghost predicate ActivityMatchesHistory(w: World, source: Source) {
    var xs := SamplesOf(w.samples, source.id);
    && (Active(w.incidents, KeyOf(source, Availability)) <==> TrailingFailures(xs) >= source.failureThreshold)
    && (source.latencyThreshold.Some? ==>
         (Active(w.incidents, KeyOf(source, Latency)) <==>
            SlowEpisode(xs, source.failureThreshold, source.latencyThreshold.value)))
  }

  lemma OtherKeys(source: Source, t: Trigger, other: Source, u: Trigger)
    requires t != u || source.id != other.id
    ensures KeyOf(source, t) != KeyOf(other, u)
  {
    if KeyOf(source, t) == KeyOf(other, u) {
      FingerprintInjective(source.tenantId, source.id, t, other.tenantId, other.id, u);
    }
  }

  /** Ops about another source leave this source's keys alone. */
  lemma OtherSourceVerdict(source: Source, other: Source, recent: seq<Sample>, sample: Sample, t: Trigger)
    requires source.id != other.id
    ensures Verdict(HealthOps(other, recent, sample), KeyOf(source, t)) == None
  {
    OtherKeys(source, t, other, Availability);
    OtherKeys(source, t, other, Latency);
    var ops := HealthOps(other, recent, sample);
    if |ops| == 2 { assert ops[..1] == [ops[0]]; }
    assert forall i | 0 <= i < |ops| :: OpKey(ops[i]) != KeyOf(source, t);
    NoVerdict(ops, KeyOf(source, t));
  }

  lemma {:induction false} NoVerdict(ops: seq<Op>, key: string)
    requires forall i | 0 <= i < |ops| :: OpKey(ops[i]) != key
    ensures Verdict(ops, key) == None
  {
    if ops != [] { NoVerdict(ops[..|ops| - 1], key); }
  }

  /** Both policies together: each trigger's verdict is its own op. */
  lemma OwnVerdict(source: Source, recent: seq<Sample>, sample: Sample)
    ensures var a, b := AvailabilityOps(source, recent, sample), LatencyOps(source, recent, sample);
            && Verdict(a + b, KeyOf(source, Availability)) == (if a == [] then None else Some(a[0].Report?))
            && Verdict(a + b, KeyOf(source, Latency)) == (if b == [] then None else Some(b[0].Report?))
  {
    OtherKeys(source, Availability, source, Latency);
    var a, b := AvailabilityOps(source, recent, sample), LatencyOps(source, recent, sample);
    if b == [] {
      assert a + b == a;
      if a != [] { assert a[..0] == []; }
    } else {
      assert (a + b)[..|a + b| - 1] == a;
      if a != [] { assert a[..0] == []; }
    }
  }

  lemma {:induction false} SampleStep(w: World, source: Source, sample: Sample, now: Time, later: Time)
    requires TableInv(w.incidents) && source.failureThreshold >= 1
    requires ActivityMatchesHistory(w, source)
    requires InOrder(SamplesOf(Step(w, RecordSample(source, sample, now, later)).samples, source.id))
    ensures ActivityMatchesHistory(Step(w, RecordSample(source, sample, now, later)), source)
  {
    var row := sample.(sourceId := source.id);
    var samples := w.samples + [row];
    assert samples[..|w.samples|] == w.samples;
    var xs, ys := SamplesOf(w.samples, source.id), SamplesOf(samples, source.id);
    assert ys == xs + [row] && ys[..|xs|] == xs;
    var recent := Recent(samples, source.id, source.failureThreshold);
    OwnVerdict(source, recent, sample);
    OpsEffect(w.incidents, HealthOps(source, recent, sample), now, later, KeyOf(source, Availability));
    AvailabilityVerdict(source, samples, sample);
    if source.latencyThreshold.Some? {
      OpsEffect(w.incidents, HealthOps(source, recent, sample), now, later, KeyOf(source, Latency));
      LatencyVerdict(source, samples, sample);
      EpisodeStep(xs, row, source.failureThreshold, source.latencyThreshold.value);
    }
  }

  lemma OtherStep(w: World, source: Source, a: Action)
    requires TableInv(w.incidents) && !Disturbs(w, a, source) && (a.RecordSample? ==> a.source.id != source.id)
    requires ActivityMatchesHistory(w, source)
    ensures ActivityMatchesHistory(Step(w, a), source)
  {
    hide HealthOps, Recent, ApplyOps, ApplyOp, Fingerprint, TrailingFailures, SlowEpisode, ActiveAt;
    forall t: Trigger | Driven(source, t)
      ensures Active(Step(w, a).incidents, KeyOf(source, t)) == Active(w.incidents, KeyOf(source, t))
    {
      var key := KeyOf(source, t);
      match a
      case RecordSample(other, sample, now, later) =>
        var samples := w.samples + [sample.(sourceId := other.id)];
        var recent := Recent(samples, other.id, other.failureThreshold);
        OtherSourceVerdict(source, other, recent, sample, t);
        OpsEffect(w.incidents, HealthOps(other, recent, sample), now, later, key);
      case ReportDrift(other, severity, summary, now, later) =>
        OtherKeys(source, t, other, Drift);
        OpEffect(w.incidents, Report(other, Drift, severity, summary), now, later, key);
      case AcknowledgeRow(row, actor, now) =>
        var after := Step(w, a).incidents;
        assert |after| == |w.incidents| && forall i | 0 <= i < |after| :: after[i].activeKey == w.incidents[i].activeKey;
      case OperatorResolve(row, actor, now) =>
        if row < |w.incidents| {
          assert w.incidents[row].activeKey != Some(key);
          ResolveKeepsOthers(w.incidents, row, actor, now, key);
        }
    }
    assert SamplesOf(Step(w, a).samples, source.id) == SamplesOf(w.samples, source.id) by {
      if a.RecordSample? { assert Step(w, a).samples[..|w.samples|] == w.samples; }
    }
    assert Driven(source, Availability) && (source.latencyThreshold.Some? ==> Driven(source, Latency));
  }

  /** Resolving a row leaves every other key as it was. */
  lemma ResolveKeepsOthers(incidents: seq<Incident>, row: nat, actor: string, now: Time, key: string)
    requires row < |incidents| && incidents[row].activeKey != Some(key)
    ensures Active(Rejected(incidents, ResolveById(incidents, row, actor, now)), key) == Active(incidents, key)
  {
    var after := Rejected(incidents, ResolveById(incidents, row, actor, now));
    assert forall i | 0 <= i < |incidents| && i != row :: after[i] == incidents[i];
    assert after[row].activeKey != Some(key);
  }

  /** Main result: on an undisturbed source the availability incident is active exactly while the
      trailing failure run reaches the threshold, and the latency incident exactly while some
      threshold-long slow run has had no fast success since, whatever happens to other sources,
      to drift incidents, to acknowledgements and to any other operator resolve in between. */
  lemma {:induction false} ActiveIffHistorySaysSo(actions: seq<Action>, source: Source)
    requires source.failureThreshold >= 1
    requires Undisturbed(actions, source)
    ensures ActivityMatchesHistory(Run(actions), source)
  {
    if actions == [] {
      assert !SlowEpisode([], source.failureThreshold, if source.latencyThreshold.Some? then source.latencyThreshold.value else 0.0);
    } else {
      var front, a := actions[..|actions| - 1], actions[|actions| - 1];
      var w := Run(front);
      assert a in actions && forall b | b in front :: b in actions;
      assert forall k | 0 <= k < |front| :: front[..k] == actions[..k] && front[k] == actions[k];
      assert actions[..|front|] == front;
      PrefixInOrder(w.samples, Run(actions).samples, source.id);
      ActiveIffHistorySaysSo(front, source);
      AtMostOneActivePerFingerprint(front);
      if a.RecordSample? && a.source.id == source.id {
        SampleStep(w, source, a.sample, a.now, a.later);
      } else {
        OtherStep(w, source, a);
      }
    }
  }

  lemma PrefixInOrder(xs: seq<Sample>, ys: seq<Sample>, source: nat)
    requires ys == xs || (|ys| == |xs| + 1 && ys[..|xs|] == xs)
    requires InOrder(SamplesOf(ys, source))
    ensures InOrder(SamplesOf(xs, source))
  {
    if ys != xs {
      var p, q := SamplesOf(xs, source), SamplesOf(ys, source);
      assert p == q || q[..|p|] == p;
      assert forall i | 0 <= i < |p| :: p[i] == q[i];
    }
  }

  /** Resolving a driven incident by hand always breaks the correspondence, because the history still says "active"
      until the next sample. */
  lemma OperatorResolveBreaksIt(w: World, source: Source, trigger: Trigger, row: nat, actor: string, now: Time)
    requires TableInv(w.incidents) && ActivityMatchesHistory(w, source) && Driven(source, trigger)
    requires row < |w.incidents| && w.incidents[row].activeKey == Some(KeyOf(source, trigger))
    ensures !ActivityMatchesHistory(Step(w, OperatorResolve(row, actor, now)), source)
  {
    var after := Step(w, OperatorResolve(row, actor, now));
    assert RowInv(w.incidents[row]);
    assert Active(w.incidents, KeyOf(source, trigger));
    assert forall i | 0 <= i < |w.incidents| && i != row :: after.incidents[i] == w.incidents[i];
    assert !Active(after.incidents, KeyOf(source, trigger));
  }

  /** An operator resolve keeps the correspondence exactly when it does not resolve a driven, active incident. */
  lemma OperatorResolveIff(w: World, source: Source, row: nat, actor: string, now: Time)
    requires TableInv(w.incidents) && ActivityMatchesHistory(w, source)
    ensures ActivityMatchesHistory(Step(w, OperatorResolve(row, actor, now)), source)
       <==> !Disturbs(w, OperatorResolve(row, actor, now), source)
  {
    hide TableInv, ActivityMatchesHistory, Step, Fingerprint, Driven;
    if Disturbs(w, OperatorResolve(row, actor, now), source) {
      var t: Trigger :| Driven(source, t) && w.incidents[row].activeKey == Some(KeyOf(source, t));
      OperatorResolveBreaksIt(w, source, t, row, actor, now);
    } else {
      OtherStep(w, source, OperatorResolve(row, actor, now));
    }
  }

  // ---------- ties ----------

  /** Any answer the query may give for one source's samples: the first `limit` of some order by sampled_at, newest first. */
  ghost predicate MayAnswer(xs: seq<Sample>, limit: nat, window: seq<Sample>, sorted: seq<Sample>) {
    && multiset(sorted) == multiset(xs)
    && Descending(sorted)
    && window == if |sorted| <= limit then sorted else sorted[..limit]
  }

  ghost predicate StrictlyInOrder(xs: seq<Sample>) {
    forall i, j | 0 <= i < j < |xs| :: xs[i].sampledAt < xs[j].sampledAt
  }

  /** Without ties there is one such answer, and it is the window the policies are given here. */
  lemma WindowIsUnique(samples: seq<Sample>, source: nat, limit: nat, window: seq<Sample>, sorted: seq<Sample>)
    requires StrictlyInOrder(SamplesOf(samples, source)) && MayAnswer(SamplesOf(samples, source), limit, window, sorted)
    ensures window == Recent(samples, source, limit)
  {
    hide SamplesOf, NewestFirst;
    var xs := SamplesOf(samples, source);
    SortingSortedHistory(xs);
    OneOrder(xs, sorted);
    assert sorted == NewestFirst(xs);
  }

  /** Newest first. */
  ghost predicate Descending(xs: seq<Sample>) {
    forall i, j | 0 <= i < j < |xs| :: xs[i].sampledAt >= xs[j].sampledAt
  }

  lemma NewestLeads(xs: seq<Sample>, sorted: seq<Sample>)
    requires StrictlyInOrder(xs) && multiset(sorted) == multiset(xs) && Descending(sorted) && xs != []
    ensures sorted != [] && sorted[0] == xs[|xs| - 1]
  {
    var last := xs[|xs| - 1];
    assert last in multiset(xs) && last in multiset(sorted);
    var k :| 0 <= k < |sorted| && sorted[k] == last;
    assert sorted[0] in multiset(sorted) && sorted[0] in multiset(xs);
    var j :| 0 <= j < |xs| && xs[j] == sorted[0];
    assert k > 0 ==> sorted[0].sampledAt >= sorted[k].sampledAt;
  }

  lemma DropSame<T>(a: seq<T>, b: seq<T>)
    requires a != [] && b != [] && a[0] == b[|b| - 1] && multiset(a) == multiset(b)
    ensures multiset(a[1..]) == multiset(b[..|b| - 1])
  {
    var x := a[0];
    assert a == [x] + a[1..] && b == b[..|b| - 1] + [x];
    assert multiset(a[1..]) == multiset(a) - multiset{x};
    assert multiset(b[..|b| - 1]) == multiset(b) - multiset{x};
  }

  lemma {:induction false} OneOrder(xs: seq<Sample>, sorted: seq<Sample>)
    requires StrictlyInOrder(xs) && multiset(sorted) == multiset(xs) && Descending(sorted)
    ensures |sorted| == |xs| && forall i | 0 <= i < |xs| :: sorted[i] == xs[|xs| - 1 - i]
  {
    assert |multiset(sorted)| == |multiset(xs)|;
    if xs != [] {
      NewestLeads(xs, sorted);
      DropSame(sorted, xs);
      OneOrder(xs[..|xs| - 1], sorted[1..]);
      assert forall i | 0 < i < |xs| :: sorted[i] == sorted[1..][i - 1];
    }
  }
}
