/** Comparing the current structure of a payload with an accepted one, and grading the drift. */
module ContractDiff {
  import opened Basics
  import opened TypeUnions
  import opened Flattening

  const MAX_SCORE: int := 100
  const MIN_SCORE: int := 0
  const PENALTY_ADDED: int := 2
  const PENALTY_REMOVED: int := 20
  const PENALTY_TYPE_CHANGE: int := 15

  datatype TypeChange = TypeChange(fromType: string, toType: string)

  datatype Diff = Diff(added: seq<string>, removed: seq<string>, typeChanged: map<string, TypeChange>)

  const NoDiff := Diff([], [], map[])

  predicate StartsWith(s: string, prefix: string) {
    |prefix| <= |s| && s[..|prefix|] == prefix
  }

  /** The flattened structure shows an array at `path` and nothing below it. */
  predicate Inconclusive(path: string, flat: map<string, string>) {
    path in flat && "array" in Split(flat[path])
    && forall candidate | candidate in flat :: !StartsWith(candidate, path + "[]")
  }

  /** `_is_below_inconclusive_array`. */
  predicate IsBelowInconclusiveArray(path: string, flat: map<string, string>) {
    exists a | a in flat :: Inconclusive(a, flat) && StartsWith(path, a + "[]")
  }

  function Added(previous: map<string, string>, current: map<string, string>): set<string> {
    set k | k in current && k !in previous
  }

  function Removed(previous: map<string, string>, current: map<string, string>): set<string> {
    set k | k in previous && k !in current && !IsBelowInconclusiveArray(k, current)
  }

  function TypeChanged(previous: map<string, string>, current: map<string, string>): map<string, TypeChange> {
    map k | k in previous && k in current && previous[k] != current[k] :: TypeChange(previous[k], current[k])
  }

  /** `_diff_contract`. */
  function DiffContract(previous: map<string, string>, current: map<string, string>): Diff {
    Diff(Sorted(Added(previous, current)), Sorted(Removed(previous, current)), TypeChanged(previous, current))
  }

  lemma SortedEmptyIff(s: set<string>)
    ensures Sorted(s) == [] <==> s == {}
  {
    assert Elements([]) == {};
  }

  /** No drift: every current path is known with its type, and a missing path is one the current payload cannot show. */
  ghost predicate Compatible(previous: map<string, string>, current: map<string, string>) {
    (forall k | k in current :: k in previous && previous[k] == current[k])
    && forall k | k in previous && k !in current :: IsBelowInconclusiveArray(k, current)
  }

  lemma DiffEmptyIff(previous: map<string, string>, current: map<string, string>)
    ensures DiffContract(previous, current) == NoDiff <==> Compatible(previous, current)
  {
    hide IsBelowInconclusiveArray, Sorted;
    SortedEmptyIff(Added(previous, current));
    SortedEmptyIff(Removed(previous, current));
    if DiffContract(previous, current) == NoDiff {
      forall k | k in current ensures k in previous && previous[k] == current[k] {
        assert k !in Added(previous, current) && k !in TypeChanged(previous, current);
      }
      forall k | k in previous && k !in current ensures IsBelowInconclusiveArray(k, current) {
        assert k !in Removed(previous, current);
      }
    }
    if Compatible(previous, current) {
      assert Added(previous, current) == {};
      assert Removed(previous, current) == {};
      assert TypeChanged(previous, current) == map[];
    }
  }

  /** Each field names exactly the paths it is about, each once. */
  lemma DiffIsExact(previous: map<string, string>, current: map<string, string>, k: string)
    ensures var d := DiffContract(previous, current);
            (k in d.added <==> k in current && k !in previous)
            && (k in d.removed <==> k in previous && k !in current && !IsBelowInconclusiveArray(k, current))
            && (k in d.typeChanged <==> k in previous && k in current && previous[k] != current[k])
            && Ascending(d.added) && Ascending(d.removed)
  {
    hide IsBelowInconclusiveArray, Sorted;
    var d := DiffContract(previous, current);
    assert k in d.added <==> k in Elements(d.added);
    assert k in d.removed <==> k in Elements(d.removed);
  }

  // ---------- what the exception means for flattened payloads ----------

  /** `node` is an inspected node of the payload and renders to `at`. */
  ghost predicate NodeAt(members: seq<Member>, prefix: string, at: string, node: Json) {
    exists field, address | field in members ::
      Reaches(field.value, TopPath(prefix, field.key), address, at, node)
  }

  lemma NodeIsStored(members: seq<Member>, prefix: string, at: string, node: Json)
    requires NodeAt(members, prefix, at, node)
    ensures Entry(at, TypeName(node)) in SchemaEntries(members, prefix)
    ensures at in Flat(members, prefix)
  {
    hide TypeName, TopPath;
    var e := Entry(at, TypeName(node));
    SchemaEntriesAreNodes(members, prefix, e);
    var field, address :| field in members && Reaches(field.value, TopPath(prefix, field.key), address, at, node);
    assert InField(field, prefix, e);
  }

  /** An inconclusive path shows at least one array, and every array inspected there is empty. */
  lemma InconclusiveMeansEmpty(members: seq<Member>, prefix: string, at: string)
    requires Inconclusive(at, Flat(members, prefix))
    ensures exists node :: NodeAt(members, prefix, at, node) && node == Array([])
    ensures forall node | NodeAt(members, prefix, at, node) && node.Array? :: node.items == []
  {
    forall node | NodeAt(members, prefix, at, node) && node.Array? ensures node.items == [] {
      if node.items != [] { ElementIsStored(members, prefix, at, node); }
    }
    ArrayNodeExists(members, prefix, at);
  }

  lemma ElementIsStored(members: seq<Member>, prefix: string, at: string, node: Json)
    requires NodeAt(members, prefix, at, node) && node.Array? && node.items != []
    ensures at + "[]" in Flat(members, prefix) && StartsWith(at + "[]", at + "[]")
  {
    hide TopPath, Flat;
    var field, address :| field in members && Reaches(field.value, TopPath(prefix, field.key), address, at, node);
    ElementsAreNodes(field.value, TopPath(prefix, field.key), address, at, node);
    assert NodeAt(members, prefix, at + "[]", node.items[0]);
    NodeIsStored(members, prefix, at + "[]", node.items[0]);
  }

  lemma ArrayNodeExists(members: seq<Member>, prefix: string, at: string)
    requires at in Flat(members, prefix) && "array" in Split(Flat(members, prefix)[at])
    ensures exists node :: NodeAt(members, prefix, at, node) && node.Array?
  {
    hide Flat, Split, TopPath;
    var e := Entry(at, "array");
    FlatIsExact(members, prefix, at, "array");
    assert InPayload(members, prefix, e);
    var field :| field in members && InField(field, prefix, e);
    var address, node :| Reaches(field.value, TopPath(prefix, field.key), address, at, node) && TypeName(node) == "array";
    ArrayName(node);
    assert NodeAt(members, prefix, at, node);
  }

  lemma ArrayName(v: Json)
    ensures TypeName(v) == "array" <==> v.Array?
  {
    assert |"array"| == 5 && "array"[0] == 'a';
    match v
    case Null => assert |TypeName(v)| == 4;
    case Boolean(_) => assert |TypeName(v)| == 7;
    case Number(_) => assert |TypeName(v)| == 6;
    case Text(_) => assert |TypeName(v)| == 6;
    case Array(_) =>
    case Object(_) => assert |TypeName(v)| == 6;
    case Other => assert |TypeName(v)| == 7;
  }

  /** Every stored path is one some inspected node renders to. */
  lemma StoredIsNode(members: seq<Member>, prefix: string, at: string) returns (node: Json)
    requires at in Flat(members, prefix)
    ensures NodeAt(members, prefix, at, node)
  {
    hide TypeName, TopPath, Canonical;
    var e :| e in SchemaEntries(members, prefix) && e.path == at;
    SchemaEntriesAreNodes(members, prefix, e);
    var field :| field in members && InField(field, prefix, e);
    var address: seq<nat>;
    address, node :| Reaches(field.value, TopPath(prefix, field.key), address, at, node) && TypeName(node) == e.typ;
  }

  /** An array renders to `at` and no inspected node renders below its elements. */
  ghost predicate BareArray(members: seq<Member>, prefix: string, at: string) {
    && (exists node :: NodeAt(members, prefix, at, node) && node.Array?)
    && forall p, node | NodeAt(members, prefix, p, node) :: !StartsWith(p, at + "[]")
  }

  /** A path of a payload is inconclusive exactly when it is a bare array. */
  lemma InconclusiveIff(members: seq<Member>, prefix: string, at: string)
    ensures Inconclusive(at, Flat(members, prefix)) <==> BareArray(members, prefix, at)
  {
    hide Flat, StartsWith, NodeAt, Split;
    var flat := Flat(members, prefix);
    if Inconclusive(at, flat) {
      ArrayNodeExists(members, prefix, at);
      forall p, node | NodeAt(members, prefix, p, node) ensures !StartsWith(p, at + "[]") {
        NodeIsStored(members, prefix, p, node);
      }
    }
    if BareArray(members, prefix, at) {
      var node :| NodeAt(members, prefix, at, node) && node.Array?;
      ArrayIsStored(members, prefix, at, node);
      forall candidate | candidate in flat ensures !StartsWith(candidate, at + "[]") {
        var other := StoredIsNode(members, prefix, candidate);
      }
    }
  }

  lemma ArrayIsStored(members: seq<Member>, prefix: string, at: string, node: Json)
    requires NodeAt(members, prefix, at, node) && node.Array?
    ensures at in Flat(members, prefix) && "array" in Split(Flat(members, prefix)[at])
  {
    hide Flat, Split, TopPath;
    NodeIsStored(members, prefix, at, node);
    ArrayName(node);
    SchemaEntriesAreNodes(members, prefix, Entry(at, "array"));
    FlatIsExact(members, prefix, at, "array");
  }

  /** A missing path is excused exactly below a bare array. */
  lemma ExcusedIff(members: seq<Member>, prefix: string, path: string)
    ensures IsBelowInconclusiveArray(path, Flat(members, prefix))
       <==> exists at :: BareArray(members, prefix, at) && StartsWith(path, at + "[]")
  {
    hide Inconclusive, BareArray, StartsWith;
    forall at ensures Inconclusive(at, Flat(members, prefix)) <==> BareArray(members, prefix, at) {
      InconclusiveIff(members, prefix, at);
    }
    if at :| BareArray(members, prefix, at) && StartsWith(path, at + "[]") {
      InconclusiveStored(at, Flat(members, prefix));
    }
  }

  lemma InconclusiveStored(at: string, flat: map<string, string>)
    requires Inconclusive(at, flat)
    ensures at in flat
  {
  }

  /** In particular an array was seen there and every array inspected there is empty. */
  lemma ExcusedOnlyBelowEmptyArrays(members: seq<Member>, prefix: string, path: string)
    requires IsBelowInconclusiveArray(path, Flat(members, prefix))
    ensures exists at :: BelowEmptyArrays(members, prefix, path, at)
  {
    hide Inconclusive;
    var at :| at in Flat(members, prefix) && Inconclusive(at, Flat(members, prefix)) && StartsWith(path, at + "[]");
    InconclusiveMeansEmpty(members, prefix, at);
    assert BelowEmptyArrays(members, prefix, path, at);
  }

  ghost predicate BelowEmptyArrays(members: seq<Member>, prefix: string, path: string, at: string) {
    StartsWith(path, at + "[]")
    && NodeAt(members, prefix, at, Array([]))
    && forall node | NodeAt(members, prefix, at, node) && node.Array? :: node.items == []
  }

  /** Two payloads do not drift exactly when each current path is known with the same set of types, bar excused absences. */
  lemma {:induction false} NoDriftIff(accepted: seq<Member>, observed: seq<Member>)
    ensures DiffContract(Flat(accepted, ""), Flat(observed, "")) == NoDiff
       <==> SameTypesWhereSeen(SchemaEntries(accepted, ""), SchemaEntries(observed, ""), Flat(observed, ""))
  {
    hide SchemaEntries, Named, TypeSet, Canonical, DiffContract, IsBelowInconclusiveArray, TypesAt;
    var a, o := SchemaEntries(accepted, ""), SchemaEntries(observed, "");
    var previous, current := Flat(accepted, ""), Flat(observed, "");
    DiffEmptyIff(previous, current);
    SchemaEntriesNamed(accepted, "");
    SchemaEntriesNamed(observed, "");
    forall p | p in current
      ensures (p in previous && previous[p] == current[p]) <==> TypesAt(a, p) == TypesAt(o, p)
    {
      SameUnionIff(a, o, p);
    }
  }

  ghost predicate SameTypesWhereSeen(accepted: set<Entry>, observed: set<Entry>, flat: map<string, string>) {
    (forall p | p in Paths(observed) :: TypesAt(accepted, p) == TypesAt(observed, p))
    && forall p | p in Paths(accepted) && p !in Paths(observed) :: IsBelowInconclusiveArray(p, flat)
  }

  lemma TypesSeen(s: set<Entry>, p: string)
    requires p in Paths(s)
    ensures TypesAt(s, p) != {}
  {
    var e :| e in s && e.path == p;
    assert e.typ in TypesAt(s, p);
  }

  lemma SameUnionIff(a: set<Entry>, o: set<Entry>, p: string)
    requires Named(a) && Named(o) && p in Paths(o)
    ensures (p in Render(a) && Render(a)[p] == Render(o)[p]) <==> TypesAt(a, p) == TypesAt(o, p)
  {
    hide Named, Canonical, TypeSet;
    TypesAtNamed(o, p);
    TypesSeen(o, p);
    if p in Paths(a) {
      TypesAtNamed(a, p);
      CanonicalInjective(TypesAt(a, p), TypesAt(o, p));
    } else {
      assert TypesAt(a, p) == {};
    }
  }

  // ---------- grading ----------

  datatype EventType = NoEvent | NonBreaking | Breaking
  datatype Severity = NoSeverity | Low | Medium | High | Critical

  /** `_compatibility_score`; every value it takes is a whole number. */
  function CompatibilityScore(d: Diff): int {
    Max(MIN_SCORE, MAX_SCORE - |d.added| * PENALTY_ADDED - |d.removed| * PENALTY_REMOVED
                   - |d.typeChanged| * PENALTY_TYPE_CHANGE)
  }

  function EventTypeOf(d: Diff): EventType {
    if d.removed != [] || d.typeChanged != map[] then Breaking
    else if d.added != [] then NonBreaking
    else NoEvent
  }

  function SeverityOf(event: EventType, score: int): Severity {
    if event == NoEvent then NoSeverity
    else if score >= 90 then Low
    else if score >= 75 then Medium
    else if score >= 50 then High
    else Critical
  }

  predicate RequiresIncidentResponse(event: EventType, severity: Severity) {
    severity == Critical || event == Breaking
  }

  /** The penalty points of a diff: 2 for each added field, 20 for each removed one, 15 for each changed type. */
  function Points(d: Diff): nat { 2 * |d.added| + 20 * |d.removed| + 15 * |d.typeChanged| }

  /** The score is what 100 leaves of the points; severity goes by the points: up to 10 low, up to 25 medium, up to 50
      high, more critical. Anything removed or changed breaks the contract. */
  ghost predicate Graded(d: Diff, event: EventType, severity: Severity, score: int) {
    && score == (if Points(d) <= 100 then 100 - Points(d) else 0)
    && (event == NoEvent <==> Points(d) == 0) && (event == Breaking <==> |d.removed| + |d.typeChanged| > 0)
    && (severity == NoSeverity <==> Points(d) == 0)
    && (severity == Low <==> 1 <= Points(d) <= 10)
    && (severity == Medium <==> 11 <= Points(d) <= 25)
    && (severity == High <==> 26 <= Points(d) <= 50)
    && (severity == Critical <==> Points(d) >= 51)
  }

  /** Every diff is graded so. */
  lemma GradeIsExact(d: Diff)
    ensures var score := CompatibilityScore(d);
            Graded(d, EventTypeOf(d), SeverityOf(EventTypeOf(d), score), score)
    ensures Points(d) == 0 <==> d == NoDiff
  {
    assert d.typeChanged != map[] <==> |d.typeChanged| >= 1;
  }

  /** What the grade of an exact diff means for the response: a drift is answered exactly when it breaks something or adds more than 25 fields. */
  lemma ResponseIff(d: Diff)
    ensures RequiresIncidentResponse(EventTypeOf(d), SeverityOf(EventTypeOf(d), CompatibilityScore(d)))
       <==> (d.removed != [] || d.typeChanged != map[] || |d.added| > 25)
  {
  }

  /** And for its severity: a breaking drift is never graded low, and five added fields are the most that is. */
  lemma LowSeverityIff(d: Diff)
    ensures SeverityOf(EventTypeOf(d), CompatibilityScore(d)) == Low
       <==> (d.removed == [] && d.typeChanged == map[] && 1 <= |d.added| <= 5)
  {
    assert d.typeChanged != map[] ==> |d.typeChanged| >= 1;
  }
}
