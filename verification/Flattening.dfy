/** Flattening a JSON payload into a map from path strings to type unions. */
module Flattening {
  import opened Basics
  import opened TypeUnions

  const ARRAY_INSPECTION_LIMIT: nat := 20

  /** A decoded payload; a dict is its items in iteration order. */
  datatype Json =
    | Null
    | Boolean(truth: bool)
    | Number(number: real)
    | Text(text: string)
    | Array(items: seq<Json>)
    | Object(members: seq<Member>)
    | Other

  datatype Member = Member(key: string, value: Json)

  /** `_value_type`. */
  function TypeName(v: Json): (t: string)
    ensures Clean(t) && t != ""
  {
    match v
    case Null => "null"
    case Boolean(_) => "boolean"
    case Number(_) => "number"
    case Text(_) => "string"
    case Array(_) => "array"
    case Object(_) => "object"
    case Other => "unknown"
  }

  // ---------- the nodes of a payload ----------

  /** How many children of a node are inspected. */
  function Width(v: Json): nat {
    match v
    case Object(members) => |members|
    case Array(items) => Min(|items|, ARRAY_INSPECTION_LIMIT)
    case _ => 0
  }

  function Child(v: Json, i: nat): (c: Json)
    requires i < Width(v)
    ensures c < v
  {
    if v.Object? then v.members[i].value else v.items[i]
  }

  /** What a child adds to the path of its parent. */
  function Label(v: Json, i: nat): string
    requires i < Width(v)
  {
    if v.Object? then "." + v.members[i].key else "[]"
  }

  /** One node seen at one path. */
  datatype Entry = Entry(path: string, typ: string)

  /** Following the child numbers in `address` from `v`, which renders to `path`, leads to `node`, which renders to `at`. */
  ghost predicate Reaches(v: Json, path: string, address: seq<nat>, at: string, node: Json)
    decreases |address|
  {
    if address == [] then at == path && node == v
    else address[0] < Width(v)
         && Reaches(Child(v, address[0]), path + Label(v, address[0]), address[1..], at, node)
  }

  /** Some node within the inspection limit renders to `e.path` and has type `e.typ`. */
  ghost predicate Occurs(v: Json, path: string, e: Entry) {
    exists address, node :: Reaches(v, path, address, e.path, node) && TypeName(node) == e.typ
  }

  // ---------- all entries of a payload ----------

  function Entries(v: Json, path: string): (s: set<Entry>)
    decreases v, Width(v) + 1
  {
    {Entry(path, TypeName(v))} + ChildEntries(v, path, Width(v))
  }

  /** The entries below the first `n` children. */
  function ChildEntries(v: Json, path: string, n: nat): set<Entry>
    requires n <= Width(v)
    decreases v, n
  {
    if n == 0 then {}
    else ChildEntries(v, path, n - 1) + Entries(Child(v, n - 1), path + Label(v, n - 1))
  }

  ghost predicate InChild(v: Json, path: string, i: nat, e: Entry)
    requires i < Width(v)
  {
    e in Entries(Child(v, i), path + Label(v, i))
  }

  lemma {:induction false} ChildEntriesAre(v: Json, path: string, n: nat, e: Entry)
    requires n <= Width(v)
    ensures e in ChildEntries(v, path, n) <==> exists i | 0 <= i < n :: InChild(v, path, i, e)
  {
    hide Entries, Width, Label;
    if n > 0 {
      ChildEntriesAre(v, path, n - 1, e);
      assert InChild(v, path, n - 1, e) <==> e in Entries(Child(v, n - 1), path + Label(v, n - 1));
    }
  }

  /** The entries are exactly the nodes within the limit. */
  lemma EntriesAreNodes(v: Json, path: string, e: Entry)
    ensures e in Entries(v, path) <==> Occurs(v, path, e)
  {
    hide Entries, TypeName;
    if e in Entries(v, path) { EntriesOccur(v, path, e); }
    if address: seq<nat>, node :| Reaches(v, path, address, e.path, node) && TypeName(node) == e.typ {
      NodesAreEntries(v, path, address, e.path, node);
    }
  }

  lemma {:induction false} EntriesOccur(v: Json, path: string, e: Entry)
    requires e in Entries(v, path)
    ensures Occurs(v, path, e)
    decreases v
  {
    hide Width, Label, Child, TypeName, ChildEntries;
    ChildEntriesAre(v, path, Width(v), e);
    if e == Entry(path, TypeName(v)) {
      assert Reaches(v, path, [], e.path, v);
    } else {
      var i :| 0 <= i < Width(v) && InChild(v, path, i, e);
      EntriesOccur(Child(v, i), path + Label(v, i), e);
      var rest, node :| Reaches(Child(v, i), path + Label(v, i), rest, e.path, node) && TypeName(node) == e.typ;
      assert ([i] + rest)[1..] == rest;
      assert Reaches(v, path, [i] + rest, e.path, node);
    }
  }

  lemma {:induction false} NodesAreEntries(v: Json, path: string, address: seq<nat>, at: string, node: Json)
    requires Reaches(v, path, address, at, node)
    ensures Entry(at, TypeName(node)) in Entries(v, path)
    decreases |address|
  {
    hide Width, Label, Child, TypeName, ChildEntries;
    if address != [] {
      var i := address[0];
      NodesAreEntries(Child(v, i), path + Label(v, i), address[1..], at, node);
      ChildEntriesAre(v, path, Width(v), Entry(at, TypeName(node)));
      assert InChild(v, path, i, Entry(at, TypeName(node)));
    }
  }

  /** The first element of a nonempty array is inspected too. */
  lemma {:induction false} ElementsAreNodes(v: Json, path: string, address: seq<nat>, at: string, node: Json)
    requires Reaches(v, path, address, at, node) && node.Array? && node.items != []
    ensures Reaches(v, path, address + [0], at + "[]", node.items[0])
    decreases |address|
  {
    if address != [] {
      ElementsAreNodes(Child(v, address[0]), path + Label(v, address[0]), address[1..], at, node);
      assert (address + [0])[1..] == address[1..] + [0];
    }
  }

  // ---------- the stored form of a set of entries ----------

  function Paths(s: set<Entry>): set<string> { set e | e in s :: e.path }

  function TypesAt(s: set<Entry>, path: string): set<string> { set e | e in s && e.path == path :: e.typ }

  function Render(s: set<Entry>): map<string, string> {
    map path | path in Paths(s) :: Canonical(TypesAt(s, path))
  }

  ghost predicate Named(s: set<Entry>) { forall e | e in s :: Clean(e.typ) && e.typ != "" }

  lemma {:induction false} EntriesNamed(v: Json, path: string)
    ensures Named(Entries(v, path))
    decreases v, Width(v) + 1
  {
    ChildEntriesNamed(v, path, Width(v));
  }

  lemma {:induction false} ChildEntriesNamed(v: Json, path: string, n: nat)
    requires n <= Width(v)
    ensures Named(ChildEntries(v, path, n))
    decreases v, n
  {
    if n > 0 {
      ChildEntriesNamed(v, path, n - 1);
      EntriesNamed(Child(v, n - 1), path + Label(v, n - 1));
    }
  }

  lemma TypesAtNamed(s: set<Entry>, path: string)
    requires Named(s) && path in Paths(s)
    ensures TypeSet(TypesAt(s, path)) && "" !in TypesAt(s, path)
  {
    var e :| e in s && e.path == path;
    assert e.typ in TypesAt(s, path);
  }

  /** Two stored forms are equal exactly when the same types occur at the same paths. */
  lemma RenderInjective(a: set<Entry>, b: set<Entry>)
    requires Named(a) && Named(b)
    ensures Render(a) == Render(b) <==> a == b
  {
    hide Canonical, TypeSet, Named;
    if Render(a) == Render(b) {
      RenderIncludes(a, b);
      RenderIncludes(b, a);
    }
  }

  lemma RenderIncludes(a: set<Entry>, b: set<Entry>)
    requires Named(a) && Named(b) && Render(a) == Render(b)
    ensures a <= b
  {
    hide Canonical, TypeSet, Named;
    forall e | e in a ensures e in b {
      assert e.path in Render(a) && e.path in Render(b);
      TypesAtNamed(a, e.path);
      TypesAtNamed(b, e.path);
      assert Render(a)[e.path] == Render(b)[e.path];
      CanonicalInjective(TypesAt(a, e.path), TypesAt(b, e.path));
      assert e.typ in TypesAt(a, e.path);
      assert Entry(e.path, e.typ) == e;
    }
  }

  // ---------- merging ----------

  /** What `_merge_flat_schema` leaves at one path that was observed. */
  function MergedAt(target: map<string, string>, path: string, observed: string): string {
    if path in target && target[path] != "" then MergeTypes(target[path], observed) else observed
  }

  function Merged(target: map<string, string>, observed: map<string, string>): map<string, string> {
    map path | path in target.Keys + observed.Keys ::
      if path in observed then MergedAt(target, path, observed[path]) else target[path]
  }

  /** Merging the stored forms stores the union of the entries. */
  lemma MergeRenders(a: set<Entry>, b: set<Entry>)
    requires Named(a) && Named(b)
    ensures Merged(Render(a), Render(b)) == Render(a + b)
  {
    hide Canonical, TypeSet, Named, MergeTypes;
    var m := Merged(Render(a), Render(b));
    assert Paths(a + b) == Paths(a) + Paths(b);
    assert m.Keys == Render(a + b).Keys;
    forall p | p in Paths(a + b) ensures m[p] == Canonical(TypesAt(a + b, p)) {
      assert TypesAt(a + b, p) == TypesAt(a, p) + TypesAt(b, p);
      if p in Paths(a) { TypesAtNamed(a, p); NonEmptyCanonical(TypesAt(a, p)); }
      if p in Paths(b) { TypesAtNamed(b, p); }
      if p in Paths(a) && p in Paths(b) {
        MergeIsUnion(TypesAt(a, p), TypesAt(b, p));
      } else if p in Paths(a) {
        assert TypesAt(b, p) == {};
        assert TypesAt(a + b, p) == TypesAt(a, p);
      } else {
        assert TypesAt(a, p) == {};
        assert TypesAt(a + b, p) == TypesAt(b, p);
      }
    }
  }

  /** A dict under construction. */
  class FlatSchema {
    var entries: map<string, string>

    constructor (initial: map<string, string>)
      ensures entries == initial
    {
      entries := initial;
    }

    /** `_merge_flat_schema`; the dict's iteration order does not matter. */
    method Merge(observed: map<string, string>)
      modifies this
      ensures entries == Merged(old(entries), observed)
    {
      hide MergeTypes;
      var todo := observed.Keys;
      while todo != {}
        invariant todo <= observed.Keys
        invariant entries.Keys == old(entries).Keys + (observed.Keys - todo)
        invariant forall p | p in entries ::
            entries[p] == if p in observed && p !in todo then MergedAt(old(entries), p, observed[p])
                          else old(entries)[p]
      {
        var path :| path in todo;
        if path in entries && entries[path] != "" {
          entries := entries[path := MergeTypes(entries[path], observed[path])];
        } else {
          entries := entries[path := observed[path]];
        }
        todo := todo - {path};
      }
    }
  }

  /** `_flatten_value`: each path of the result carries the union of the types of all nodes that render to it. */
  method FlattenValue(value: Json, path: string) returns (flat: map<string, string>)
    ensures flat == Render(Entries(value, path))
    decreases value
  {
    ghost var self := {Entry(path, TypeName(value))};
    assert Named(self);
    hide Merged, Render, Named, TypeName;
    var schema := new FlatSchema(map[path := TypeName(value)]);
    RenderOne(path, TypeName(value));
    assert self + ChildEntries(value, path, 0) == self;
    Children(value);
    assert Render(Entries(value, path)) == Render(self + ChildEntries(value, path, Width(value)));
    hide Entries, ChildEntries, Width, Child, Label, Min;
    if value.Object? {
      for n := 0 to |value.members|
        invariant fresh(schema)
        invariant schema.entries == Render(self + ChildEntries(value, path, n))
      {
        var member := value.members[n];
        assert path + "." + member.key == path + ("." + member.key);
        var observed := FlattenValue(member.value, path + "." + member.key);
        NextChild(value, path, n, self);
        schema.Merge(observed);
      }
    } else if value.Array? {
      var inspected := value.items[..Min(|value.items|, ARRAY_INSPECTION_LIMIT)];
      for n := 0 to |inspected|
        invariant fresh(schema)
        invariant schema.entries == Render(self + ChildEntries(value, path, n))
      {
        assert inspected[n] == value.items[n];
        var observed := FlattenValue(inspected[n], path + "[]");
        NextChild(value, path, n, self);
        schema.Merge(observed);
      }
    }
    flat := schema.entries;
  }

  /** The inspected children of each kind of value. */
  lemma Children(v: Json)
    ensures v.Object? ==> Width(v) == |v.members|
    ensures v.Object? ==>
      forall n | 0 <= n < |v.members| :: Child(v, n) == v.members[n].value && Label(v, n) == "." + v.members[n].key
    ensures v.Array? ==> Width(v) == Min(|v.items|, ARRAY_INSPECTION_LIMIT)
    ensures v.Array? ==>
      forall n | 0 <= n < Width(v) :: n < |v.items| && Child(v, n) == v.items[n] && Label(v, n) == "[]"
    ensures v.Object? || v.Array? || Width(v) == 0
    ensures v.Array? ==> Min(|v.items|, ARRAY_INSPECTION_LIMIT) <= |v.items|
  {
  }

  lemma RenderOne(path: string, typ: string)
    requires Clean(typ)
    ensures Render({Entry(path, typ)}) == map[path := typ]
  {
    var s := {Entry(path, typ)};
    assert Paths(s) == {path} && TypesAt(s, path) == {typ};
    SortedOne(typ);
  }

  lemma SortedOne(typ: string)
    ensures Sorted({typ}) == [typ]
  {
    var xs := Sorted({typ});
    TwoElements(xs);
    assert Elements([]) == {};
    assert |Elements(xs)| == 1;
    assert xs[0] in Elements(xs);
  }

  lemma TwoElements(xs: seq<string>)
    requires Ascending(xs)
    ensures |xs| > 1 ==> |Elements(xs)| > 1
  {
    if |xs| > 1 {
      var two := {xs[0], xs[1]};
      assert |two| == 2;
      SubsetIsSmaller(two, Elements(xs));
    }
  }

  lemma {:induction false} NextChild(v: Json, path: string, n: nat, self: set<Entry>)
    requires n < Width(v) && Named(self)
    ensures Merged(Render(self + ChildEntries(v, path, n)), Render(Entries(Child(v, n), path + Label(v, n))))
         == Render(self + ChildEntries(v, path, n + 1))
  {
    hide Merged, Render;
    ChildEntriesNamed(v, path, n);
    EntriesNamed(Child(v, n), path + Label(v, n));
    MergeRenders(self + ChildEntries(v, path, n), Entries(Child(v, n), path + Label(v, n)));
    assert self + ChildEntries(v, path, n) + Entries(Child(v, n), path + Label(v, n))
        == self + ChildEntries(v, path, n + 1);
  }

  // ---------- a whole payload ----------

  /** The path of a top-level field has no leading dot. */
  function TopPath(prefix: string, key: string): string {
    if prefix != "" then prefix + "." + key else key
  }

  function SchemaEntries(members: seq<Member>, prefix: string): set<Entry>
  {
    if members == [] then {}
    else
      var last := members[|members| - 1];
      SchemaEntries(members[..|members| - 1], prefix) + Entries(last.value, TopPath(prefix, last.key))
  }

  lemma {:induction false} SchemaEntriesNamed(members: seq<Member>, prefix: string)
    ensures Named(SchemaEntries(members, prefix))
  {
    if members != [] {
      var last := members[|members| - 1];
      SchemaEntriesNamed(members[..|members| - 1], prefix);
      EntriesNamed(last.value, TopPath(prefix, last.key));
    }
  }

  lemma NoFields(prefix: string)
    ensures Render(SchemaEntries([], prefix)) == map[]
  {
    assert Paths({}) == {};
  }

  lemma NextField(members: seq<Member>, prefix: string, n: nat)
    requires n < |members|
    ensures SchemaEntries(members[..n + 1], prefix) == SchemaEntries(members[..n], prefix)
        + Entries(members[n].value, TopPath(prefix, members[n].key))
  {
    hide Entries, TopPath;
    assert members[..n + 1][..n] == members[..n];
  }

  /** `_flatten_schema`. */
  method FlattenSchema(members: seq<Member>, prefix: string) returns (flat: map<string, string>)
    ensures flat == Flat(members, prefix)
  {
    hide Merged, Entries, Named, SchemaEntries, Render;
    var schema := new FlatSchema(map[]);
    NoFields(prefix);
    for n := 0 to |members|
      invariant fresh(schema)
      invariant schema.entries == Render(SchemaEntries(members[..n], prefix))
    {
      var path := TopPath(prefix, members[n].key);
      var observed := FlattenValue(members[n].value, path);
      NextField(members, prefix, n);
      SchemaEntriesNamed(members[..n], prefix);
      EntriesNamed(members[n].value, path);
      MergeRenders(SchemaEntries(members[..n], prefix), Entries(members[n].value, path));
      schema.Merge(observed);
    }
    assert members[..|members|] == members;
    flat := schema.entries;
  }

  /** The stored structure of a payload. */
  function Flat(members: seq<Member>, prefix: string): map<string, string> {
    Render(SchemaEntries(members, prefix))
  }

  ghost predicate InField(field: Member, prefix: string, e: Entry) {
    Occurs(field.value, TopPath(prefix, field.key), e)
  }

  /** Some node of the payload renders to `e.path` with type `e.typ`. */
  ghost predicate InPayload(members: seq<Member>, prefix: string, e: Entry) {
    exists field | field in members :: InField(field, prefix, e)
  }

  lemma {:induction false} SchemaEntriesAreNodes(members: seq<Member>, prefix: string, e: Entry)
    ensures e in SchemaEntries(members, prefix) <==> InPayload(members, prefix, e)
  {
    hide Entries, Occurs, TopPath;
    if members != [] {
      var last := members[|members| - 1];
      var rest := members[..|members| - 1];
      SchemaEntriesAreNodes(rest, prefix, e);
      EntriesAreNodes(last.value, TopPath(prefix, last.key), e);
      assert members == rest + [last];
      assert InField(last, prefix, e) <==> e in Entries(last.value, TopPath(prefix, last.key));
    }
  }

  /** A path is stored exactly when some inspected node renders to it, and its union names exactly the types of those nodes. */
  lemma FlatIsExact(members: seq<Member>, prefix: string, path: string, typ: string)
    ensures (path in Flat(members, prefix) && typ in TypesOf(Flat(members, prefix)[path]))
       <==> InPayload(members, prefix, Entry(path, typ))
    ensures path in Flat(members, prefix) ==>
        Flat(members, prefix)[path] == Canonical(TypesAt(SchemaEntries(members, prefix), path))
  {
    hide SchemaEntries, Named, TypeSet, InPayload, Canonical;
    var s := SchemaEntries(members, prefix);
    SchemaEntriesNamed(members, prefix);
    SchemaEntriesAreNodes(members, prefix, Entry(path, typ));
    if path in Paths(s) {
      TypesAtNamed(s, path);
      CanonicalRoundTrip(TypesAt(s, path));
    }
  }

  // ---------- what the structure does not depend on ----------

  /** Equal up to the order of dict items, the order and multiplicity of inspected elements, uninspected elements and scalar values. */
  ghost predicate SameShape(v: Json, w: Json)
    decreases v, 2
  {
    TypeName(v) == TypeName(w)
    && (forall i | 0 <= i < Width(v) :: HasMatch(v, i, w))
    && (forall j | 0 <= j < Width(w) :: IsMatched(v, w, j))
  }

  /** Child `i` of `v` and child `j` of `w` have one label and one shape. */
  ghost predicate Paired(v: Json, i: nat, w: Json, j: nat)
    requires i < Width(v) && j < Width(w)
    decreases v, 0
  {
    Label(v, i) == Label(w, j) && SameShape(Child(v, i), Child(w, j))
  }

  ghost predicate HasMatch(v: Json, i: nat, w: Json)
    requires i < Width(v)
    decreases v, 1
  {
    exists j | 0 <= j < Width(w) :: Paired(v, i, w, j)
  }

  ghost predicate IsMatched(v: Json, w: Json, j: nat)
    requires j < Width(w)
    decreases v, 1
  {
    exists i | 0 <= i < Width(v) :: Paired(v, i, w, j)
  }

  lemma {:induction false} SameShapeSameEntries(v: Json, w: Json, path: string)
    requires SameShape(v, w)
    ensures Entries(v, path) == Entries(w, path)
    decreases v, 3
  {
    assert TypeName(v) == TypeName(w);
    hide Width, ChildEntries, SameShape;
    forall e ensures e in ChildEntries(v, path, Width(v)) <==> e in ChildEntries(w, path, Width(w)) {
      if e in ChildEntries(v, path, Width(v)) { ShapeForward(v, w, path, e); }
      if e in ChildEntries(w, path, Width(w)) { ShapeBack(v, w, path, e); }
    }
    assert ChildEntries(v, path, Width(v)) == ChildEntries(w, path, Width(w));
  }

  lemma {:induction false} ShapeForward(v: Json, w: Json, path: string, e: Entry)
    requires SameShape(v, w) && e in ChildEntries(v, path, Width(v))
    ensures e in ChildEntries(w, path, Width(w))
    decreases v, 2
  {
    hide TypeName, Width, ChildEntries, Paired, Entries, InChild, IsMatched;
    ChildEntriesAre(v, path, Width(v), e);
    ChildEntriesAre(w, path, Width(w), e);
    var i :| 0 <= i < Width(v) && InChild(v, path, i, e);
    assert HasMatch(v, i, w);
    var j :| 0 <= j < Width(w) && Paired(v, i, w, j);
    PairedSameEntries(v, i, w, j, path, e);
  }

  lemma {:induction false} ShapeBack(v: Json, w: Json, path: string, e: Entry)
    requires SameShape(v, w) && e in ChildEntries(w, path, Width(w))
    ensures e in ChildEntries(v, path, Width(v))
    decreases v, 2
  {
    hide TypeName, Width, ChildEntries, Paired, Entries, InChild, HasMatch;
    ChildEntriesAre(v, path, Width(v), e);
    ChildEntriesAre(w, path, Width(w), e);
    var j :| 0 <= j < Width(w) && InChild(w, path, j, e);
    assert IsMatched(v, w, j);
    var i :| 0 <= i < Width(v) && Paired(v, i, w, j);
    PairedSameEntries(v, i, w, j, path, e);
  }

  lemma {:induction false} PairedSameEntries(v: Json, i: nat, w: Json, j: nat, path: string, e: Entry)
    requires i < Width(v) && j < Width(w) && Paired(v, i, w, j)
    ensures InChild(v, path, i, e) <==> InChild(w, path, j, e)
    decreases v, 0
  {
    hide TypeName, Width, Label, Entries, SameShape;
    SameShapeSameEntries(Child(v, i), Child(w, j), path + Label(v, i));
  }

  /** Two top-level fields with one key and one shape. */
  ghost predicate Alike(x: Member, y: Member) { x.key == y.key && SameShape(x.value, y.value) }

  /** Payloads of one shape flatten alike, whatever the order of their fields. */
  lemma SameShapeSameFlat(a: seq<Member>, b: seq<Member>, prefix: string)
    requires forall x | x in a :: HasAlike(x, b)
    requires forall y | y in b :: HasAlike(y, a)
    ensures Flat(a, prefix) == Flat(b, prefix)
  {
    hide Alike, Render, SchemaEntries, HasAlike;
    forall e ensures e in SchemaEntries(a, prefix) <==> e in SchemaEntries(b, prefix) {
      if e in SchemaEntries(a, prefix) { AlikeEntries(a, b, prefix, e); }
      if e in SchemaEntries(b, prefix) { AlikeEntries(b, a, prefix, e); }
    }
    assert SchemaEntries(a, prefix) == SchemaEntries(b, prefix);
  }

  ghost predicate HasAlike(x: Member, fields: seq<Member>) { exists y | y in fields :: Alike(x, y) }

  lemma AlikeEntries(a: seq<Member>, b: seq<Member>, prefix: string, e: Entry)
    requires forall x | x in a :: HasAlike(x, b)
    requires e in SchemaEntries(a, prefix)
    ensures e in SchemaEntries(b, prefix)
  {
    hide Alike, SchemaEntries, InField;
    SchemaEntriesAreNodes(a, prefix, e);
    SchemaEntriesAreNodes(b, prefix, e);
    var x :| x in a && InField(x, prefix, e);
    assert HasAlike(x, b);
    var y :| y in b && Alike(x, y);
    SameField(x, y, prefix, e);
  }

  lemma SameField(x: Member, y: Member, prefix: string, e: Entry)
    requires Alike(x, y)
    ensures InField(x, prefix, e) <==> InField(y, prefix, e)
  {
    hide SameShape, Entries, Occurs, TopPath;
    var path := TopPath(prefix, x.key);
    SameShapeSameEntries(x.value, y.value, path);
    EntriesAreNodes(x.value, path, e);
    EntriesAreNodes(y.value, path, e);
  }

  lemma {:induction false} SameShapeReflexive(v: Json)
    ensures SameShape(v, v)
    decreases v
  {
    hide TypeName, Width, Label, Child;
    forall i | 0 <= i < Width(v) ensures HasMatch(v, i, v) && IsMatched(v, v, i) {
      SameShapeReflexive(Child(v, i));
      assert Paired(v, i, v, i);
    }
  }

  /** Reordering dict items, or the inspected elements of an array, and changing what lies past the limit keeps the shape. */
  lemma ReorderedSameShape(v: Json, w: Json, to: seq<nat>)
    requires TypeName(v) == TypeName(w) && Width(v) == Width(w) == |to|
    requires forall i | 0 <= i < |to| :: i in to
    requires forall j | 0 <= j < |to| :: to[j] < |to| && SameChild(w, j, v, to[j])
    ensures SameShape(v, w)
  {
    hide TypeName, Width, Label, Child, Paired, SameChild;
    forall i | 0 <= i < Width(v) ensures HasMatch(v, i, w) {
      assert i in to;
      var j :| 0 <= j < |to| && to[j] == i;
      SameChildPaired(v, i, w, j);
    }
    forall j | 0 <= j < Width(w) ensures IsMatched(v, w, j) {
      SameChildPaired(v, to[j], w, j);
    }
  }

  ghost predicate SameChild(w: Json, j: nat, v: Json, i: nat)
    requires i < Width(v) && j < Width(w)
  {
    Label(w, j) == Label(v, i) && Child(w, j) == Child(v, i)
  }

  lemma SameChildPaired(v: Json, i: nat, w: Json, j: nat)
    requires i < Width(v) && j < Width(w) && SameChild(w, j, v, i)
    ensures Paired(v, i, w, j)
  {
    hide SameShape, Width, Label;
    SameShapeReflexive(Child(v, i));
  }

  /** Elements past the inspection limit have no effect. */
  lemma UninspectedElementsDoNotCount(items: seq<Json>, more: seq<Json>, path: string)
    requires |items| >= ARRAY_INSPECTION_LIMIT
    ensures Entries(Array(items + more), path) == Entries(Array(items[..ARRAY_INSPECTION_LIMIT]), path)
  {
    var v, w := Array(items + more), Array(items[..ARRAY_INSPECTION_LIMIT]);
    assert Width(v) == Width(w) == ARRAY_INSPECTION_LIMIT;
    var to := seq(ARRAY_INSPECTION_LIMIT, i requires 0 <= i < ARRAY_INSPECTION_LIMIT => i as nat);
    forall i | 0 <= i < |to| ensures i in to { assert to[i] == i; }
    ReorderedSameShape(v, w, to);
    SameShapeSameEntries(v, w, path);
  }
}
