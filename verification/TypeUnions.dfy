/** Type unions as the "|"-joined, sorted strings the contract code stores. */
module TypeUnions {

  const SEPARATOR: char := '|'

  // ---------- sorted(): Python's order on strings ----------

  /** Lexicographic order by code point. */
  predicate Le(a: string, b: string) {
    a == [] || (b != [] && (a[0] < b[0] || (a[0] == b[0] && Le(a[1..], b[1..]))))
  }

  lemma {:induction false} LeTotal(a: string, b: string)
    ensures Le(a, b) || Le(b, a)
    ensures Le(a, b) && Le(b, a) ==> a == b
  {
    if a != [] && b != [] {
      LeTotal(a[1..], b[1..]);
      assert a == [a[0]] + a[1..] && b == [b[0]] + b[1..];
    }
  }

  lemma {:induction false} LeTransitive(a: string, b: string, c: string)
    requires Le(a, b) && Le(b, c)
    ensures Le(a, c)
  {
    if a != [] && a[0] == b[0] == c[0] { LeTransitive(a[1..], b[1..], c[1..]); }
  }

  predicate Least(m: string, s: set<string>) { m in s && forall x | x in s :: Le(m, x) }

  lemma {:induction false} LeastExists(s: set<string>)
    requires s != {}
    ensures exists m :: Least(m, s)
  {
    hide Le;
    var y :| y in s;
    LeTotal(y, y);
    if s == {y} {
      assert Least(y, s);
    } else {
      LeastExists(s - {y});
      var m :| Least(m, s - {y});
      LeTotal(m, y);
      if Le(m, y) {
        assert Least(m, s);
      } else {
        forall x | x in s ensures Le(y, x) {
          if x != y { LeTransitive(y, m, x); }
        }
        assert Least(y, s);
      }
    }
  }

  lemma LeastUnique(s: set<string>)
    ensures forall m, n | Least(m, s) && Least(n, s) :: m == n
  {
    forall m, n | Least(m, s) && Least(n, s) ensures m == n {
      LeTotal(m, n);
    }
  }

  ghost predicate Ascending(xs: seq<string>) {
    forall i, j | 0 <= i < j < |xs| :: xs[i] != xs[j] && Le(xs[i], xs[j])
  }

  function Elements(xs: seq<string>): set<string> { set x | x in xs }

  lemma Prepend(m: string, s: set<string>, rest: seq<string>)
    requires Least(m, s) && Ascending(rest) && Elements(rest) == s - {m}
    ensures Ascending([m] + rest) && Elements([m] + rest) == s
  {
    hide Le;
    assert forall x | x in rest :: x in Elements(rest);
    var xs := [m] + rest;
    forall i, j | 0 <= i < j < |xs| ensures xs[i] != xs[j] && Le(xs[i], xs[j]) {
      assert xs[j] == rest[j - 1] && rest[j - 1] in Elements(rest);
      if i > 0 { assert xs[i] == rest[i - 1]; }
    }
    forall x | x in s ensures x in xs {
      if x != m { assert x in Elements(rest); }
    }
  }

  /** `sorted(s)`. */
  function Sorted(s: set<string>): (xs: seq<string>)
    ensures Ascending(xs) && Elements(xs) == s
  {
    if s == {} then []
    else
      LeastExists(s);
      LeastUnique(s);
      var m :| m in s && Least(m, s);
      var rest := Sorted(s - {m});
      Prepend(m, s, rest);
      [m] + rest
  }

  // ---------- split and join ----------

  function Split(s: string): (parts: seq<string>)
    ensures parts != []
  {
    if s == [] then [""]
    else
      var rest := Split(s[1..]);
      if s[0] == SEPARATOR then [""] + rest else [[s[0]] + rest[0]] + rest[1..]
  }

  function Join(xs: seq<string>): string {
    if xs == [] then "" else if |xs| == 1 then xs[0] else xs[0] + ([SEPARATOR] + Join(xs[1..]))
  }

  predicate Clean(t: string) { SEPARATOR !in t }

  lemma {:induction false} SplitFirst(a: string, rest: string)
    requires Clean(a)
    ensures Split(a) == [a]
    ensures Split(a + ([SEPARATOR] + rest)) == [a] + Split(rest)
  {
    var whole := a + ([SEPARATOR] + rest);
    if a == [] {
      assert whole[1..] == rest;
    } else {
      SplitFirst(a[1..], rest);
      assert whole[1..] == a[1..] + ([SEPARATOR] + rest);
      assert [a[0]] + a[1..] == a;
    }
  }

  lemma {:induction false} SplitJoin(xs: seq<string>)
    requires xs != [] && forall x | x in xs :: Clean(x)
    ensures Split(Join(xs)) == xs
  {
    if |xs| == 1 {
      SplitFirst(xs[0], "");
    } else {
      SplitJoin(xs[1..]);
      SplitFirst(xs[0], Join(xs[1..]));
    }
  }

  // ---------- unions ----------

  function TypesOf(union: string): set<string> { Elements(Split(union)) }

  /** The stored form of a set of types. */
  function Canonical(types: set<string>): string { Join(Sorted(types)) }

  ghost predicate TypeSet(types: set<string>) { types != {} && forall t | t in types :: Clean(t) }

  /** Reading a stored union back gives the set it was made from. */
  lemma CanonicalRoundTrip(types: set<string>)
    requires TypeSet(types)
    ensures TypesOf(Canonical(types)) == types
  {
    var xs := Sorted(types);
    assert forall x | x in xs :: x in Elements(xs);
    assert Elements([]) == {};
    SplitJoin(xs);
  }

  /** The stored form is canonical: equal strings exactly for equal sets. */
  lemma CanonicalInjective(a: set<string>, b: set<string>)
    requires TypeSet(a) && TypeSet(b)
    ensures Canonical(a) == Canonical(b) <==> a == b
  {
    CanonicalRoundTrip(a);
    CanonicalRoundTrip(b);
  }

  /** `_merge_value_types`. */
  function MergeTypes(existing: string, observed: string): string {
    Join(Sorted(TypesOf(existing) + TypesOf(observed)))
  }

  /** Merging stored unions is union of the sets. */
  lemma {:induction false} MergeIsUnion(a: set<string>, b: set<string>)
    requires TypeSet(a) && TypeSet(b)
    ensures MergeTypes(Canonical(a), Canonical(b)) == Canonical(a + b)
  {
    CanonicalRoundTrip(a);
    CanonicalRoundTrip(b);
  }

  lemma NonEmptyCanonical(types: set<string>)
    requires TypeSet(types) && "" !in types
    ensures Canonical(types) != ""
  {
    CanonicalRoundTrip(types);
    assert Split("") == [""] && Split("")[0] in TypesOf("");
  }
}
