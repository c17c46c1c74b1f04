/** What a least-recently-used cache means: a bounded sequence of entries, most recently used first. */
module LruOrder {
  import opened Basics
  import opened Wrappers

  datatype Entry<V> = Entry(key: int, value: V)

  datatype Lru<V> = Lru(entries: seq<Entry<V>>, hits: nat, misses: nat)

  datatype Op<V> = Get(key: int) | Put(key: int, value: V) | Invalidate(key: int) | Clear

  ghost predicate DistinctKeys<V>(s: seq<Entry<V>>) {
    forall i, j | 0 <= i < j < |s| :: s[i].key != s[j].key
  }

  function Position<V>(s: seq<Entry<V>>, key: int): (r: Option<nat>)
    ensures r.Some? ==> r.value < |s| && s[r.value].key == key
    ensures r.None? ==> forall e | e in s :: e.key != key
  {
    if s == [] then None
    else if s[0].key == key then Some(0)
    else
      var rest := Position(s[1..], key);
      if rest.Some? then Some(rest.value + 1) else None
  }

  function RemoveAt<T>(s: seq<T>, i: nat): (r: seq<T>)
    requires i < |s|
    ensures |r| == |s| - 1
    ensures forall j | 0 <= j < |r| :: r[j] == if j < i then s[j] else s[j + 1]
  {
    s[..i] + s[i + 1..]
  }

  /** Drop the last entry of an over-full cache. */
  function Bounded<V>(s: seq<Entry<V>>, capacity: int): seq<Entry<V>> {
    if s != [] && |s| > capacity then s[..|s| - 1] else s
  }

  function Step<V>(c: Lru<V>, op: Op<V>, capacity: int): Lru<V> {
    match op
    case Get(k) =>
      (match Position(c.entries, k)
       case None => c.(misses := c.misses + 1)
       case Some(i) => Lru([c.entries[i]] + RemoveAt(c.entries, i), c.hits + 1, c.misses))
    case Put(k, v) =>
      (match Position(c.entries, k)
       case None => c.(entries := Bounded([Entry(k, v)] + c.entries, capacity))
       case Some(i) => c.(entries := [Entry(k, v)] + RemoveAt(c.entries, i)))
    case Invalidate(k) =>
      (match Position(c.entries, k)
       case None => c
       case Some(i) => c.(entries := RemoveAt(c.entries, i)))
    case Clear => Lru([], 0, 0)
  }

  function Run<V>(ops: seq<Op<V>>, capacity: int): Lru<V> {
    if ops == [] then Lru([], 0, 0)
    else Step(Run(ops[..|ops| - 1], capacity), ops[|ops| - 1], capacity)
  }

  /** One more than the position of the last get or put of `key`; zero if there was none. */
  function LastUse<V>(ops: seq<Op<V>>, key: int): nat {
    if ops == [] then 0
    else
      var op := ops[|ops| - 1];
      if (op.Get? || op.Put?) && op.key == key then |ops| else LastUse(ops[..|ops| - 1], key)
  }

  /** The value last put under `key`, unless it was invalidated or the cache cleared since. */
  function LastPut<V>(ops: seq<Op<V>>, key: int): Option<V> {
    if ops == [] then None
    else
      var op := ops[|ops| - 1];
      if op.Clear? || (op.Invalidate? && op.key == key) then None
      else if op.Put? && op.key == key then Some(op.value)
      else LastPut(ops[..|ops| - 1], key)
  }

  function GetsSinceClear<V>(ops: seq<Op<V>>): nat {
    if ops == [] || ops[|ops| - 1].Clear? then 0
    else GetsSinceClear(ops[..|ops| - 1]) + if ops[|ops| - 1].Get? then 1 else 0
  }

  /** Entries stand in the order of their last use, latest first. */
  ghost predicate ByRecency<V>(s: seq<Entry<V>>, ops: seq<Op<V>>) {
    forall i, j | 0 <= i < j < |s| :: LastUse(ops, s[i].key) > LastUse(ops, s[j].key)
  }

  ghost predicate Fresh<V>(s: seq<Entry<V>>, ops: seq<Op<V>>) {
    forall e | e in s :: LastPut(ops, e.key) == Some(e.value)
  }

  lemma LastUseNext<V>(ops: seq<Op<V>>, op: Op<V>, key: int)
    ensures LastUse(ops + [op], key) ==
            if (op.Get? || op.Put?) && op.key == key then |ops| + 1 else LastUse(ops, key)
    ensures LastPut(ops + [op], key) ==
            if op.Clear? || (op.Invalidate? && op.key == key) then None
            else if op.Put? && op.key == key then Some(op.value)
            else LastPut(ops, key)
  {
    assert (ops + [op])[..|ops|] == ops;
  }

  lemma {:induction false} LastUseBound<V>(ops: seq<Op<V>>, key: int)
    ensures LastUse(ops, key) <= |ops|
  {
    if ops != [] { LastUseBound(ops[..|ops| - 1], key); }
  }

  lemma PositionUnique<V>(s: seq<Entry<V>>, key: int)
    requires DistinctKeys(s)
    ensures forall i | 0 <= i < |s| && s[i].key == key :: Position(s, key) == Some(i)
  {
  }

  /** Moving an entry used just now to the front, dropping others anywhere, keeps the order by recency. */
  lemma FrontKeepsOrder<V>(ops: seq<Op<V>>, op: Op<V>, first: Entry<V>, rest: seq<Entry<V>>)
    requires (op.Get? || op.Put?) && op.key == first.key
    requires ByRecency(rest, ops) && DistinctKeys(rest) && forall e | e in rest :: e.key != first.key
    ensures ByRecency([first] + rest, ops + [op]) && DistinctKeys([first] + rest)
  {
    hide LastUse;
    var s := [first] + rest;
    forall i, j | 0 <= i < j < |s| ensures LastUse(ops + [op], s[i].key) > LastUse(ops + [op], s[j].key) && s[i].key != s[j].key {
      assert s[j] == rest[j - 1] && rest[j - 1] in rest;
      LastUseNext(ops, op, s[i].key);
      LastUseNext(ops, op, s[j].key);
      LastUseBound(ops, s[j].key);
      if i > 0 { assert s[i] == rest[i - 1] && rest[i - 1] in rest; }
    }
  }

  lemma RestKeepsOrder<V>(ops: seq<Op<V>>, op: Op<V>, s: seq<Entry<V>>)
    requires ByRecency(s, ops)
    requires forall e | e in s :: !((op.Get? || op.Put?) && op.key == e.key)
    ensures ByRecency(s, ops + [op])
  {
    hide LastUse;
    forall i, j | 0 <= i < j < |s| ensures LastUse(ops + [op], s[i].key) > LastUse(ops + [op], s[j].key) {
      assert s[i] in s && s[j] in s;
      LastUseNext(ops, op, s[i].key);
      LastUseNext(ops, op, s[j].key);
    }
  }

  lemma RemovedIsRest<V>(s: seq<Entry<V>>, i: nat, ops: seq<Op<V>>)
    requires i < |s| && DistinctKeys(s) && ByRecency(s, ops)
    ensures DistinctKeys(RemoveAt(s, i)) && ByRecency(RemoveAt(s, i), ops)
    ensures forall e | e in RemoveAt(s, i) :: e in s && e.key != s[i].key
  {
    hide LastUse;
    var r := RemoveAt(s, i);
    forall e | e in r ensures e in s && e.key != s[i].key {
      var j :| 0 <= j < |r| && r[j] == e;
      assert e == s[if j < i then j else j + 1];
    }
  }

  /** Every history keeps the entries ordered by last use, distinct, current and within capacity. */
  lemma {:induction false} AlwaysByRecency<V>(ops: seq<Op<V>>, capacity: int)
    ensures var s := Run(ops, capacity).entries;
            ByRecency(s, ops) && DistinctKeys(s) && Fresh(s, ops) && |s| <= Max(capacity, 0)
  {
    if ops != [] {
      hide LastUse, LastPut;
      var front, op := ops[..|ops| - 1], ops[|ops| - 1];
      assert front + [op] == ops;
      AlwaysByRecency(front, capacity);
      OrderStep(front, op, capacity);
      FreshStep(front, op, capacity);
    }
  }

  lemma {:induction false} OrderStep<V>(front: seq<Op<V>>, op: Op<V>, capacity: int)
    requires var s := Run(front, capacity).entries;
             ByRecency(s, front) && DistinctKeys(s) && |s| <= Max(capacity, 0)
    ensures var s := Step(Run(front, capacity), op, capacity).entries;
            ByRecency(s, front + [op]) && DistinctKeys(s) && |s| <= Max(capacity, 0)
  {
    var s := Run(front, capacity).entries;
    if !op.Clear? {
      hide LastUse, Run, ByRecency, DistinctKeys;
      var at := Position(s, op.key);
      if at.Some? { RemovedIsRest(s, at.value, front); }
      if op.Invalidate? {
        if at.Some? { RestKeepsOrder(front, op, RemoveAt(s, at.value)); } else { RestKeepsOrder(front, op, s); }
      } else if at.Some? {
        var first := if op.Get? then s[at.value] else Entry(op.key, op.value);
        FrontKeepsOrder(front, op, first, RemoveAt(s, at.value));
      } else if op.Get? {
        RestKeepsOrder(front, op, s);
      } else {
        var t := [Entry(op.key, op.value)] + s;
        FrontKeepsOrder(front, op, t[0], s);
        PrefixKeepsOrder(t, front + [op]);
      }
    }
  }

  lemma PrefixKeepsOrder<V>(t: seq<Entry<V>>, ops: seq<Op<V>>)
    requires t != [] && ByRecency(t, ops) && DistinctKeys(t)
    ensures ByRecency(t[..|t| - 1], ops) && DistinctKeys(t[..|t| - 1])
  {
    hide LastUse;
  }

  lemma FreshStep<V>(front: seq<Op<V>>, op: Op<V>, capacity: int)
    requires var s := Run(front, capacity).entries; Fresh(s, front) && DistinctKeys(s) && ByRecency(s, front)
    ensures Fresh(Step(Run(front, capacity), op, capacity).entries, front + [op])
  {
    hide LastPut, Run, ByRecency, LastUse, DistinctKeys;
    var s, t := Run(front, capacity).entries, Step(Run(front, capacity), op, capacity).entries;
    if !op.Clear? && Position(s, op.key).Some? { RemovedIsRest(s, Position(s, op.key).value, front); }
    forall e | e in t ensures LastPut(front + [op], e.key) == Some(e.value) {
      LastUseNext(front, op, e.key);
    }
  }

  /** `victim` alone leaves, and every other entry was used later. */
  ghost predicate Evicts<V>(before: seq<Entry<V>>, victim: Entry<V>, newest: Entry<V>, after: seq<Entry<V>>, ops: seq<Op<V>>) {
    && before != [] && before == before[..|before| - 1] + [victim]
    && after == [newest] + before[..|before| - 1]
    && (forall e | e in before[..|before| - 1] :: e.key != victim.key && LastUse(ops, e.key) > LastUse(ops, victim.key))
  }

  lemma LastIsOldest<V>(before: seq<Entry<V>>, newest: Entry<V>, ops: seq<Op<V>>)
    requires before != [] && ByRecency(before, ops) && DistinctKeys(before)
    ensures Evicts(before, before[|before| - 1], newest, [newest] + before[..|before| - 1], ops)
  {
    hide LastUse;
    var n := |before| - 1;
    forall e | e in before[..n] ensures e.key != before[n].key && LastUse(ops, e.key) > LastUse(ops, before[n].key) {
      var i :| 0 <= i < n && before[i] == e;
    }
  }

  /** A put into a full cache drops exactly the entry whose last use is oldest. */
  lemma {:induction false} EvictsLeastRecentlyUsed<V>(ops: seq<Op<V>>, key: int, value: V, capacity: int)
    requires capacity >= 1
    requires |Run(ops, capacity).entries| == capacity && Position(Run(ops, capacity).entries, key).None?
    ensures var before := Run(ops, capacity).entries;
            Evicts(before, before[capacity - 1], Entry(key, value), Run(ops + [Put(key, value)], capacity).entries, ops)
  {
    hide LastUse, Evicts, ByRecency, DistinctKeys;
    var before := Run(ops, capacity).entries;
    AlwaysByRecency(ops, capacity);
    assert (ops + [Put(key, value)])[..|ops|] == ops;
    LastIsOldest(before, Entry(key, value), ops);
    assert ([Entry(key, value)] + before)[..capacity] == [Entry(key, value)] + before[..capacity - 1];
  }

  /** Hits and misses count the gets since the last clear. */
  lemma {:induction false} CountersAddUp<V>(ops: seq<Op<V>>, capacity: int)
    ensures Run(ops, capacity).hits + Run(ops, capacity).misses == GetsSinceClear(ops)
  {
    if ops != [] { CountersAddUp(ops[..|ops| - 1], capacity); }
  }
}
