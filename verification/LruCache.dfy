/** The doubly linked list and hash map behind the observation cache, refining LruOrder. */
module LruCache {
  import opened Basics
  import opened Wrappers
  import opened LruOrder

  class LruNode<V> {
    const key: int
    var value: Option<V>
    var prev: LruNode?<V>
    var next: LruNode?<V>

    constructor (key: int, value: Option<V>)
      ensures this.key == key && this.value == value && prev == null && next == null
    {
      this.key, this.value, prev, next := key, value, null, null;
    }
  }

  /** A set of nodes linked both ways in the order of `chain`. */
  ghost predicate Linked<V>(chain: seq<LruNode<V>>)
    reads chain`prev, chain`next
  {
    forall i | 0 <= i < |chain| - 1 :: chain[i].next == chain[i + 1] && chain[i + 1].prev == chain[i]
  }

  /** Splice one inner node out of a chain. */
  method Unlink<V>(ghost chain: seq<LruNode<V>>, node: LruNode<V>, ghost i: nat)
    requires Distinct(chain) && Linked(chain) && 0 < i < |chain| - 1 && chain[i] == node
    modifies chain`prev, chain`next
    ensures Distinct(RemoveAt(chain, i)) && Linked(RemoveAt(chain, i)) && node !in RemoveAt(chain, i)
    ensures forall n | n in RemoveAt(chain, i) :: n in chain
  {
    ghost var after := RemoveAt(chain, i);
    assert forall j | 0 <= j < |after| :: after[j] == chain[if j < i then j else j + 1];
    assert chain[i - 1].next == chain[i] && chain[i].prev == chain[i - 1];
    assert chain[i].next == chain[i + 1] && chain[i + 1].prev == chain[i];
    var prev, nxt := node.prev, node.next;
    if prev != null { prev.next := nxt; }
    if nxt != null { nxt.prev := prev; }
    forall j | 0 <= j < |after| - 1 ensures after[j].next == after[j + 1] && after[j + 1].prev == after[j] {
      if j < i - 1 {
        assert chain[j].next == chain[j + 1] && chain[j + 1].prev == chain[j];
      } else if j >= i {
        assert chain[j + 1].next == chain[j + 2] && chain[j + 2].prev == chain[j + 1];
      }
    }
  }

  /** The map holds exactly the listed nodes, each under its own key. */
  ghost predicate Mapped<V>(m: map<int, LruNode<V>>, nodes: seq<LruNode<V>>) {
    && (forall n | n in nodes :: n.key in m && m[n.key] == n)
    && (forall k | k in m :: m[k] in nodes && m[k].key == k)
    && |m| == |nodes|
  }

  lemma MappedPromoted<V>(m: map<int, LruNode<V>>, nodes: seq<LruNode<V>>, i: nat)
    requires Mapped(m, nodes) && i < |nodes|
    ensures Mapped(m, [nodes[i]] + RemoveAt(nodes, i))
  {
    var r := RemoveAt(nodes, i);
    forall n | n in nodes ensures n in [nodes[i]] + r {
      var j :| 0 <= j < |nodes| && nodes[j] == n;
      if j != i { assert r[if j < i then j else j - 1] == n; }
    }
  }

  lemma MappedRemoved<V>(m: map<int, LruNode<V>>, nodes: seq<LruNode<V>>, i: nat)
    requires Mapped(m, nodes) && i < |nodes| && Distinct(nodes)
    ensures Mapped(m - {nodes[i].key}, RemoveAt(nodes, i))
  {
    var r, m' := RemoveAt(nodes, i), m - {nodes[i].key};
    assert nodes[i] in nodes;
    forall n | n in r ensures n.key in m' && m'[n.key] == n {
      var j :| 0 <= j < |r| && r[j] == n;
      assert nodes[if j < i then j else j + 1] == n && n in nodes;
    }
    forall k | k in m' ensures m'[k] in r && m'[k].key == k {
      var j :| 0 <= j < |nodes| && nodes[j] == m[k];
      assert r[if j < i then j else j - 1] == m[k];
    }
    assert m'.Keys == m.Keys - {nodes[i].key};
    assert |m'| == |m'.Keys| && |m| == |m.Keys|;
  }

  lemma MappedInserted<V>(m: map<int, LruNode<V>>, nodes: seq<LruNode<V>>, node: LruNode<V>)
    requires Mapped(m, nodes) && node.key !in m
    ensures Mapped(m[node.key := node], [node] + nodes)
  {
    var m' := m[node.key := node];
    forall k | k in m' ensures m'[k] in [node] + nodes && m'[k].key == k {
      if k != node.key { assert m[k] in nodes; }
    }
  }

  /** Writing one node's value writes one entry. */
  lemma EntriesUpdated<V>(nodes: seq<LruNode<V>>, i: nat, was: seq<Entry<Option<V>>>)
    requires i < |nodes| == |was|
    requires forall j | 0 <= j < |nodes| && j != i :: was[j] == Entry(nodes[j].key, nodes[j].value)
    ensures EntriesOf(nodes) == was[i := Entry(nodes[i].key, nodes[i].value)]
  {
    hide EntriesOf;
  }

  lemma RemoveUpdated<T>(s: seq<T>, i: nat, x: T)
    requires i < |s|
    ensures RemoveAt(s[i := x], i) == RemoveAt(s, i)
  {
  }

  ghost function EntriesOf<V>(nodes: seq<LruNode<V>>): (s: seq<Entry<Option<V>>>)
    reads nodes`value
    ensures |s| == |nodes| && forall i | 0 <= i < |s| :: s[i] == Entry(nodes[i].key, nodes[i].value)
  {
    if nodes == [] then [] else [Entry(nodes[0].key, nodes[0].value)] + EntriesOf(nodes[1..])
  }

  lemma EntriesConcat<V>(a: seq<LruNode<V>>, b: seq<LruNode<V>>)
    ensures EntriesOf(a + b) == EntriesOf(a) + EntriesOf(b)
  {
    hide EntriesOf;
  }

  lemma EntriesRemoved<V>(nodes: seq<LruNode<V>>, i: nat)
    requires i < |nodes|
    ensures EntriesOf(RemoveAt(nodes, i)) == RemoveAt(EntriesOf(nodes), i)
  {
    hide EntriesOf;
  }

  lemma {:induction false} PromotedEntries<V>(nodes: seq<LruNode<V>>, i: nat)
    requires i < |nodes|
    ensures EntriesOf([nodes[i]] + RemoveAt(nodes, i)) == [EntriesOf(nodes)[i]] + RemoveAt(EntriesOf(nodes), i)
  {
    hide EntriesOf, RemoveAt;
    EntriesConcat([nodes[i]], RemoveAt(nodes, i));
    EntriesRemoved(nodes, i);
    assert EntriesOf([nodes[i]]) == [EntriesOf(nodes)[i]];
  }

  class LruObservationCache<V> {
    const capacity: int
    const head: LruNode<V>
    const tail: LruNode<V>
    var index: map<int, LruNode<V>>
    var hits: nat
    var misses: nat
    /** The cached nodes, most recently used first. */
    ghost var nodes: seq<LruNode<V>>

    ghost function Chain(): seq<LruNode<V>>
      reads this`nodes
    {
      [head] + nodes + [tail]
    }

    ghost function Nodes(): set<LruNode<V>>
      reads this`nodes
    {
      set n | n in Chain()
    }

    /** The list: sentinels at both ends, prev and next inverse. */
    ghost predicate List()
      reads this`nodes, Chain()`prev, Chain()`next
    {
      Distinct(Chain()) && Linked(Chain())
    }

    ghost predicate Valid()
      reads this`nodes, this`index, Chain()`prev, Chain()`next
    {
      List() && Mapped(index, nodes) && |nodes| <= Max(capacity, 0)
    }

    ghost function Entries(): seq<Entry<Option<V>>>
      reads this`nodes, nodes`value
    {
      EntriesOf(nodes)
    }

    ghost function State(): Lru<Option<V>>
      reads this`nodes, this`hits, this`misses, nodes`value
    {
      Lru(Entries(), hits, misses)
    }

    constructor (capacity: int)
      ensures Valid() && this.capacity == capacity && State() == Lru([], 0, 0)
      ensures forall n | n in Chain() :: fresh(n)
    {
      this.capacity := capacity;
      index := map[];
      head := new LruNode(-1, None);
      tail := new LruNode(-2, None);
      hits, misses := 0, 0;
      nodes := [];
      new;
      head.next := tail;
      tail.prev := head;
      assert Chain() == [head, tail];
    }

    /** Splice the node at position `i` of the list out. */
    method Remove(node: LruNode<V>, ghost i: nat)
      requires List() && i < |nodes| && nodes[i] == node
      modifies this`nodes, Nodes()`prev, Nodes()`next
      ensures nodes == RemoveAt(old(nodes), i) && List()
      ensures node !in Chain() && Nodes() <= old(Nodes())
    {
      ghost var before := Chain();
      Unlink(before, node, i + 1);
      nodes := RemoveAt(nodes, i);
      assert Chain() == RemoveAt(before, i + 1);
    }

    /** Insert an unlisted node at the most recently used end. */
    method Prepend(node: LruNode<V>)
      requires List() && node !in Chain()
      modifies this`nodes, Nodes()`prev, Nodes()`next, node`prev, node`next
      ensures nodes == [node] + old(nodes) && List()
    {
      ghost var before := Chain();
      LinkAfterHead(before, node);
      nodes := [node] + nodes;
      assert Chain() == [head, node] + before[1..];
    }

    /** Move the node at position `i` to the front. */
    method Promote(node: LruNode<V>, ghost i: nat)
      requires Valid() && i < |nodes| && nodes[i] == node
      modifies this`nodes, Nodes()`prev, Nodes()`next
      ensures Valid() && Nodes() <= old(Nodes())
      ensures Entries() == [old(Entries())[i]] + RemoveAt(old(Entries()), i)
    {
      hide Linked, Distinct, EntriesOf, RemoveAt, List, Mapped;
      assert Chain()[i + 1] == node;
      MappedPromoted(index, nodes, i);
      PromotedEntries(nodes, i);
      Remove(node, i);
      Prepend(node);
    }

    method LinkAfterHead(ghost chain: seq<LruNode<V>>, node: LruNode<V>)
      requires Distinct(chain) && Linked(chain) && |chain| >= 2 && chain[0] == head && node !in chain
      modifies chain`prev, chain`next, node`prev, node`next
      ensures Distinct([head, node] + chain[1..]) && Linked([head, node] + chain[1..])
    {
      assert head.next == chain[1];
      node.prev := head;
      node.next := head.next;
      if head.next != null { head.next.prev := node; }
      head.next := node;
      ghost var after := [head, node] + chain[1..];
      assert forall j | 2 <= j < |after| :: after[j] == chain[j - 1];
      forall j | 0 <= j < |after| - 1 ensures after[j].next == after[j + 1] && after[j + 1].prev == after[j] {
        if j >= 2 { assert chain[j - 1].next == chain[j] && chain[j].prev == chain[j - 1]; }
      }
    }

    /** None on a miss; a cached None looks the same to the caller, but counts as a hit. */
    method Get(key: int) returns (r: Option<V>)
      requires Valid()
      modifies this`nodes, this`hits, this`misses, Nodes()`prev, Nodes()`next
      ensures Valid() && State() == Step(old(State()), LruOrder.Get(key), capacity)
      ensures r == if Position(old(Entries()), key).Some? then State().entries[0].value else None
      ensures if exists e :: e in old(Entries()) && e.key == key
              then hits == old(hits) + 1 && misses == old(misses) && Entry(key, r) in old(Entries()) && Entries()[0] == Entry(key, r)
              else hits == old(hits) && misses == old(misses) + 1 && r == None && Entries() == old(Entries())
    {
      hide List, Mapped;
      if key !in index {
        NotListed(key);
        misses := misses + 1;
        return None;
      }
      var node := index[key];
      ghost var i := Listed(key);
      Promote(node, i);
      hits := hits + 1;
      return node.value;
    }

    method Put(key: int, value: Option<V>)
      requires Valid()
      modifies this`nodes, this`index, Nodes()`prev, Nodes()`next, Nodes()`value
      ensures Valid() && State() == Step(old(State()), LruOrder.Put(key, value), capacity)
      ensures forall n | n in Nodes() - old(Nodes()) :: fresh(n)
    {
      assert forall k | k in index :: index[k].key == k;
      hide Valid, EntriesOf, RemoveAt, Bounded;
      if key in index {
        ghost var i := Listed(key);
        Update(index[key], value, i);
      } else {
        NotListed(key);
        AddNew(key, value);
      }
    }

    /** The branch of `put` for a new key. */
    method AddNew(key: int, value: Option<V>)
      requires Valid() && key !in index
      modifies this`nodes, this`index, Nodes()`prev, Nodes()`next
      ensures Valid() && Entries() == Bounded([Entry(key, value)] + old(Entries()), capacity)
      ensures forall n | n in Nodes() - old(Nodes()) :: fresh(n)
    {
      hide List, Mapped, EntriesOf, RemoveAt;
      var node := new LruNode(key, value);
      Insert(node);
      if |index| > capacity {
        EvictLast();
      }
    }

    /** The branch of `put` for a key already cached. */
    method Update(node: LruNode<V>, value: Option<V>, ghost i: nat)
      requires Valid() && i < |nodes| && nodes[i] == node
      modifies this`nodes, Nodes()`prev, Nodes()`next, Nodes()`value
      ensures Valid() && Nodes() <= old(Nodes())
      ensures Entries() == [Entry(node.key, value)] + RemoveAt(old(Entries()), i)
    {
      hide List, Mapped, EntriesOf, RemoveAt;
      ghost var was := EntriesOf(nodes);
      assert Chain()[i + 1] == node;
      NodesDistinct();
      node.value := value;
      EntriesUpdated(nodes, i, was);
      Promote(node, i);
      RemoveUpdated(was, i, Entry(node.key, value));
    }

    /** Map and list a new node; the list may now be one over capacity. */
    method Insert(node: LruNode<V>)
      requires List() && Mapped(index, nodes) && node !in Chain() && node.key !in index
      modifies this`nodes, this`index, Nodes()`prev, Nodes()`next, node`prev, node`next
      ensures List() && Mapped(index, nodes) && nodes == [node] + old(nodes) && |index| == |nodes|
      ensures Nodes() <= old(Nodes()) + {node}
      ensures Entries() == [Entry(node.key, node.value)] + old(Entries())
    {
      assert |index| == |nodes|;
      hide List, Mapped, EntriesOf;
      MappedInserted(index, nodes, node);
      EntriesConcat([node], nodes);
      assert EntriesOf([node]) == [Entry(node.key, node.value)];
      index := index[node.key := node];
      Prepend(node);
    }

    /** Drop the node before the tail sentinel. */
    method EvictLast()
      requires List() && Mapped(index, nodes) && nodes != []
      modifies this`nodes, this`index, Nodes()`prev, Nodes()`next
      ensures List() && Mapped(index, nodes) && nodes == old(nodes)[..|old(nodes)| - 1]
      ensures Nodes() <= old(Nodes())
      ensures Entries() == old(Entries())[..|old(nodes)| - 1]
    {
      hide List, Mapped, EntriesOf, RemoveAt;
      ghost var i := |nodes| - 1;
      LastBeforeTail();
      Dropped(i);
      var lru := tail.prev;
      if lru != null && lru != head {
        Remove(lru, i);
        index := index - {lru.key};
      }
    }

    lemma LastBeforeTail()
      requires List() && nodes != []
      ensures tail.prev == nodes[|nodes| - 1] && tail.prev != head
      ensures forall s: seq<Entry<Option<V>>> | |s| == |nodes| :: RemoveAt(s, |nodes| - 1) == s[..|nodes| - 1]
      ensures RemoveAt(nodes, |nodes| - 1) == nodes[..|nodes| - 1]
    {
      var i := |nodes|;
      assert Chain()[0] == head && Chain()[i] == nodes[i - 1] && Chain()[i + 1] == tail;
    }

    lemma NodesDistinct()
      requires List()
      ensures Distinct(nodes)
    {
      forall i, j | 0 <= i < j < |nodes| ensures nodes[i] != nodes[j] {
        assert Chain()[i + 1] == nodes[i] && Chain()[j + 1] == nodes[j];
      }
    }

    lemma Dropped(i: nat)
      requires List() && Mapped(index, nodes) && i < |nodes|
      ensures Mapped(index - {nodes[i].key}, RemoveAt(nodes, i))
      ensures EntriesOf(RemoveAt(nodes, i)) == RemoveAt(EntriesOf(nodes), i)
    {
      hide List, Mapped;
      NodesDistinct();
      EntriesRemoved(nodes, i);
      MappedRemoved(index, nodes, i);
    }

    method Invalidate(key: int)
      requires Valid()
      modifies this`nodes, this`index, Nodes()`prev, Nodes()`next
      ensures Valid() && State() == Step(old(State()), LruOrder.Invalidate(key), capacity)
      ensures Nodes() <= old(Nodes())
    {
      hide List, Mapped, EntriesOf, RemoveAt;
      if key !in index {
        NotListed(key);
        return;
      }
      var node := index[key];
      ghost var was := Entries();
      ghost var i := Listed(key);
      Dropped(i);
      index := index - {key};
      assert EntriesOf(RemoveAt(nodes, i)) == RemoveAt(was, i);
      Remove(node, i);
      assert Entries() == RemoveAt(was, i);
    }

    method Clear()
      requires Valid()
      modifies this`nodes, this`index, this`hits, this`misses, head`next, tail`prev
      ensures Valid() && State() == Step(old(State()), LruOrder.Clear, capacity)
      ensures Nodes() <= old(Nodes())
    {
      assert Chain()[0] == head && Chain()[|Chain()| - 1] == tail;
      index := map[];
      head.next := tail;
      tail.prev := head;
      hits, misses := 0, 0;
      nodes := [];
      assert Chain() == [head, tail];
    }

    lemma NotListed(key: int)
      requires Valid() && key !in index
      ensures Position(Entries(), key).None?
    {
    }

    lemma Listed(key: int) returns (i: nat)
      requires Valid() && key in index
      ensures i < |nodes| && nodes[i] == index[key] && nodes[i].key == key && Position(Entries(), key) == Some(i)
    {
      i :| 0 <= i < |nodes| && nodes[i] == index[key];
      KeysDistinct();
      PositionUnique(Entries(), key);
      assert Entries()[i].key == key;
    }

    lemma KeysDistinct()
      requires Valid()
      ensures DistinctKeys(Entries())
    {
      forall i, j | 0 <= i < j < |nodes| ensures nodes[i].key != nodes[j].key {
        assert Chain()[i + 1] == nodes[i] && Chain()[j + 1] == nodes[j];
        assert nodes[i] in nodes && nodes[j] in nodes;
      }
    }
  }
}
