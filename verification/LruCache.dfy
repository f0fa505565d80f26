/**
 The class LRUCache: a recency queue of keys and a hash map from keys to values and
 back pointers into the queue. A back pointer is the identity of a queue node, so the
 operations below reach the queue through the pointers alone, as list iterators do.

 A callback that reacts to an eviction is modelled by handing the evicted entries to the
 caller; the callbacks of this code base never touch the cache that evicts.
 */
module LruCaches {
  import opened Wrappers
  import R = Recency

  /** A queue node; id is the address that list iterators compare. */
  datatype Node<+K> = Node(id: nat, key: K)

  datatype Entry<+V> = Entry(value: V, it: nat)

  function Keys<K>(queue: seq<Node<K>>): (ks: seq<K>)
    ensures |ks| == |queue| && forall i :: 0 <= i < |ks| ==> ks[i] == queue[i].key
  {
    seq(|queue|, i requires 0 <= i < |queue| => queue[i].key)
  }

  function Values<K, V>(m: map<K, Entry<V>>): map<K, V> {
    map k | k in m :: m[k].value
  }

  lemma ValuesWithout<K, V>(m: map<K, Entry<V>>, k: K)
    ensures Values(m - {k}) == Values(m) - {k}
  {
  }

  /** The node it points at. */
  function Deref<K>(queue: seq<Node<K>>, it: nat): Option<Node<K>> {
    if queue == [] then None
    else if queue[0].id == it then Some(queue[0])
    else Deref(queue[1..], it)
  }

  /** std::list::erase(it). */
  function Unlink<K>(queue: seq<Node<K>>, it: nat): seq<Node<K>> {
    if queue == [] then []
    else if queue[0].id == it then queue[1..]
    else [queue[0]] + Unlink(queue[1..], it)
  }

  /** std::list::splice(begin(), queue, it): the node moves, its identity stays. */
  function Splice<K>(queue: seq<Node<K>>, it: nat): seq<Node<K>> {
    match Deref(queue, it)
    case None => queue
    case Some(node) => [node] + Unlink(queue, it)
  }

  /** Queue and map are in step: each knows the other's keys, and every back pointer is right. */
  ghost predicate Linked<K, V>(queue: seq<Node<K>>, m: map<K, Entry<V>>) {
    && R.Distinct(queue)
    && (forall a, b | a in queue && b in queue && a.id == b.id :: a == b)
    && (forall n | n in queue :: n.key in m && m[n.key].it == n.id)
    && (forall k | k in m :: Node(m[k].it, k) in queue)
  }

  lemma LinkedIsWf<K, V>(cap: nat, queue: seq<Node<K>>, m: map<K, Entry<V>>)
    requires 0 < cap && |queue| <= cap && Linked(queue, m)
    ensures R.Wf(R.Lru(cap, Keys(queue), Values(m)))
  {
    var ks := Keys(queue);
    forall i, j | 0 <= i < j < |ks| ensures ks[i] != ks[j] {
      assert queue[i] in queue && queue[j] in queue;
    }
    forall k | k in m ensures k in ks {
      KeyOfNode(queue, Node(m[k].it, k));
    }
    forall k | k in ks ensures k in m {
      var i :| 0 <= i < |ks| && ks[i] == k;
      assert queue[i] in queue;
    }
  }

  lemma KeyOfNode<K>(queue: seq<Node<K>>, n: Node<K>)
    requires n in queue
    ensures n.key in Keys(queue)
  {
    var i :| 0 <= i < |queue| && queue[i] == n;
    assert Keys(queue)[i] == n.key;
  }

  /** A pointer to a queued node reaches exactly that node. */
  lemma {:induction false} PointerReachesNode<K>(queue: seq<Node<K>>, n: Node<K>)
    requires n in queue && forall x | x in queue && x.id == n.id :: x == n
    ensures Deref(queue, n.id) == Some(n)
    ensures Unlink(queue, n.id) == R.Without(queue, n)
  {
    if queue[0] != n {
      assert queue[0] in queue;
      PointerReachesNode(queue[1..], n);
    }
  }

  /** Taking a node out takes its key out. */
  lemma {:induction false} WithoutNodeIsWithoutKey<K>(queue: seq<Node<K>>, n: Node<K>)
    requires n in queue && forall x | x in queue && x.key == n.key :: x == n
    ensures Keys(R.Without(queue, n)) == R.Without(Keys(queue), n.key)
  {
    assert Keys(queue)[0] == queue[0].key;
    assert Keys(queue)[1..] == Keys(queue[1..]);
    if queue[0] != n {
      assert queue[0] in queue;
      WithoutNodeIsWithoutKey(queue[1..], n);
      assert Keys([queue[0]] + R.Without(queue[1..], n)) == [queue[0].key] + Keys(R.Without(queue[1..], n));
    }
  }

  lemma UnlinkKey<K, V>(queue: seq<Node<K>>, m: map<K, Entry<V>>, k: K)
    requires Linked(queue, m) && k in m
    ensures Deref(queue, m[k].it) == Some(Node(m[k].it, k))
    ensures Unlink(queue, m[k].it) == R.Without(queue, Node(m[k].it, k))
    ensures Keys(Unlink(queue, m[k].it)) == R.Without(Keys(queue), k)
    ensures Linked(Unlink(queue, m[k].it), m - {k})
    ensures |Unlink(queue, m[k].it)| == |queue| - 1
    ensures forall n :: n in Unlink(queue, m[k].it) ==> n in queue && n.id != m[k].it
  {
    var n := Node(m[k].it, k);
    PointerReachesNode(queue, n);
    WithoutNodeIsWithoutKey(queue, n);
    R.WithoutProperties(queue, n);
  }

  lemma PopLinked<K, V>(queue: seq<Node<K>>, m: map<K, Entry<V>>)
    requires Linked(queue, m) && queue != []
    ensures var n := |queue| - 1;
            && queue[n].key in m
            && Linked(queue[..n], m - {queue[n].key})
            && Keys(queue[..n]) == Keys(queue)[..n]
            && Values(m - {queue[n].key}) == Values(m) - {queue[n].key}
  {
    var n := |queue| - 1;
    NodeIsMapped(queue, m, n);
    hide Linked;
    UnlinkKey(queue, m, queue[n].key);
    ValuesWithout(m, queue[n].key);
    R.WithoutAt(queue, n);
    assert queue[..n] + queue[n + 1..] == queue[..n];
  }

  lemma NodeIsMapped<K, V>(queue: seq<Node<K>>, m: map<K, Entry<V>>, i: nat)
    requires Linked(queue, m) && i < |queue|
    ensures R.Distinct(queue)
    ensures queue[i].key in m && m[queue[i].key].it == queue[i].id
  {
    assert queue[i] in queue;
  }

  lemma PushLinked<K, V>(queue: seq<Node<K>>, m: map<K, Entry<V>>, k: K, v: V, id: nat)
    requires Linked(queue, m) && k !in m && forall n | n in queue :: n.id != id
    ensures Linked([Node(id, k)] + queue, m[k := Entry(v, id)])
    ensures Keys([Node(id, k)] + queue) == [k] + Keys(queue)
    ensures Values(m[k := Entry(v, id)]) == Values(m)[k := v]
  {
    hide R.Distinct;
    R.DistinctPush(Node(id, k), queue);
    PushedIds(queue, Node(id, k));
    PushedPointers(queue, m, k, v, id);
    PushedKeysAndValues(queue, m, k, v, id);
    hide Keys, Values;
  }

  lemma PushedPointers<K, V>(queue: seq<Node<K>>, m: map<K, Entry<V>>, k: K, v: V, id: nat)
    requires k !in m && (forall n | n in queue :: n.key in m && m[n.key].it == n.id)
    requires forall x | x in m :: Node(m[x].it, x) in queue
    ensures var q, m' := [Node(id, k)] + queue, m[k := Entry(v, id)];
            && (forall n | n in q :: n.key in m' && m'[n.key].it == n.id)
            && (forall x | x in m' :: Node(m'[x].it, x) in q)
  {
    var q, m' := [Node(id, k)] + queue, m[k := Entry(v, id)];
    forall n | n in q ensures n.key in m' && m'[n.key].it == n.id {
      assert n == Node(id, k) || n in queue;
    }
    forall x | x in m' ensures Node(m'[x].it, x) in q {
      if x == k {
        assert q[0] == Node(id, k);
      } else {
        assert Node(m[x].it, x) in queue;
      }
    }
  }

  lemma PushedIds<K>(queue: seq<Node<K>>, n: Node<K>)
    requires (forall a, b | a in queue && b in queue && a.id == b.id :: a == b) && forall x | x in queue :: x.id != n.id
    ensures forall a, b | a in [n] + queue && b in [n] + queue && a.id == b.id :: a == b
  {
    forall a, b | a in [n] + queue && b in [n] + queue && a.id == b.id ensures a == b {
      assert (a == n || a in queue) && (b == n || b in queue);
    }
  }

  lemma PushedKeysAndValues<K, V>(queue: seq<Node<K>>, m: map<K, Entry<V>>, k: K, v: V, id: nat)
    ensures Keys([Node(id, k)] + queue) == [k] + Keys(queue)
    ensures Values(m[k := Entry(v, id)]) == Values(m)[k := v]
  {
  }

  /** Working through the back pointer of k is working on the key k. */
  lemma SpliceKey<K, V>(queue: seq<Node<K>>, m: map<K, Entry<V>>, k: K)
    requires Linked(queue, m) && k in m
    ensures Keys(Splice(queue, m[k].it)) == R.Touch(Keys(queue), k)
    ensures Linked(Splice(queue, m[k].it), m)
    ensures |Splice(queue, m[k].it)| == |queue|
    ensures forall n :: n in Splice(queue, m[k].it) ==> n in queue
  {
    hide Linked;
    var u := Unlink(queue, m[k].it);
    UnlinkKey(queue, m, k);
    PushLinked(u, m - {k}, k, m[k].value, m[k].it);
    assert (m - {k})[k := Entry(m[k].value, m[k].it)] == m;
    KeyIsQueued(queue, m, k);
  }

  lemma KeyIsQueued<K, V>(queue: seq<Node<K>>, m: map<K, Entry<V>>, k: K)
    requires Linked(queue, m) && k in m
    ensures Node(m[k].it, k) in queue
  {
  }

  /** The same keys on new nodes. */
  function Copied<K>(queue: seq<Node<K>>, base: nat): seq<Node<K>> {
    seq(|queue|, i requires 0 <= i < |queue| => Node(base + i, queue[i].key))
  }

  lemma CopiedNodes<K>(queue: seq<Node<K>>, base: nat)
    ensures |Copied(queue, base)| == |queue| && Keys(Copied(queue, base)) == Keys(queue)
    ensures forall i, j :: 0 <= i < j < |queue| ==> Copied(queue, base)[i].id != Copied(queue, base)[j].id
    ensures forall n :: n in Copied(queue, base) ==> n.id < base + |queue|
  {
  }

  /** The keys of the first i queue nodes point back at them; nothing else has changed. */
  ghost predicate PointsBack<K, V>(queue: seq<Node<K>>, m: map<K, Entry<V>>, before: map<K, Entry<V>>, i: nat) {
    && m.Keys == before.Keys && i <= |queue|
    && (forall k | k in m :: m[k].value == before[k].value)
    && (forall j :: 0 <= j < i ==> queue[j].key in m && m[queue[j].key].it == queue[j].id)
  }

  lemma NoneToPointBack<K, V>(queue: seq<Node<K>>, m: map<K, Entry<V>>)
    ensures PointsBack(queue, m, m, 0)
  {
  }

  lemma OneMorePointsBack<K, V>(queue: seq<Node<K>>, m: map<K, Entry<V>>, before: map<K, Entry<V>>, i: nat)
    requires PointsBack(queue, m, before, i) && i < |queue| && R.Distinct(Keys(queue)) && queue[i].key in before
    ensures queue[i].key in m
    ensures PointsBack(queue, m[queue[i].key := Entry(m[queue[i].key].value, queue[i].id)], before, i + 1)
  {
    var ks := Keys(queue);
    assert forall j :: 0 <= j < i ==> ks[j] != ks[i] && ks[j] == queue[j].key;
  }

  /** Once every queued node's key points back at the node, queue and map are in step. */
  lemma RelinkedIsLinked<K, V>(queue: seq<Node<K>>, before: map<K, Entry<V>>, m: map<K, Entry<V>>)
    requires R.Distinct(Keys(queue)) && PointsBack(queue, m, before, |queue|)
    requires forall k | k in before :: k in Keys(queue)
    requires forall i, j :: 0 <= i < j < |queue| ==> queue[i].id != queue[j].id
    ensures Linked(queue, m) && Values(m) == Values(before)
  {
    assert Values(m) == Values(before);
    forall k | k in m ensures Node(m[k].it, k) in queue {
      var i :| 0 <= i < |Keys(queue)| && Keys(queue)[i] == k;
      assert queue[i] in queue;
    }
    NodesAreApart(queue);
    forall n | n in queue ensures n.key in m && m[n.key].it == n.id {
      var i :| 0 <= i < |queue| && queue[i] == n;
    }
  }

  /** Nodes of different identity, or different key, are different nodes. */
  lemma NodesAreApart<K>(queue: seq<Node<K>>)
    requires forall i, j :: 0 <= i < j < |queue| ==> queue[i].id != queue[j].id
    ensures R.Distinct(queue)
    ensures forall a, b | a in queue && b in queue && a.id == b.id :: a == b
  {
    forall a, b | a in queue && b in queue && a.id == b.id ensures a == b {
      var i :| 0 <= i < |queue| && queue[i] == a;
      var j :| 0 <= j < |queue| && queue[j] == b;
      assert i == j;
    }
  }

  class LRUCache<K(==), V> {
    var capacity: nat
    var cacheMap: map<K, Entry<V>>
    var queue: seq<Node<K>>
    /** Identity the next queue node gets. */
    var nextId: nat
    /** The callback that loads a missing value, when set. */
    var fetch: Option<(K, V) -> V>
    /**
     Which callback, if any, is told of evictions. Methods hand the evicted entries out, for the
     owner to pass on.
     */
    var onEvict: Option<nat>
    /** A value-initialised V. */
    const blank: V

    /** Valid but for the size, which setCapacity breaks for a while. */
    ghost predicate InStep()
      reads this`cacheMap, this`queue, this`nextId
    {
      && Linked(queue, cacheMap)
      && (forall n :: n in queue ==> n.id < nextId)
    }

    ghost predicate Valid()
      reads this
    {
      0 < capacity && |queue| <= capacity && InStep()
    }

    function State(): R.Lru<K, V>
      reads this
    {
      R.Lru(capacity, Keys(queue), Values(cacheMap))
    }

    /** What operator[] stores under a missing key. */
    function Initial(k: K): V
      reads this
    {
      match fetch
      case None => blank
      case Some(f) => f(k, blank)
    }

    constructor (capacity: nat, blank: V)
      requires 0 < capacity
      ensures Valid() && State() == R.Empty(capacity) && this.blank == blank
      ensures fetch == None && onEvict == None
    {
      this.capacity := capacity;
      this.blank := blank;
      cacheMap := map[];
      queue := [];
      nextId := 0;
      fetch, onEvict := None, None;
      new;
      assert Values(cacheMap) == map[];
    }

    method SetFetchCallback(cb: (K, V) -> V)
      requires Valid()
      modifies this`fetch
      ensures Valid() && State() == old(State()) && fetch == Some(cb)
    {
      fetch := Some(cb);
    }

    method SetEvictCallback(cb: nat)
      requires Valid()
      modifies this`onEvict
      ensures Valid() && State() == old(State()) && onEvict == Some(cb)
    {
      onEvict := Some(cb);
    }

    lemma ValidIsWf()
      requires Valid()
      ensures R.Wf(State())
    {
      LinkedIsWf(capacity, queue, cacheMap);
    }

    method Contains(k: K) returns (found: bool)
      ensures found == (k in State().vals)
    {
      found := k in cacheMap;
    }

    /** The value under k, through a reference obtained earlier. */
    method Value(k: K) returns (v: V)
      requires k in State().vals
      ensures v == State().vals[k]
    {
      v := cacheMap[k].value;
    }

    /** A write through a reference obtained earlier: recency stays as it is. */
    method SetValue(k: K, v: V)
      requires Valid() && k in State().vals
      modifies this`cacheMap
      ensures Valid() && State() == old(State()).(vals := old(State()).vals[k := v])
    {
      cacheMap := cacheMap[k := Entry(v, cacheMap[k].it)];
      assert Values(cacheMap) == old(Values(cacheMap))[k := v];
    }

    method Evict() returns (evicted: (K, V))
      requires InStep() && queue != []
      modifies this`cacheMap, this`queue
      ensures InStep() && |queue| == |old(queue)| - 1 && State() == R.Evict(old(State()))
      ensures Some(evicted) == R.Victim(old(State()))
    {
      hide Linked;
      PopLinked(queue, cacheMap);
      var last := |queue| - 1;
      var key := queue[last].key;
      evicted := (key, cacheMap[key].value);
      cacheMap := cacheMap - {key};
      queue := queue[..last];
    }

    /** Evicts when full, then puts a new node for k at the front. */
    method PushNew(k: K, v: V) returns (evicted: Option<(K, V)>)
      requires Valid() && k !in State().vals
      modifies this`cacheMap, this`queue, this`nextId
      ensures Valid() && State() == R.PushNew(old(State()), k, v)
      ensures evicted == R.PushedOut(old(State()))
    {
      hide Linked;
      evicted := None;
      if |queue| >= capacity {
        var e := Evict();
        evicted := Some(e);
      }
      assert k !in State().vals;
      PushLinked(queue, cacheMap, k, v, nextId);
      queue := [Node(nextId, k)] + queue;
      cacheMap := cacheMap[k := Entry(v, nextId)];
      nextId := nextId + 1;
    }

    method Insert(k: K, v: V) returns (inserted: bool, evicted: Option<(K, V)>)
      requires Valid()
      modifies this`cacheMap, this`queue, this`nextId
      ensures Valid() && State() == R.Insert(old(State()), k, v)
      ensures inserted == (k !in old(State()).vals)
      ensures evicted == if inserted then R.PushedOut(old(State())) else None
    {
      hide Linked;
      if k in cacheMap {
        return false, None;
      }
      evicted := PushNew(k, v);
      inserted := true;
    }

    /** operator[]. */
    method Access(k: K) returns (v: V, evicted: Option<(K, V)>)
      requires Valid()
      modifies this`cacheMap, this`queue, this`nextId
      ensures Valid() && State() == R.Access(old(State()), k, Initial(k))
      ensures k in State().vals && v == State().vals[k]
      ensures evicted == if k !in old(State()).vals then R.PushedOut(old(State())) else None
    {
      hide Linked;
      evicted := None;
      if k in cacheMap {
        v := cacheMap[k].value;
        SpliceKey(queue, cacheMap, k);
        queue := Splice(queue, cacheMap[k].it);
      } else {
        v := Initial(k);
        evicted := PushNew(k, v);
      }
    }

    method Erase(k: K) returns (erased: bool)
      requires Valid()
      modifies this`cacheMap, this`queue
      ensures Valid() && State() == R.Erase(old(State()), k)
      ensures erased == (k in old(State()).vals)
    {
      hide Linked;
      if k !in cacheMap {
        return false;
      }
      UnlinkKey(queue, cacheMap, k);
      queue := Unlink(queue, cacheMap[k].it);
      ValuesWithout(cacheMap, k);
      cacheMap := cacheMap - {k};
      erased := true;
    }

    /** Returns the value when present; None is the end() iterator. */
    method Find(k: K) returns (r: Option<V>)
      requires Valid()
      modifies this`queue
      ensures Valid() && State() == R.Find(old(State()), k)
      ensures r == if k in old(State()).vals then Some(old(State()).vals[k]) else None
    {
      hide Linked;
      if k !in cacheMap {
        return None;
      }
      SpliceKey(queue, cacheMap, k);
      queue := Splice(queue, cacheMap[k].it);
      r := Some(cacheMap[k].value);
    }

    method Update(k: K, v: V) returns (updated: bool)
      requires Valid()
      modifies this`cacheMap, this`queue
      ensures Valid() && State() == R.Update(old(State()), k, v)
      ensures updated == (k in old(State()).vals)
    {
      hide Linked;
      if k !in cacheMap {
        return false;
      }
      SetValue(k, v);
      assert k in State().vals;
      SpliceKey(queue, cacheMap, k);
      queue := Splice(queue, cacheMap[k].it);
      updated := true;
    }

    method SetCapacity(n: nat) returns (evicted: seq<(K, V)>)
      requires Valid() && 0 < n
      modifies this`capacity, this`cacheMap, this`queue
      ensures Valid() && capacity == n && State() == R.SetCapacity(old(State()), n)
      ensures evicted == R.Dropped(old(State()).(cap := n), n)
    {
      hide LRUCache.InStep;
      evicted := [];
      capacity := n;
      ghost var c := State();
      while |queue| > capacity
        invariant capacity == n && InStep()
        invariant R.Shrink(State(), n) == R.Shrink(c, n)
        invariant evicted + R.Dropped(State(), n) == R.Dropped(c, n)
        decreases |queue|
      {
        ghost var s := State();
        assert |s.order| == |queue|;
        var e := Evict();
        assert R.Dropped(s, n) == [e] + R.Dropped(State(), n);
        assert evicted + ([e] + R.Dropped(State(), n)) == evicted + [e] + R.Dropped(State(), n);
        evicted := evicted + [e];
      }
    }

    method Clear()
      requires Valid()
      modifies this`cacheMap, this`queue
      ensures Valid() && State() == R.Empty(capacity)
    {
      queue := [];
      cacheMap := map[];
      assert Values(cacheMap) == map[];
    }

    lemma WfDistinct()
      requires R.Wf(State())
      ensures R.Distinct(Keys(queue))
      ensures forall k :: k in Keys(queue) ==> k in cacheMap
      ensures forall k :: k in cacheMap ==> k in Keys(queue)
    {
    }

    /** Points every back pointer at the queue node that carries its key. */
    method Redirect()
      requires 0 < capacity && |queue| <= capacity && R.Wf(State())
      requires forall i, j :: 0 <= i < j < |queue| ==> queue[i].id != queue[j].id
      requires forall n :: n in queue ==> n.id < nextId
      modifies this`cacheMap
      ensures Valid() && State() == old(State())
    {
      hide Linked, R.Wf, PointsBack;
      WfDistinct();
      ghost var before := cacheMap;
      NoneToPointBack(queue, cacheMap);
      for i := 0 to |queue|
        invariant PointsBack(queue, cacheMap, before, i)
      {
        var key := queue[i].key;
        assert Keys(queue)[i] in Keys(queue);
        OneMorePointsBack(queue, cacheMap, before, i);
        cacheMap := cacheMap[key := Entry(cacheMap[key].value, queue[i].id)];
      }
      RelinkedIsLinked(queue, before, cacheMap);
    }

    /**
     Move assignment: the two caches trade capacity, contents and callbacks. Trading the
     queues may copy their nodes, which leaves every back pointer stale until Redirect.
     */
    method MoveFrom(source: LRUCache<K, V>)
      requires Valid() && source.Valid()
      modifies this, source
      ensures Valid() && source.Valid()
      ensures State() == old(source.State()) && source.State() == old(State())
      ensures fetch == old(source.fetch) && source.fetch == old(fetch)
      ensures onEvict == old(source.onEvict) && source.onEvict == old(onEvict)
    {
      hide Linked, R.Wf;
      if source == this {
        return;
      }
      ValidIsWf();
      source.ValidIsWf();
      CopiedNodes(source.queue, nextId);
      CopiedNodes(queue, source.nextId);
      capacity, source.capacity := source.capacity, capacity;
      queue, source.queue := Copied(source.queue, nextId), Copied(queue, source.nextId);
      nextId, source.nextId := nextId + |queue|, source.nextId + |source.queue|;
      cacheMap, source.cacheMap := source.cacheMap, cacheMap;
      hide Copied, Keys, Values;
      Redirect();
      source.Redirect();
      fetch, source.fetch := source.fetch, fetch;
      onEvict, source.onEvict := source.onEvict, onEvict;
    }
  }
}
