/** The class CacheList: sequences of items over two LRU caches. */
module CacheLists {
  import opened Wrappers
  import opened LruCaches
  import opened CacheListSpec
  import R = Recency

  /** Identifies EvictSequence as the callback of the sequence cache. */
  const EVICT_SEQUENCE: nat := 0

  class CacheList<K(==), I, H(==)> {
    var capacity: nat
    const sequences: LRUCache<K, seq<H>>
    const items: LRUCache<H, ItemData<I>>
    const hash: I -> H
    /** The value-initialised item key that vector::resize fills with. */
    const blankKey: H

    ghost predicate Valid()
      reads this, sequences, items
    {
      && sequences as object != items as object
      && sequences as object != this as object
      && items as object != this as object
      && sequences.Valid() && items.Valid()
      && sequences.fetch == None && items.fetch == None && sequences.blank == []
      && sequences.onEvict == Some(EVICT_SEQUENCE) && items.onEvict == None
      && 0 < capacity && sequences.capacity == capacity && items.capacity == capacity
    }

    function State(): Lists<K, I, H>
      reads this, sequences, items
    {
      Lists(sequences.State(), items.State())
    }

    constructor (capacity: nat, hash: I -> H, blankItem: I, blankKey: H)
      requires 0 < capacity
      ensures Valid() && fresh(sequences) && fresh(items)
      ensures State() == Lists(R.Empty(capacity), R.Empty(capacity))
      ensures this.hash == hash && this.capacity == capacity
    {
      this.capacity := capacity;
      this.hash := hash;
      this.blankKey := blankKey;
      sequences := new LRUCache(capacity, []);
      items := new LRUCache(capacity, ItemData(blankItem, 0));
      new;
      sequences.SetEvictCallback(EVICT_SEQUENCE);
    }

    /** One pass over an item of a sequence being stored. */
    method Retain(item: I)
      requires Valid()
      modifies items`cacheMap, items`queue, items`nextId
      ensures Valid() && items.State() == CacheListSpec.Retain(old(items.State()), item, hash)
    {
      hide LRUCache.Valid;
      var itemKey := hash(item);
      var known := items.Contains(itemKey);
      if known {
        var data, _ := items.Access(itemKey);
        items.SetValue(itemKey, data.(refCnt := data.refCnt + 1));
      } else {
        var _, _ := items.Access(itemKey);
        items.SetValue(itemKey, ItemData(item, 1));
      }
    }

    /** The callback of the sequence cache, also called by erase and update. */
    method EvictSequence(itemKeys: seq<H>)
      requires Valid()
      modifies items`cacheMap, items`queue, items`nextId
      ensures Valid() && items.State() == ReleaseAll(old(items.State()), itemKeys)
    {
      hide LRUCache.Valid;
      for i := 0 to |itemKeys|
        invariant Valid() && items.State() == ReleaseAll(old(items.State()), itemKeys[..i])
      {
        assert itemKeys[..i + 1][..i] == itemKeys[..i];
        var cached := items.Contains(itemKeys[i]);
        if cached {
          var data, _ := items.Access(itemKeys[i]);
          var n := Dec(data.refCnt);
          items.SetValue(itemKeys[i], data.(refCnt := n));
          if n <= 0 {
            var _ := items.Erase(itemKeys[i]);
          }
        }
      }
      assert itemKeys[..|itemKeys|] == itemKeys;
    }

    /** Writes the item keys of s under key and takes a reference to every item. */
    method Fill(key: K, s: seq<I>)
      requires Valid() && key in sequences.State().vals
      modifies sequences`cacheMap, items`cacheMap, items`queue, items`nextId
      ensures Valid() && State() == CacheListSpec.Fill(old(State()), key, s, hash)
    {
      hide LRUCache.Valid;
      var itemKeys := sequences.Value(key);
      itemKeys := if |s| <= |itemKeys| then itemKeys[..|s|]
                  else itemKeys + seq(|s| - |itemKeys|, _ => blankKey);
      for i := 0 to |s|
        invariant Valid() && sequences.State() == old(sequences.State())
        invariant |itemKeys| == |s| && forall j :: 0 <= j < i ==> itemKeys[j] == hash(s[j])
        invariant items.State() == RetainAll(old(items.State()), s[..i], hash)
      {
        assert s[..i + 1][..i] == s[..i];
        itemKeys := itemKeys[i := hash(s[i])];
        Retain(s[i]);
      }
      assert s[..|s|] == s && itemKeys == KeysOf(s, hash);
      sequences.SetValue(key, itemKeys);
    }

    method Contains(key: K) returns (inCache: bool)
      requires Valid()
      modifies sequences`cacheMap, sequences`queue, sequences`nextId, items`cacheMap, items`queue, items`nextId
      ensures Valid() && State() == CacheListSpec.Contains(old(State()), key)
      ensures inCache == Has(old(State()), key)
    {
      hide LRUCache.Valid;
      var known := sequences.Contains(key);
      if !known {
        return false;
      }
      var itemKeys, _ := sequences.Access(key);
      for i := 0 to |itemKeys|
        invariant Valid() && items.State() == old(items.State())
        invariant sequences.State() == R.Find(old(sequences.State()), key)
        invariant forall j :: 0 <= j < i ==> itemKeys[j] in items.State().vals
      {
        var cached := items.Contains(itemKeys[i]);
        if !cached {
          var _ := Erase(key);
          return false;
        }
      }
      return true;
    }

    method Insert(key: K, s: seq<I>) returns (inserted: bool)
      requires Valid()
      modifies sequences`cacheMap, sequences`queue, sequences`nextId, items`cacheMap, items`queue, items`nextId
      ensures Valid() && State() == CacheListSpec.Insert(old(State()), key, s, hash)
      ensures inserted == !Has(old(State()), key)
    {
      hide LRUCache.Valid;
      var known := Contains(key);
      if known {
        return false;
      }
      ContainsLeavesAbsent(old(State()), key);
      var _, evicted := sequences.Access(key);
      if evicted.Some? {
        EvictSequence(evicted.value.1);
      }
      Fill(key, s);
      inserted := true;
    }

    method Erase(key: K) returns (erased: bool)
      requires Valid()
      modifies sequences`cacheMap, sequences`queue, sequences`nextId, items`cacheMap, items`queue, items`nextId
      ensures Valid() && State() == CacheListSpec.Erase(old(State()), key)
      ensures erased == (key in old(State()).seqs.vals)
    {
      hide LRUCache.Valid;
      var known := sequences.Contains(key);
      if !known {
        return false;
      }
      var itemKeys, _ := sequences.Access(key);
      EvictSequence(itemKeys);
      erased := sequences.Erase(key);
    }

    method Find(key: K) returns (res: Option<seq<I>>)
      requires Valid()
      modifies sequences`cacheMap, sequences`queue, sequences`nextId, items`cacheMap, items`queue, items`nextId
      ensures Valid() && State() == CacheListSpec.Find(old(State()), key)
      ensures res == Found(old(State()), key)
    {
      hide LRUCache.Valid, R.Touch, R.PushNew, R.PushedOut, CacheListSpec.Erase;
      var known := Contains(key);
      if !known {
        return None;
      }
      var itemKeys, _ := sequences.Access(key);
      var found: seq<I> := [];
      for i := 0 to |itemKeys|
        invariant Valid() && |found| == i
        invariant sequences.State() == R.Find(CacheListSpec.Contains(old(State()), key).seqs, key)
        invariant items.State() == FindAll(old(items.State()), itemKeys[..i])
        invariant forall j :: 0 <= j < i ==> found[j] == old(items.State()).vals[itemKeys[j]].item
      {
        assert itemKeys[..i + 1][..i] == itemKeys[..i];
        var data := items.Find(itemKeys[i]);
        found := found + [data.value.item];
      }
      assert itemKeys[..|itemKeys|] == itemKeys;
      assert found == Found(old(State()), key).value;
      res := Some(found);
    }

    method Update(key: K, s: seq<I>) returns (updated: bool)
      requires Valid()
      modifies sequences`cacheMap, sequences`queue, sequences`nextId, items`cacheMap, items`queue, items`nextId
      ensures Valid() && State() == CacheListSpec.Update(old(State()), key, s, hash)
      ensures updated == (key in old(State()).seqs.vals)
    {
      hide LRUCache.Valid;
      var known := sequences.Contains(key);
      if !known {
        return false;
      }
      var itemKeys, _ := sequences.Access(key);
      EvictSequence(itemKeys);
      Fill(key, s);
      updated := true;
    }

    method SetCapacity(n: nat)
      requires Valid() && 0 < n
      modifies this`capacity, sequences, items
      ensures Valid() && State() == CacheListSpec.SetCapacity(old(State()), n)
      ensures capacity == n
    {
      hide LRUCache.Valid;
      capacity := n;
      var _ := items.SetCapacity(n);
      ghost var shrunk := items.State();
      var evicted := sequences.SetCapacity(n);
      for i := 0 to |evicted|
        invariant Valid() && capacity == n && sequences.State() == R.SetCapacity(old(sequences.State()), n)
        invariant items.State() == ReleaseEach(shrunk, evicted[..i])
      {
        assert evicted[..i + 1][..i] == evicted[..i];
        EvictSequence(evicted[i].1);
      }
      assert evicted[..|evicted|] == evicted;
    }

    method Clear()
      requires Valid()
      modifies sequences`cacheMap, sequences`queue, items`cacheMap, items`queue
      ensures Valid() && State() == CacheListSpec.Clear(old(State()))
    {
      sequences.Clear();
      items.Clear();
    }
  }

  /** A sequence that contains rejects is not cached afterwards. */
  lemma ContainsLeavesAbsent<K, I, H>(c: Lists<K, I, H>, k: K)
    requires !Has(c, k)
    ensures k !in CacheListSpec.Contains(c, k).seqs.vals
  {
  }
}
