/**
 A sequence is found right after it was stored exactly when its distinct items fit the
 item cache: items already processed stay at the front of the recency queue, out of the
 reach of the evictions the rest of the sequence causes.
 */
module CacheListFits {
  import opened Wrappers
  import opened CacheListSpec
  import opened CacheListRuns
  import R = Recency

  function KeySet<I, H>(s: seq<I>, hash: I -> H): set<H> {
    set h | h in KeysOf(s, hash)
  }

  /** The |p| most recently used keys are exactly p. */
  ghost predicate InFront<H>(order: seq<H>, p: set<H>) {
    && |p| <= |order|
    && (forall h | h in p :: h in order[..|p|])
    && (forall h | h in order[..|p|] :: h in p)
  }

  /** Pushing a key to the front of a list whose front is p leaves p and the key in front. */
  lemma PushInFront<H>(order: seq<H>, p: set<H>, h: H)
    requires InFront(order, p) && h !in p
    ensures InFront([h] + order, p + {h})
  {
    var q := p + {h};
    assert ([h] + order)[..|q|] == [h] + order[..|p|];
  }

  lemma TouchInFront<H>(order: seq<H>, p: set<H>, h: H)
    requires R.Distinct(order) && InFront(order, p) && h in order
    ensures InFront(R.Touch(order, h), p + {h})
  {
    var n := |p|;
    R.WithoutProperties(order, h);
    R.WithoutTake(order, h, n);
    if h in p {
      assert p + {h} == p && h in order[..n];
      R.WithoutProperties(order[..n], h);
      assert R.Touch(order, h)[..n] == [h] + R.Without(order[..n], h);
    } else {
      assert h !in order[..n];
      assert order[..|order|] == order;
      var w := R.Without(order, h);
      assert w[..n] == order[..n];
      assert InFront(w, p);
      PushInFront(w, p, h);
    }
  }

  lemma RetainInFront<I, H>(items: Items<I, H>, item: I, hash: I -> H, p: set<H>)
    requires R.Wf(items) && InFront(items.order, p) && |p + {hash(item)}| <= items.cap
    ensures R.Wf(Retain(items, item, hash))
    ensures InFront(Retain(items, item, hash).order, p + {hash(item)})
  {
    var h := hash(item);
    if h in items.vals {
      R.UpdateWf(items, h, items.vals[h].(refCnt := items.vals[h].refCnt + 1));
      TouchInFront(items.order, p, h);
    } else {
      R.PushNewWf(items, h, ItemData(item, 1));
      assert h !in p;
      var room := R.Room(items);
      assert room.order[..|p|] == items.order[..|p|];
      PushInFront(room.order, p, h);
    }
  }

  lemma {:induction false} RetainAllInFront<I, H>(items: Items<I, H>, s: seq<I>, hash: I -> H)
    requires R.Wf(items) && |KeySet(s, hash)| <= items.cap
    ensures R.Wf(RetainAll(items, s, hash))
    ensures InFront(RetainAll(items, s, hash).order, KeySet(s, hash))
  {
    if s != [] {
      var n := |s| - 1;
      var p := KeySet(s[..n], hash);
      assert KeysOf(s, hash) == KeysOf(s[..n], hash) + [hash(s[n])];
      assert KeySet(s, hash) == p + {hash(s[n])};
      if hash(s[n]) in p { assert p + {hash(s[n])} == p; }
      RetainAllInFront(items, s[..n], hash);
      RetainInFront(RetainAll(items, s[..n], hash), s[n], hash, p);
    } else {
      assert KeySet(s, hash) == {};
    }
  }

  lemma {:induction false} DistinctHoldsSet<H>(order: seq<H>, p: set<H>)
    requires forall h | h in p :: h in order
    ensures |p| <= |order|
  {
    if order != [] {
      var n := |order| - 1;
      forall h | h in p - {order[n]} ensures h in order[..n] {
        var i :| 0 <= i < |order| && order[i] == h;
        assert order[..n][i] == h;
      }
      DistinctHoldsSet(order[..n], p - {order[n]});
    } else {
      assert p == {};
    }
  }

  lemma {:induction false} RetainAllWf<I, H>(items: Items<I, H>, s: seq<I>, hash: I -> H)
    requires R.Wf(items)
    ensures R.Wf(RetainAll(items, s, hash))
  {
    if s != [] {
      var n := |s| - 1;
      RetainAllWf(items, s[..n], hash);
      var prev := RetainAll(items, s[..n], hash);
      var h := hash(s[n]);
      if h in prev.vals {
        R.UpdateWf(prev, h, prev.vals[h].(refCnt := prev.vals[h].refCnt + 1));
      } else {
        R.PushNewWf(prev, h, ItemData(s[n], 1));
      }
    }
  }

  /** Storing a sequence leaves all of it cached iff its distinct item keys fit. */
  lemma AllCachedIffFits<I, H>(items: Items<I, H>, s: seq<I>, hash: I -> H)
    requires R.Wf(items)
    ensures AllCached(RetainAll(items, s, hash), KeysOf(s, hash)) <==> |KeySet(s, hash)| <= items.cap
  {
    var after := RetainAll(items, s, hash);
    var hs, p := KeysOf(s, hash), KeySet(s, hash);
    RetainAllWf(items, s, hash);
    if |p| <= items.cap {
      RetainAllInFront(items, s, hash);
      forall i | 0 <= i < |hs| ensures hs[i] in after.vals {
        assert hs[i] in p;
        assert hs[i] in after.order[..|p|];
        assert hs[i] in after.order;
      }
    }
    if AllCached(after, hs) {
      forall h | h in p ensures h in after.order {
        var i :| 0 <= i < |hs| && hs[i] == h;
        assert h in after.vals;
      }
      DistinctHoldsSet(after.order, p);
    }
  }

  lemma FilledIsFoundIffFits<K, I, H>(c: Lists<K, I, H>, stored: map<K, seq<I>>, k: K, s: seq<I>,
                                      hash: I -> H, u: set<I>)
    requires R.Wf(c.items) && InjectiveOn(hash, u)
    requires Inv(Run(Fill(c, k, s, hash), stored[k := s]), hash, u, false)
    ensures Found(Fill(c, k, s, hash), k) == if |KeySet(s, hash)| <= c.items.cap then Some(s) else None
  {
    AllCachedIffFits(c.items, s, hash);
    var d := Fill(c, k, s, hash);
    if Has(d, k) {
      FoundIsRecorded(Run(d, stored[k := s]), k, hash, u, false);
    }
  }

  /** In every reachable state, an insert that succeeds is followed by a find of the same sequence iff it fits. */
  lemma InsertedIsFoundIffFits<K, I, H>(cap: nat, ops: seq<Op<K, I>>, k: K, s: seq<I>, hash: I -> H, u: set<I>)
    requires 0 < cap && forall op :: op in ops ==> Allowed(op) && OpWithin(op, u)
    requires Within(s, u) && InjectiveOn(hash, u)
    requires !Has(RunAll<K, I, H>(cap, ops, hash).c, k)
    ensures var c := RunAll<K, I, H>(cap, ops, hash).c;
            && 0 < c.items.cap && 0 < c.seqs.cap
            && Found(Insert(c, k, s, hash), k) == if |KeySet(s, hash)| <= c.items.cap then Some(s) else None
  {
    RunKeeps<K, I, H>(cap, ops, hash, u, false);
    var r := RunAll<K, I, H>(cap, ops, hash);
    InsertKeeps(r, k, s, hash, u, false);
    ContainsKeeps(r, k, hash, u, false);
    var d := Contains(r.c, k);
    if |d.seqs.order| >= d.seqs.cap {
      RoomKeeps(r.(c := d), hash, u, false);
    }
    FilledIsFoundIffFits(Open(d, k), r.stored, k, s, hash, u);
  }

  /** The same for update. */
  lemma UpdatedIsFoundIffFits<K, I, H>(cap: nat, ops: seq<Op<K, I>>, k: K, s: seq<I>, hash: I -> H, u: set<I>)
    requires 0 < cap && forall op :: op in ops ==> Allowed(op) && OpWithin(op, u)
    requires Within(s, u) && InjectiveOn(hash, u)
    requires k in RunAll<K, I, H>(cap, ops, hash).c.seqs.vals
    ensures var c := RunAll<K, I, H>(cap, ops, hash).c;
            && 0 < c.items.cap
            && Found(Update(c, k, s, hash), k) == if |KeySet(s, hash)| <= c.items.cap then Some(s) else None
  {
    RunKeeps<K, I, H>(cap, ops, hash, u, false);
    var r := RunAll<K, I, H>(cap, ops, hash);
    UpdateKeeps(r, k, s, hash, u, false);
    EraseKeeps(r, k, hash, u, false);
    FilledIsFoundIffFits(Lists(R.Find(r.c.seqs, k), ReleaseAll(r.c.items, r.c.seqs.vals[k])), r.stored, k, s, hash, u);
  }

  // ---------------------------------------------------------- recency of sequences and items

  lemma FindOneInFront<I, H>(items: Items<I, H>, p: set<H>, h: H)
    requires R.Wf(items) && InFront(items.order, p) && h in items.vals
    ensures R.Wf(R.Find(items, h)) && InFront(R.Find(items, h).order, p + {h})
  {
    R.FindWf(items, h);
    TouchInFront(items.order, p, h);
  }

  function SetOf<H(==)>(hs: seq<H>): set<H> {
    set h | h in hs
  }

  lemma SetOfLast<H>(hs: seq<H>)
    requires hs != []
    ensures SetOf(hs) == SetOf(hs[..|hs| - 1]) + {hs[|hs| - 1]}
  {
    assert hs == hs[..|hs| - 1] + [hs[|hs| - 1]];
  }

  lemma FindAllLast<I, H>(items: Items<I, H>, hs: seq<H>)
    requires hs != [] && AllCached(items, hs)
    ensures AllCached(items, hs[..|hs| - 1]) && hs[|hs| - 1] in FindAll(items, hs[..|hs| - 1]).vals
    ensures FindAll(items, hs) == R.Find(FindAll(items, hs[..|hs| - 1]), hs[|hs| - 1])
  {
    hide R.Find;
  }

  lemma {:induction false} FindAllInFront<I, H>(items: Items<I, H>, hs: seq<H>)
    requires R.Wf(items) && AllCached(items, hs)
    ensures R.Wf(FindAll(items, hs)) && InFront(FindAll(items, hs).order, SetOf(hs))
  {
    if hs != [] {
      hide *;
      var n := |hs| - 1;
      FindAllLast(items, hs);
      FindAllInFront(items, hs[..n]);
      SetOfLast(hs);
      FindOneInFront(FindAll(items, hs[..n]), SetOf(hs[..n]), hs[n]);
    } else {
      assert SetOf(hs) == {};
    }
  }

  /** A sequence that is found becomes the most recent one, and its items the most recent items. */
  lemma FindMakesRecent<K, I, H>(c: Lists<K, I, H>, k: K)
    requires R.Wf(c.items) && Has(c, k)
    ensures Contains(c, k).seqs.order != [] && Contains(c, k).seqs.order[0] == k
    ensures Find(c, k).seqs.order != [] && Find(c, k).seqs.order[0] == k
    ensures InFront(Find(c, k).items.order, SetOf(c.seqs.vals[k]))
  {
    FindAllInFront(c.items, c.seqs.vals[k]);
  }

  /** So does a sequence that is stored. */
  lemma StoringMakesRecent<K, I, H>(c: Lists<K, I, H>, k: K, s: seq<I>, hash: I -> H)
    requires 0 < c.seqs.cap && 0 < c.items.cap
    ensures !Has(c, k) ==> Insert(c, k, s, hash).seqs.order != [] && Insert(c, k, s, hash).seqs.order[0] == k
    ensures k in c.seqs.vals ==> Update(c, k, s, hash).seqs.order != [] && Update(c, k, s, hash).seqs.order[0] == k
  {
    hide RetainAll, ReleaseAll;
  }

  /** An item that keeps a reference is used by the release. */
  lemma ReleasedIsRecent<I, H>(items: Items<I, H>, h: H)
    requires h in items.vals && h in Release(items, h).vals
    ensures Release(items, h).order != [] && Release(items, h).order[0] == h
  {
  }

  /** A smaller capacity keeps none but the most recent of the items there were before. */
  lemma SetCapacityKeepsRecentItems<K, I, H>(c: Lists<K, I, H>, n: nat, h: H)
    requires R.Wf(c.items) && 0 < n && h in SetCapacity(c, n).items.vals
    ensures h in c.items.order[..Min(n, |c.items.order|)]
  {
    R.ShrinkKeepsMostRecent(c.items.(cap := n), n);
    ReleaseEachOnlyRemoves(R.SetCapacity(c.items, n), R.Dropped(c.seqs.(cap := n), n));
  }

  lemma {:induction false} ReleaseAllOnlyRemoves<I, H>(items: Items<I, H>, hs: seq<H>)
    ensures ReleaseAll(items, hs).vals.Keys <= items.vals.Keys
  {
    if hs != [] {
      ReleaseAllOnlyRemoves(items, hs[..|hs| - 1]);
    }
  }

  lemma {:induction false} ReleaseEachOnlyRemoves<K, I, H>(items: Items<I, H>, evicted: seq<(K, seq<H>)>)
    ensures ReleaseEach(items, evicted).vals.Keys <= items.vals.Keys
  {
    if evicted != [] {
      var n := |evicted| - 1;
      ReleaseEachOnlyRemoves(items, evicted[..n]);
      ReleaseAllOnlyRemoves(ReleaseEach(items, evicted[..n]), evicted[n].1);
    }
  }
}
