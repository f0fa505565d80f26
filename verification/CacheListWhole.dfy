/**
 While everything fits, the cache list is a plain map from keys to sequences: sharing items,
 counting references and releasing them never shows.
 */
module CacheListWhole {
  import opened Wrappers
  import opened CacheListSpec
  import opened CacheListRuns
  import R = Recency

  lemma {:induction false} OccursInSequence<K, H>(order: seq<K>, vals: map<K, seq<H>>, k: K, h: H)
    requires (forall x :: x in order ==> x in vals) && k in order && h in vals[k]
    ensures h in Occurrences(order, vals)
  {
    if k != order[0] {
      assert order == [order[0]] + order[1..];
      OccursInSequence(order[1..], vals, k, h);
    }
  }

  /** As long as no item had to be evicted, every cached sequence is complete. */
  lemma WholeIsCached<K, I, H>(r: Run<K, I, H>, k: K, hash: I -> H, u: set<I>)
    requires Inv(r, hash, u, true)
    ensures Has(r.c, k) <==> k in r.c.seqs.vals
  {
    if k in r.c.seqs.vals {
      var hs := r.c.seqs.vals[k];
      forall i | 0 <= i < |hs| ensures hs[i] in r.c.items.vals {
        OccursInSequence(r.c.seqs.order, r.c.seqs.vals, k, hs[i]);
      }
    }
  }

  ghost predicate AllRoomy<K, I>(cap: nat, ops: seq<Op<K, I>>, u: set<I>) {
    0 < cap && |u| <= cap && forall op :: op in ops ==> Allowed(op) && OpWithin(op, u) && Roomy(op, u)
  }

  /** With as many places as items to choose from, every cached sequence is found as it was stored. */
  lemma NothingIsLost<K, I, H>(cap: nat, ops: seq<Op<K, I>>, hash: I -> H, u: set<I>, k: K)
    requires AllRoomy(cap, ops, u) && InjectiveOn(hash, u)
    ensures var r := RunAll<K, I, H>(cap, ops, hash);
            k in r.c.seqs.vals ==> k in r.stored && Found(r.c, k) == Some(r.stored[k])
  {
    RunKeeps<K, I, H>(cap, ops, hash, u, true);
    var r := RunAll<K, I, H>(cap, ops, hash);
    if k in r.c.seqs.vals {
      WholeIsCached(r, k, hash, u);
      FoundIsRecorded(r, k, hash, u, true);
    }
  }

  /** Erasing a sequence leaves every other one as it was, whatever items they share. */
  lemma ErasingKeepsOthers<K, I, H>(cap: nat, ops: seq<Op<K, I>>, hash: I -> H, u: set<I>, k: K, other: K)
    requires AllRoomy(cap, ops, u) && InjectiveOn(hash, u) && other != k
    ensures var c := RunAll<K, I, H>(cap, ops, hash).c;
            Found(Erase(c, k), other) == Found(c, other) && Found(Erase(c, k), k) == None
  {
    var erase: Op<K, I> := DoErase(k);
    var more := ops + [erase];
    RunKeeps<K, I, H>(cap, ops, hash, u, false);
    RunOneMore<K, I, H>(cap, ops, erase, hash, u);
    NothingIsLost<K, I, H>(cap, ops, hash, u, other);
    NothingIsLost<K, I, H>(cap, more, hash, u, other);
    var r := RunAll<K, I, H>(cap, ops, hash);
    assert RunAll<K, I, H>(cap, more, hash) == Run(Erase(r.c, k), r.stored);
    ErasedKeys(r.c, k);
  }

  lemma ErasedKeys<K, I, H>(c: Lists<K, I, H>, k: K)
    ensures Erase(c, k).seqs.vals.Keys == c.seqs.vals.Keys - {k}
  {
  }

  // ---------------------------------------------------------- as a plain map

  function PlainStep<K, I>(m: map<K, seq<I>>, op: Op<K, I>): map<K, seq<I>> {
    match op
    case DoInsert(k, s) => if k in m then m else m[k := s]
    case DoUpdate(k, s) => if k in m then m[k := s] else m
    case DoErase(k) => m - {k}
    case DoClear => map[]
    case _ => m
  }

  function PlainRun<K, I>(ops: seq<Op<K, I>>): map<K, seq<I>> {
    if ops == [] then map[] else PlainStep(PlainRun(ops[..|ops| - 1]), ops[|ops| - 1])
  }

  /** The operation names keys of ks only, and leaves room for all of them. */
  ghost predicate KeysWithin<K, I>(op: Op<K, I>, ks: set<K>) {
    && (op.DoInsert? || op.DoUpdate? ==> op.key in ks)
    && (op.DoSetCapacity? ==> |ks| <= op.n)
  }

  ghost predicate Plain<K, I, H>(r: Run<K, I, H>, m: map<K, seq<I>>, hash: I -> H, u: set<I>, ks: set<K>) {
    && Inv(r, hash, u, true)
    && |ks| <= r.c.seqs.cap
    && m.Keys <= ks
    && r.c.seqs.vals.Keys == m.Keys
    && (forall k | k in m :: k in r.stored && r.stored[k] == m[k])
  }

  lemma {:induction false} FewKeys<K>(order: seq<K>, ks: set<K>)
    requires R.Distinct(order) && forall k :: k in order ==> k in ks
    ensures |order| <= |ks|
  {
    if order != [] {
      var n := |order| - 1;
      assert order[n] in order;
      forall k | k in order[..n] ensures k in ks - {order[n]} {
        var i :| 0 <= i < n && order[..n][i] == k;
        assert order[i] == k;
      }
      FewKeys(order[..n], ks - {order[n]});
    }
  }

  /** A new key finds room. */
  lemma RoomForKey<K, I, H>(r: Run<K, I, H>, m: map<K, seq<I>>, hash: I -> H, u: set<I>, ks: set<K>, k: K)
    requires Plain(r, m, hash, u, ks) && k in ks && k !in m
    ensures |r.c.seqs.order| < r.c.seqs.cap
  {
    var order := r.c.seqs.order;
    forall x | x in order ensures x in ks - {k} {
      assert x in r.c.seqs.vals.Keys;
    }
    FewKeys(order, ks - {k});
  }

  lemma InsertedKeys<K, I, H>(c: Lists<K, I, H>, k: K, s: seq<I>, hash: I -> H)
    requires 0 < c.seqs.cap && 0 < c.items.cap && |c.seqs.order| < c.seqs.cap && k !in c.seqs.vals
    ensures Insert(c, k, s, hash).seqs.vals.Keys == c.seqs.vals.Keys + {k}
    ensures Insert(c, k, s, hash).seqs.cap == c.seqs.cap
  {
    assert Contains(c, k) == c;
    assert Open(c, k).seqs.vals == c.seqs.vals[k := []];
  }

  lemma ShrinkNothing<K, I, H>(r: Run<K, I, H>, m: map<K, seq<I>>, hash: I -> H, u: set<I>, ks: set<K>, n: nat)
    requires Plain(r, m, hash, u, ks) && |ks| <= n
    ensures SetCapacity(r.c, n).seqs == r.c.seqs.(cap := n)
  {
    forall x | x in r.c.seqs.order ensures x in ks {
      assert x in r.c.seqs.vals.Keys;
    }
    FewKeys(r.c.seqs.order, ks);
  }

  lemma HitKeys<K, I, H>(c: Lists<K, I, H>, k: K)
    requires Has(c, k) <==> k in c.seqs.vals
    ensures Contains(c, k).seqs.vals.Keys == Find(c, k).seqs.vals.Keys == c.seqs.vals.Keys
    ensures Contains(c, k).seqs.cap == Find(c, k).seqs.cap == c.seqs.cap
  {
    hide FindAll;
  }

  lemma UpdatedKeys<K, I, H>(c: Lists<K, I, H>, k: K, s: seq<I>, hash: I -> H)
    requires 0 < c.items.cap
    ensures Update(c, k, s, hash).seqs.vals.Keys == c.seqs.vals.Keys && Update(c, k, s, hash).seqs.cap == c.seqs.cap
  {
    hide ReleaseAll, RetainAll;
  }

  lemma StepKeys<K, I, H>(r: Run<K, I, H>, m: map<K, seq<I>>, op: Op<K, I>, hash: I -> H, u: set<I>, ks: set<K>)
    requires Plain(r, m, hash, u, ks) && Allowed(op) && KeysWithin(op, ks) && 0 < r.c.seqs.cap && 0 < r.c.items.cap
    ensures Step(r.c, op, hash).seqs.vals.Keys == PlainStep(m, op).Keys
    ensures |ks| <= Step(r.c, op, hash).seqs.cap
  {
    hide Inv, AllCached, FindAll, ReleaseAll, RetainAll;
    if op.DoContains? || op.DoInsert? || op.DoFind? {
      WholeIsCached(r, op.key, hash, u);
      HitKeys(r.c, op.key);
    }
    if op.DoInsert? && op.key !in m {
      RoomForKey(r, m, hash, u, ks, op.key);
      InsertedKeys(r.c, op.key, op.s, hash);
    }
    if op.DoInsert? && op.key in m {
      assert Insert(r.c, op.key, op.s, hash) == Contains(r.c, op.key);
    }
    match op
    case DoErase(k) => ErasedKeys(r.c, k);
    case DoSetCapacity(n) => ShrinkNothing(r, m, hash, u, ks, n);
    case DoUpdate(k, s) => UpdatedKeys(r.c, k, s, hash);
    case DoContains(_) => hide Contains, Find;
    case DoInsert(_, _) => hide Insert, Contains, Find;
    case DoFind(_) => hide Contains, Find;
    case DoClear =>
  }

  lemma RememberIsPlain<K, I, H>(r: Run<K, I, H>, m: map<K, seq<I>>, op: Op<K, I>, hash: I -> H, u: set<I>, ks: set<K>)
    requires Plain(r, m, hash, u, ks)
    ensures forall k | k in PlainStep(m, op) ::
              k in Remember(r.stored, r.c, op) && Remember(r.stored, r.c, op)[k] == PlainStep(m, op)[k]
  {
    if op.DoInsert? {
      WholeIsCached(r, op.key, hash, u);
      hide Inv, Has;
    }
  }

  lemma StepIsPlain<K, I, H>(r: Run<K, I, H>, m: map<K, seq<I>>, op: Op<K, I>, hash: I -> H, u: set<I>, ks: set<K>)
    requires Plain(r, m, hash, u, ks)
    requires Allowed(op) && OpWithin(op, u) && Roomy(op, u) && KeysWithin(op, ks)
    ensures 0 < r.c.seqs.cap && 0 < r.c.items.cap
    ensures Plain(Run(Step(r.c, op, hash), Remember(r.stored, r.c, op)), PlainStep(m, op), hash, u, ks)
  {
    ClearKeeps(r, hash, u, true);
    StepKeeps(r, op, hash, u, true);
    StepKeys(r, m, op, hash, u, ks);
    RememberIsPlain(r, m, op, hash, u, ks);
    PlainKeysWithin(m, op, ks);
    hide Inv, Step, Remember, PlainStep, KeysWithin, OpWithin, Roomy;
  }

  lemma PlainKeysWithin<K, I>(m: map<K, seq<I>>, op: Op<K, I>, ks: set<K>)
    requires m.Keys <= ks && KeysWithin(op, ks)
    ensures PlainStep(m, op).Keys <= ks
  {
  }

  lemma {:induction false} RunIsPlain<K, I, H>(cap: nat, ops: seq<Op<K, I>>, hash: I -> H, u: set<I>, ks: set<K>)
    requires AllRoomy(cap, ops, u) && |ks| <= cap && forall op :: op in ops ==> KeysWithin(op, ks)
    ensures Plain(RunAll<K, I, H>(cap, ops, hash), PlainRun(ops), hash, u, ks)
  {
    if ops != [] {
      var n := |ops| - 1;
      RunIsPlain<K, I, H>(cap, ops[..n], hash, u, ks);
      StepIsPlain(RunAll<K, I, H>(cap, ops[..n], hash), PlainRun(ops[..n]), ops[n], hash, u, ks);
    } else {
      RunKeeps<K, I, H>(cap, ops, hash, u, true);
    }
  }

  /**
   With as many places as there are keys and items to choose from, find returns after any run
   exactly what a plain map would hold.
   */
  lemma PlainMapWhileItFits<K, I, H>(cap: nat, ops: seq<Op<K, I>>, hash: I -> H, u: set<I>, ks: set<K>, k: K)
    requires AllRoomy(cap, ops, u) && InjectiveOn(hash, u)
    requires |ks| <= cap && forall op :: op in ops ==> KeysWithin(op, ks)
    ensures Found(RunAll<K, I, H>(cap, ops, hash).c, k) ==
            if k in PlainRun(ops) then Some(PlainRun(ops)[k]) else None
  {
    RunIsPlain<K, I, H>(cap, ops, hash, u, ks);
    NothingIsLost<K, I, H>(cap, ops, hash, u, k);
  }
}
