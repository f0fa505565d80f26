/**
 What CacheList keeps over whole runs: it never answers wrongly, its reference counts are
 sound, and no item outlives the sequences that use it.
 */
module CacheListRuns {
  import opened Wrappers
  import opened CacheListSpec
  import R = Recency

  type Items<I, H(==)> = R.Lru<H, ItemData<I>>

  datatype Op<+K, +I> =
    | DoContains(key: K)
    | DoInsert(key: K, s: seq<I>)
    | DoErase(key: K)
    | DoFind(key: K)
    | DoUpdate(key: K, s: seq<I>)
    | DoSetCapacity(n: nat)
    | DoClear

  ghost predicate Allowed<K, I>(op: Op<K, I>) {
    op.DoSetCapacity? ==> 0 < op.n
  }

  function Step<K, I, H>(c: Lists<K, I, H>, op: Op<K, I>, hash: I -> H): Lists<K, I, H>
    requires 0 < c.seqs.cap && 0 < c.items.cap
  {
    match op
    case DoContains(k) => Contains(c, k)
    case DoInsert(k, s) => Insert(c, k, s, hash)
    case DoErase(k) => Erase(c, k)
    case DoFind(k) => Find(c, k)
    case DoUpdate(k, s) => Update(c, k, s, hash)
    case DoSetCapacity(n) => SetCapacity(c, n)
    case DoClear => Clear(c)
  }

  /** The sequence last stored under each key: by an insert or update that reported success. */
  function Remember<K, I, H>(stored: map<K, seq<I>>, c: Lists<K, I, H>, op: Op<K, I>): map<K, seq<I>> {
    match op
    case DoInsert(k, s) => if !Has(c, k) then stored[k := s] else stored
    case DoUpdate(k, s) => if k in c.seqs.vals then stored[k := s] else stored
    case _ => stored
  }

  datatype Run<K(==), I, H(==)> = Run(c: Lists<K, I, H>, stored: map<K, seq<I>>)

  ghost function RunAll<K, I, H>(cap: nat, ops: seq<Op<K, I>>, hash: I -> H): Run<K, I, H>
    requires 0 < cap
  {
    if ops == [] then Run(Lists(R.Empty(cap), R.Empty(cap)), map[])
    else
      var n := |ops| - 1;
      var r := RunAll<K, I, H>(cap, ops[..n], hash);
      if 0 < r.c.seqs.cap && 0 < r.c.items.cap
      then Run(Step(r.c, ops[n], hash), Remember(r.stored, r.c, ops[n]))
      else r
  }

  // ------------------------------------------------------------- invariant

  /** Every occurrence of every item key in the cached sequences. */
  function Occurrences<K, H>(order: seq<K>, vals: map<K, seq<H>>): multiset<H>
    requires forall k :: k in order ==> k in vals
  {
    if order == [] then multiset{} else multiset(vals[order[0]]) + Occurrences(order[1..], vals)
  }

  /** Counts are at least one and at most the occurrences m; they are all there and exact if nothing got lost. */
  ghost predicate Counted<I, H>(items: Items<I, H>, m: multiset<H>, whole: bool) {
    && R.Wf(items)
    && (forall h | h in items.vals :: 1 <= items.vals[h].refCnt <= m[h])
    && (whole ==> forall h | h in m :: h in items.vals && items.vals[h].refCnt == m[h])
  }

  /** Every item is one of u, under its own hash. */
  ghost predicate Genuine<I, H>(items: Items<I, H>, hash: I -> H, u: set<I>) {
    forall h | h in items.vals :: items.vals[h].item in u && hash(items.vals[h].item) == h
  }

  ghost predicate Within<I>(s: seq<I>, u: set<I>) {
    forall x | x in s :: x in u
  }

  ghost predicate Recorded<K, I, H>(seqs: R.Lru<K, seq<H>>, stored: map<K, seq<I>>, hash: I -> H, u: set<I>) {
    forall k | k in seqs.vals ::
      k in stored && seqs.vals[k] == KeysOf(stored[k], hash) && Within(stored[k], u)
  }

  ghost predicate Inv<K, I, H>(r: Run<K, I, H>, hash: I -> H, u: set<I>, whole: bool) {
    && R.Wf(r.c.seqs)
    && (whole ==> |u| <= r.c.items.cap)
    && Counted(r.c.items, Occurrences(r.c.seqs.order, r.c.seqs.vals), whole)
    && Genuine(r.c.items, hash, u)
    && Recorded(r.c.seqs, r.stored, hash, u)
  }

  // ------------------------------------------------- occurrences in a list

  lemma {:induction false} OccurrencesWithout<K, H>(order: seq<K>, vals: map<K, seq<H>>, k: K)
    requires R.Distinct(order) && k in order && forall x :: x in order ==> x in vals
    ensures forall x :: x in R.Without(order, k) ==> x in vals
    ensures Occurrences(order, vals) == multiset(vals[k]) + Occurrences(R.Without(order, k), vals)
  {
    R.WithoutProperties(order, k);
    if order[0] != k {
      OccurrencesWithout(order[1..], vals, k);
      var w := R.Without(order[1..], k);
      assert ([order[0]] + w)[1..] == w;
    }
  }

  lemma {:induction false} OccurrencesLast<K, H>(order: seq<K>, vals: map<K, seq<H>>)
    requires order != [] && forall x :: x in order ==> x in vals
    ensures var n := |order| - 1;
            Occurrences(order, vals) == Occurrences(order[..n], vals) + multiset(vals[order[n]])
  {
    var n := |order| - 1;
    if n > 0 {
      OccurrencesLast(order[1..], vals);
      assert order[1..][..n - 1] == order[..n][1..];
    } else {
      assert order[1..] == [];
    }
  }

  lemma {:induction false} OccurrencesSame<K, H>(order: seq<K>, vals: map<K, seq<H>>, vals': map<K, seq<H>>)
    requires forall x :: x in order ==> x in vals && x in vals' && vals[x] == vals'[x]
    ensures Occurrences(order, vals) == Occurrences(order, vals')
  {
    if order != [] {
      OccurrencesSame(order[1..], vals, vals');
    }
  }

  lemma TouchOccurrences<K, H>(order: seq<K>, vals: map<K, seq<H>>, k: K)
    requires R.Distinct(order) && k in order && forall x :: x in order ==> x in vals
    ensures forall x :: x in R.Touch(order, k) ==> x in vals
    ensures Occurrences(R.Touch(order, k), vals) == Occurrences(order, vals)
  {
    OccurrencesWithout(order, vals, k);
    assert R.Touch(order, k)[1..] == R.Without(order, k);
  }

  // ------------------------------------------------ single item operations

  lemma RetainKeeps<I, H>(items: Items<I, H>, item: I, hash: I -> H, u: set<I>, m: multiset<H>, whole: bool)
    requires Counted(items, m, whole) && Genuine(items, hash, u) && item in u && (whole ==> |u| <= items.cap)
    ensures Counted(Retain(items, item, hash), m + multiset{hash(item)}, whole)
    ensures Genuine(Retain(items, item, hash), hash, u)
  {
    var h := hash(item);
    if h in items.vals {
      R.UpdateWf(items, h, items.vals[h].(refCnt := items.vals[h].refCnt + 1));
    } else {
      R.PushNewWf(items, h, ItemData(item, 1));
      RoomForNewItem(items, item, hash, u);
    }
  }

  /** An item that is not cached finds room if there are as many places as items to choose from. */
  lemma RoomForNewItem<I, H>(items: Items<I, H>, item: I, hash: I -> H, u: set<I>)
    requires R.Wf(items) && Genuine(items, hash, u) && item in u && hash(item) !in items.vals
    ensures |items.order| < |u|
  {
    FewItems(items.order, items.vals, hash, u - {item});
  }

  lemma {:induction false} FewItems<I, H>(order: seq<H>, vals: map<H, ItemData<I>>, hash: I -> H, u: set<I>)
    requires R.Distinct(order)
    requires forall h :: h in order ==> h in vals && vals[h].item in u && hash(vals[h].item) == h
    ensures |order| <= |u|
  {
    if order != [] {
      var n := |order| - 1;
      var x := vals[order[n]].item;
      assert order[n] in order && x in u;
      forall h | h in order[..n] ensures vals[h].item in u - {x} {
        var i :| 0 <= i < n && order[..n][i] == h;
        assert order[i] == h && h != order[n];
      }
      FewItems(order[..n], vals, hash, u - {x});
    }
  }

  lemma ReleaseKeeps<I, H>(items: Items<I, H>, h: H, hash: I -> H, u: set<I>, m: multiset<H>, whole: bool)
    requires Counted(items, m + multiset{h}, whole) && Genuine(items, hash, u)
    ensures Counted(Release(items, h), m, whole)
    ensures Genuine(Release(items, h), hash, u)
  {
    if h in items.vals {
      var touched := R.Update(items, h, items.vals[h].(refCnt := Dec(items.vals[h].refCnt)));
      R.UpdateWf(items, h, items.vals[h].(refCnt := Dec(items.vals[h].refCnt)));
      R.EraseWf(touched, h);
    }
  }

  lemma {:induction false} RetainAllKeeps<I, H>(items: Items<I, H>, s: seq<I>, hash: I -> H, u: set<I>, m: multiset<H>,
                                                whole: bool)
    requires Counted(items, m, whole) && Genuine(items, hash, u) && Within(s, u) && (whole ==> |u| <= items.cap)
    ensures Counted(RetainAll(items, s, hash), m + multiset(KeysOf(s, hash)), whole)
    ensures Genuine(RetainAll(items, s, hash), hash, u)
  {
    if s != [] {
      var n := |s| - 1;
      var m' := m + multiset(KeysOf(s[..n], hash));
      RetainAllKeeps(items, s[..n], hash, u, m, whole);
      RetainKeeps(RetainAll(items, s[..n], hash), s[n], hash, u, m', whole);
      assert KeysOf(s, hash) == KeysOf(s[..n], hash) + [hash(s[n])];
      assert m' + multiset{hash(s[n])} == m + multiset(KeysOf(s, hash));
    } else {
      assert m + multiset(KeysOf(s, hash)) == m;
    }
  }

  lemma {:induction false} ReleaseAllKeeps<I, H>(items: Items<I, H>, hs: seq<H>, hash: I -> H, u: set<I>,
                                                 m: multiset<H>, whole: bool)
    requires Counted(items, m + multiset(hs), whole) && Genuine(items, hash, u)
    ensures Counted(ReleaseAll(items, hs), m, whole)
    ensures Genuine(ReleaseAll(items, hs), hash, u)
  {
    if hs != [] {
      var n := |hs| - 1;
      assert hs == hs[..n] + [hs[n]];
      assert m + multiset(hs) == m + multiset{hs[n]} + multiset(hs[..n]);
      ReleaseAllKeeps(items, hs[..n], hash, u, m + multiset{hs[n]}, whole);
      ReleaseKeeps(ReleaseAll(items, hs[..n]), hs[n], hash, u, m, whole);
    } else {
      assert m + multiset(hs) == m;
    }
  }

  // --------------------------------------------------- operations keep Inv

  lemma TouchKeeps<K, I, H>(r: Run<K, I, H>, k: K, hash: I -> H, u: set<I>, whole: bool)
    requires Inv(r, hash, u, whole)
    ensures Inv(r.(c := r.c.(seqs := R.Find(r.c.seqs, k))), hash, u, whole)
  {
    R.FindWf(r.c.seqs, k);
    if k in r.c.seqs.vals {
      TouchOccurrences(r.c.seqs.order, r.c.seqs.vals, k);
    }
  }

  /** Dropping a sequence releases its items. */
  lemma DropKeeps<K, I, H>(r: Run<K, I, H>, k: K, hash: I -> H, u: set<I>, whole: bool)
    requires Inv(r, hash, u, whole) && k in r.c.seqs.vals
    ensures Inv(r.(c := Lists(R.Erase(r.c.seqs, k), ReleaseAll(r.c.items, r.c.seqs.vals[k]))), hash, u, whole)
  {
    hide Counted, Genuine, ReleaseAll;
    var seqs := r.c.seqs;
    var rest := R.Without(seqs.order, k);
    OccurrencesWithout(seqs.order, seqs.vals, k);
    R.WithoutProperties(seqs.order, k);
    var m := Occurrences(rest, seqs.vals);
    assert Occurrences(seqs.order, seqs.vals) == m + multiset(seqs.vals[k]);
    ReleaseAllKeeps(r.c.items, seqs.vals[k], hash, u, m, whole);
    R.EraseWf(seqs, k);
    OccurrencesSame(rest, seqs.vals, R.Erase(seqs, k).vals);
  }

  lemma EraseKeeps<K, I, H>(r: Run<K, I, H>, k: K, hash: I -> H, u: set<I>, whole: bool)
    requires Inv(r, hash, u, whole)
    ensures Inv(r.(c := Erase(r.c, k)), hash, u, whole)
  {
    if k in r.c.seqs.vals {
      TouchKeeps(r, k, hash, u, whole);
      DropKeeps(r.(c := r.c.(seqs := R.Find(r.c.seqs, k))), k, hash, u, whole);
      hide Inv, ReleaseAll;
    }
  }

  lemma ContainsKeeps<K, I, H>(r: Run<K, I, H>, k: K, hash: I -> H, u: set<I>, whole: bool)
    requires Inv(r, hash, u, whole)
    ensures Inv(r.(c := Contains(r.c, k)), hash, u, whole)
  {
    TouchKeeps(r, k, hash, u, whole);
    if k in r.c.seqs.vals {
      EraseKeeps(r.(c := r.c.(seqs := R.Find(r.c.seqs, k))), k, hash, u, whole);
    }
  }

  /** Room for a new sequence: the evicted one takes its references with it. */
  lemma RoomKeeps<K, I, H>(r: Run<K, I, H>, hash: I -> H, u: set<I>, whole: bool)
    requires Inv(r, hash, u, whole) && r.c.seqs.order != []
    ensures R.Victim(r.c.seqs).Some?
    ensures Inv(r.(c := Lists(R.Evict(r.c.seqs), ReleaseAll(r.c.items, R.Victim(r.c.seqs).value.1))), hash, u, whole)
  {
    var seqs := r.c.seqs;
    var n := |seqs.order| - 1;
    OccurrencesLast(seqs.order, seqs.vals);
    ReleaseAllKeeps(r.c.items, seqs.vals[seqs.order[n]], hash, u, Occurrences(seqs.order[..n], seqs.vals), whole);
    R.EvictWf(seqs);
    OccurrencesSame(seqs.order[..n], seqs.vals, R.Evict(seqs).vals);
  }

  lemma FillKeeps<K, I, H>(seqs: R.Lru<K, seq<H>>, items: Items<I, H>, stored: map<K, seq<I>>, k: K, s: seq<I>,
                           hash: I -> H, u: set<I>, whole: bool)
    requires R.Wf(seqs) && k in seqs.vals && seqs.order[0] == k && Within(s, u)
    requires forall x :: x in seqs.order[1..] ==> x in seqs.vals
    requires Counted(items, Occurrences(seqs.order[1..], seqs.vals), whole) && Genuine(items, hash, u)
    requires Recorded(seqs.(vals := seqs.vals - {k}), stored, hash, u) && (whole ==> |u| <= items.cap)
    ensures Inv(Run(Fill(Lists(seqs, items), k, s, hash), stored[k := s]), hash, u, whole)
  {
    var m := Occurrences(seqs.order[1..], seqs.vals);
    RetainAllKeeps(items, s, hash, u, m, whole);
    var filled := Fill(Lists(seqs, items), k, s, hash).seqs;
    assert k !in seqs.order[1..];
    OccurrencesSame(seqs.order[1..], seqs.vals, filled.vals);
    assert Occurrences(filled.order, filled.vals) == m + multiset(KeysOf(s, hash));
  }

  lemma InsertKeeps<K, I, H>(r: Run<K, I, H>, k: K, s: seq<I>, hash: I -> H, u: set<I>, whole: bool)
    requires Inv(r, hash, u, whole) && Within(s, u) && !Has(r.c, k)
    ensures Inv(Run(Insert(r.c, k, s, hash), r.stored[k := s]), hash, u, whole)
  {
    ContainsKeeps(r, k, hash, u, whole);
    var d := Contains(r.c, k);
    assert k !in d.seqs.vals;
    var roomy := if |d.seqs.order| >= d.seqs.cap
                 then Lists(R.Evict(d.seqs), ReleaseAll(d.items, R.Victim(d.seqs).value.1)) else d;
    if |d.seqs.order| >= d.seqs.cap {
      RoomKeeps(r.(c := d), hash, u, whole);
    }
    R.PushNewWf(roomy.seqs, k, []);
    var started := Open(d, k);
    assert started == Lists(R.PushNew(roomy.seqs, k, []), roomy.items);
    assert started.seqs.order[1..] == roomy.seqs.order;
    OccurrencesSame(roomy.seqs.order, roomy.seqs.vals, started.seqs.vals);
    FillKeeps(started.seqs, started.items, r.stored, k, s, hash, u, whole);
  }

  lemma UpdateKeeps<K, I, H>(r: Run<K, I, H>, k: K, s: seq<I>, hash: I -> H, u: set<I>, whole: bool)
    requires Inv(r, hash, u, whole) && Within(s, u) && k in r.c.seqs.vals
    ensures Inv(Run(Update(r.c, k, s, hash), r.stored[k := s]), hash, u, whole)
  {
    TouchKeeps(r, k, hash, u, whole);
    var seqs := R.Find(r.c.seqs, k);
    var rest := seqs.order[1..];
    assert seqs.order == [k] + rest;
    ReleaseAllKeeps(r.c.items, seqs.vals[k], hash, u, Occurrences(rest, seqs.vals), whole);
    FillKeeps(seqs, ReleaseAll(r.c.items, seqs.vals[k]), r.stored, k, s, hash, u, whole);
  }

  lemma {:induction false} FindAllKeeps<I, H>(items: Items<I, H>, hs: seq<H>)
    requires R.Wf(items)
    ensures R.Wf(FindAll(items, hs))
  {
    if hs != [] {
      FindAllKeeps(items, hs[..|hs| - 1]);
      R.FindWf(FindAll(items, hs[..|hs| - 1]), hs[|hs| - 1]);
    }
  }

  lemma FindKeeps<K, I, H>(r: Run<K, I, H>, k: K, hash: I -> H, u: set<I>, whole: bool)
    requires Inv(r, hash, u, whole)
    ensures Inv(r.(c := Find(r.c, k)), hash, u, whole)
  {
    ContainsKeeps(r, k, hash, u, whole);
    if Has(r.c, k) {
      var d := r.(c := Contains(r.c, k));
      TouchKeeps(d, k, hash, u, whole);
      FindAllKeeps(d.c.items, r.c.seqs.vals[k]);
    }
  }

  lemma {:induction false} ReleaseEachFirst<K, I, H>(items: Items<I, H>, e: (K, seq<H>), rest: seq<(K, seq<H>)>)
    ensures ReleaseEach(items, [e] + rest) == ReleaseEach(ReleaseAll(items, e.1), rest)
  {
    if rest != [] {
      ReleaseEachFirst(items, e, rest[..|rest| - 1]);
      assert ([e] + rest)[..|rest|] == [e] + rest[..|rest| - 1];
    } else {
      assert [e] + rest == [e] && [e][..0] == [];
      assert ReleaseEach<K, I, H>(items, []) == items;
    }
  }

  lemma {:induction false} ShrinkKeeps<K, I, H>(r: Run<K, I, H>, n: nat, hash: I -> H, u: set<I>, whole: bool)
    requires Inv(r, hash, u, whole) && 0 < n
    ensures Inv(r.(c := Lists(R.Shrink(r.c.seqs, n), ReleaseEach(r.c.items, R.Dropped(r.c.seqs, n)))), hash, u, whole)
    decreases |r.c.seqs.order|
  {
    if |r.c.seqs.order| > n {
      RoomKeeps(r, hash, u, whole);
      var e := R.Victim(r.c.seqs).value;
      var next := Lists(R.Evict(r.c.seqs), ReleaseAll(r.c.items, e.1));
      ShrinkKeeps(r.(c := next), n, hash, u, whole);
      ReleaseEachFirst(r.c.items, e, R.Dropped(next.seqs, n));
    }
  }

  lemma {:induction false} ShrinkIgnoresCapacity<K, V>(c: R.Lru<K, V>, cap: nat, n: nat)
    ensures R.Shrink(c.(cap := cap), n) == R.Shrink(c, n).(cap := cap)
    ensures R.Dropped(c.(cap := cap), n) == R.Dropped(c, n)
    decreases |c.order|
  {
    if |c.order| > n {
      ShrinkIgnoresCapacity(R.Evict(c), cap, n);
      assert R.Evict(c.(cap := cap)) == R.Evict(c).(cap := cap);
    }
  }

  lemma SetCapacityKeeps<K, I, H>(r: Run<K, I, H>, n: nat, hash: I -> H, u: set<I>, whole: bool)
    requires Inv(r, hash, u, whole) && 0 < n && (whole ==> |u| <= n)
    ensures Inv(r.(c := SetCapacity(r.c, n)), hash, u, whole)
  {
    var items := r.c.items.(cap := n);
    R.ShrinkKeepsMostRecent(items, n);
    var small := R.SetCapacity(r.c.items, n);
    assert R.Wf(small);
    if whole {
      FewItems(r.c.items.order, r.c.items.vals, hash, u);
      assert r.c.items.order[..|r.c.items.order|] == r.c.items.order;
    }
    var r' := r.(c := r.c.(items := small));
    ShrinkKeeps(r', n, hash, u, whole);
    ShrinkIgnoresCapacity(r.c.seqs, n, n);
    R.ShrinkKeepsMostRecent(r.c.seqs, n);
  }

  ghost predicate OpWithin<K, I>(op: Op<K, I>, u: set<I>) {
    (op.DoInsert? || op.DoUpdate?) ==> Within(op.s, u)
  }

  /** No operation lowers the capacity below the number of items to choose from. */
  ghost predicate Roomy<K, I>(op: Op<K, I>, u: set<I>) {
    op.DoSetCapacity? ==> |u| <= op.n
  }

  lemma ClearKeeps<K, I, H>(r: Run<K, I, H>, hash: I -> H, u: set<I>, whole: bool)
    requires Inv(r, hash, u, whole)
    ensures 0 < r.c.seqs.cap && 0 < r.c.items.cap && Inv(r.(c := Clear(r.c)), hash, u, whole)
  {
  }

  lemma UpdateSkips<K, I, H>(c: Lists<K, I, H>, k: K, s: seq<I>, hash: I -> H)
    requires k !in c.seqs.vals && 0 < c.items.cap
    ensures Update(c, k, s, hash) == c
  {
  }

  lemma StepKeeps<K, I, H>(r: Run<K, I, H>, op: Op<K, I>, hash: I -> H, u: set<I>, whole: bool)
    requires Inv(r, hash, u, whole) && Allowed(op) && OpWithin(op, u) && (whole ==> Roomy(op, u))
    ensures Inv(Run(Step(r.c, op, hash), Remember(r.stored, r.c, op)), hash, u, whole)
  {
    ClearKeeps(r, hash, u, whole);
    hide Inv, Within, Contains, Find, Erase, Update, SetCapacity, Clear, Open, Fill;
    match op
    case DoContains(k) => ContainsKeeps(r, k, hash, u, whole);
    case DoInsert(k, s) =>
      if Has(r.c, k) { ContainsKeeps(r, k, hash, u, whole); } else { InsertKeeps(r, k, s, hash, u, whole); }
    case DoErase(k) => EraseKeeps(r, k, hash, u, whole);
    case DoFind(k) => FindKeeps(r, k, hash, u, whole);
    case DoUpdate(k, s) =>
      if k in r.c.seqs.vals { UpdateKeeps(r, k, s, hash, u, whole); } else { UpdateSkips(r.c, k, s, hash); }
    case DoSetCapacity(n) => SetCapacityKeeps(r, n, hash, u, whole);
    case DoClear =>
  }

  lemma {:induction false} RunKeeps<K, I, H>(cap: nat, ops: seq<Op<K, I>>, hash: I -> H, u: set<I>, whole: bool)
    requires 0 < cap && forall op :: op in ops ==> Allowed(op) && OpWithin(op, u)
    requires whole ==> |u| <= cap && forall op :: op in ops ==> Roomy(op, u)
    ensures Inv(RunAll<K, I, H>(cap, ops, hash), hash, u, whole)
  {
    if ops != [] {
      var n := |ops| - 1;
      RunKeeps<K, I, H>(cap, ops[..n], hash, u, whole);
      StepKeeps(RunAll<K, I, H>(cap, ops[..n], hash), ops[n], hash, u, whole);
    }
  }

  // ---------------------------------------------------------- main results

  ghost predicate InjectiveOn<I, H>(hash: I -> H, u: set<I>) {
    forall x, y | x in u && y in u && hash(x) == hash(y) :: x == y
  }

  /**
   The cache may forget but never answers wrongly: after any run, what find returns under a
   key is the sequence last stored there, whatever was shared, evicted or resized meanwhile.
   */
  lemma NeverAnswersWrongly<K, I, H>(cap: nat, ops: seq<Op<K, I>>, hash: I -> H, u: set<I>, k: K)
    requires 0 < cap && forall op :: op in ops ==> Allowed(op) && OpWithin(op, u)
    requires InjectiveOn(hash, u)
    ensures var r := RunAll<K, I, H>(cap, ops, hash);
            Found(r.c, k).Some? ==> k in r.stored && Found(r.c, k).value == r.stored[k]
  {
    RunKeeps<K, I, H>(cap, ops, hash, u, false);
    var r := RunAll<K, I, H>(cap, ops, hash);
    if Has(r.c, k) {
      FoundIsRecorded(r, k, hash, u, false);
    }
  }

  /** What find returns under any key is what was last stored there. */
  ghost predicate AnswersRightly<K(!new), I, H>(cap: nat, ops: seq<Op<K, I>>, hash: I -> H)
    requires 0 < cap
  {
    var r := RunAll<K, I, H>(cap, ops, hash);
    forall k :: Found(r.c, k).Some? ==> k in r.stored && Found(r.c, k).value == r.stored[k]
  }

  ghost predicate RunWithin<K, I>(ops: seq<Op<K, I>>, u: set<I>) {
    forall op :: op in ops ==> Allowed(op) && OpWithin(op, u)
  }

  /**
   A cache of any capacity answers rightly in all runs over the items of u exactly if the hash
   tells them apart.
   */
  lemma RightInAllRunsIffInjective<K(!new), I(!new), H>(cap: nat, hash: I -> H, u: set<I>, k: K)
    requires 0 < cap
    ensures (forall ops: seq<Op<K, I>> :: RunWithin(ops, u) ==> AnswersRightly(cap, ops, hash)) <==>
            InjectiveOn(hash, u)
  {
    if InjectiveOn(hash, u) {
      forall ops: seq<Op<K, I>> | RunWithin(ops, u) ensures AnswersRightly(cap, ops, hash) {
        forall key | Found(RunAll<K, I, H>(cap, ops, hash).c, key).Some?
          ensures key in RunAll<K, I, H>(cap, ops, hash).stored
          ensures Found(RunAll<K, I, H>(cap, ops, hash).c, key).value == RunAll<K, I, H>(cap, ops, hash).stored[key]
        {
          NeverAnswersWrongly<K, I, H>(cap, ops, hash, u, key);
        }
      }
    }
    if forall ops: seq<Op<K, I>> :: RunWithin(ops, u) ==> AnswersRightly(cap, ops, hash) {
      forall x, y | x in u && y in u && hash(x) == hash(y) ensures x == y {
        var ops: seq<Op<K, I>> := [DoInsert(k, [x, y])];
        assert RunWithin(ops, u);
        assert AnswersRightly(cap, ops, hash);
        EqualHashesMerge<K, I, H>(cap, k, x, y, hash);
        assert [x, x][1] == [x, y][1];
      }
    }
  }

  /** Two items of one hash in a sequence: both are found as the first. */
  lemma EqualHashesMerge<K, I, H>(cap: nat, k: K, x: I, y: I, hash: I -> H)
    requires 0 < cap && hash(x) == hash(y)
    ensures var r := RunAll<K, I, H>(cap, [DoInsert(k, [x, y])], hash);
            Found(r.c, k) == Some([x, x]) && k in r.stored && r.stored[k] == [x, y]
  {
    var ops: seq<Op<K, I>> := [DoInsert(k, [x, y])];
    assert ops[..0] == [];
    var items: Items<I, H> := R.Empty(cap);
    var start: Lists<K, I, H> := Lists(R.Empty(cap), items);
    assert RunAll<K, I, H>(cap, ops[..0], hash) == Run(start, map[]);
    assert RunAll<K, I, H>(cap, ops, hash).c == Insert(start, k, [x, y], hash);
    RetainedTwice(items, x, y, hash);
    var c := Fill(Open(start, k), k, [x, y], hash);
    assert Open(start, k) == Lists(R.PushNew(start.seqs, k, []), items);
    assert c.seqs.vals[k] == [hash(x), hash(x)];
    assert Found(c, k).value == [x, x];
  }

  lemma RetainedTwice<I, H>(items: Items<I, H>, x: I, y: I, hash: I -> H)
    requires items == R.Empty(items.cap) && 0 < items.cap && hash(x) == hash(y)
    ensures RetainAll(items, [x, y], hash).vals == map[hash(x) := ItemData(x, 2)]
  {
    assert [x, y][..1] == [x] && [x][..0] == [];
    assert RetainAll(items, [x][..0], hash) == items;
    assert RetainAll(items, [x], hash) == R.PushNew(items, hash(x), ItemData(x, 1));
    assert RetainAll(items, [x], hash).vals == map[hash(x) := ItemData(x, 1)];
  }

  lemma FoundIsRecorded<K, I, H>(r: Run<K, I, H>, k: K, hash: I -> H, u: set<I>, whole: bool)
    requires Inv(r, hash, u, whole) && InjectiveOn(hash, u) && Has(r.c, k)
    ensures k in r.stored && Found(r.c, k) == Some(r.stored[k])
  {
    var s, hs := r.stored[k], r.c.seqs.vals[k];
    var f := Found(r.c, k).value;
    forall i | 0 <= i < |s| ensures f[i] == s[i] {
      assert hs[i] == hash(s[i]) && s[i] in s;
      assert hs[i] in r.c.items.vals;
      assert hash(r.c.items.vals[hs[i]].item) == hs[i];
    }
    assert f == s;
  }

  /** Reference counts over any run: never zero, never more than the occurrences in cached sequences. */
  lemma CountsAreSound<K, I, H>(cap: nat, ops: seq<Op<K, I>>, hash: I -> H, u: set<I>, h: H)
    requires 0 < cap && forall op :: op in ops ==> Allowed(op) && OpWithin(op, u)
    requires h in RunAll<K, I, H>(cap, ops, hash).c.items.vals
    ensures var c := RunAll<K, I, H>(cap, ops, hash).c;
            && (forall k :: k in c.seqs.order ==> k in c.seqs.vals)
            && 1 <= c.items.vals[h].refCnt <= Occurrences(c.seqs.order, c.seqs.vals)[h]
  {
    RunKeeps<K, I, H>(cap, ops, hash, u, false);
  }

  lemma {:induction false} OccurrenceIsInSomeSequence<K, H>(order: seq<K>, vals: map<K, seq<H>>, h: H)
    requires (forall k :: k in order ==> k in vals) && 0 < Occurrences(order, vals)[h]
    ensures exists k :: k in order && h in vals[k]
  {
    if h in vals[order[0]] {
      assert order[0] in order;
    } else {
      OccurrenceIsInSomeSequence(order[1..], vals, h);
    }
  }

  /** No item outlives the sequences that use it. */
  lemma NoOrphans<K, I, H>(cap: nat, ops: seq<Op<K, I>>, hash: I -> H, u: set<I>, h: H)
    requires 0 < cap && forall op :: op in ops ==> Allowed(op) && OpWithin(op, u)
    requires h in RunAll<K, I, H>(cap, ops, hash).c.items.vals
    ensures var c := RunAll<K, I, H>(cap, ops, hash).c;
            exists k :: k in c.seqs.vals && h in c.seqs.vals[k]
  {
    CountsAreSound<K, I, H>(cap, ops, hash, u, h);
    var c := RunAll<K, I, H>(cap, ops, hash).c;
    OccurrenceIsInSomeSequence(c.seqs.order, c.seqs.vals, h);
  }

  /** Erases the keys one after the other. */
  function EraseEach<K, I, H>(r: Run<K, I, H>, ks: seq<K>): Run<K, I, H> {
    if ks == [] then r
    else
      var prev := EraseEach(r, ks[..|ks| - 1]);
      prev.(c := Erase(prev.c, ks[|ks| - 1]))
  }

  function Erasures<K, I>(ks: seq<K>): seq<Op<K, I>> {
    seq(|ks|, i requires 0 <= i < |ks| => DoErase(ks[i]))
  }

  lemma ErasuresLast<K, I>(ops: seq<Op<K, I>>, ks: seq<K>)
    requires ks != []
    ensures ops + Erasures(ks) == ops + Erasures(ks[..|ks| - 1]) + [DoErase(ks[|ks| - 1])]
  {
  }

  lemma RunOneMore<K, I, H>(cap: nat, ops: seq<Op<K, I>>, op: Op<K, I>, hash: I -> H, u: set<I>)
    requires 0 < cap && Inv(RunAll<K, I, H>(cap, ops, hash), hash, u, false)
    ensures var r := RunAll<K, I, H>(cap, ops, hash);
            RunAll<K, I, H>(cap, ops + [op], hash) == Run(Step(r.c, op, hash), Remember(r.stored, r.c, op))
  {
    assert (ops + [op])[..|ops|] == ops;
  }

  lemma {:induction false} EraseEachErases<K, I, H>(r: Run<K, I, H>, ks: seq<K>, hash: I -> H, u: set<I>)
    requires Inv(r, hash, u, false)
    ensures Inv(EraseEach(r, ks), hash, u, false)
    ensures forall k :: k in EraseEach(r, ks).c.seqs.vals ==> k in r.c.seqs.vals && k !in ks
  {
    if ks != [] {
      var n := |ks| - 1;
      EraseEachErases(r, ks[..n], hash, u);
      EraseKeeps(EraseEach(r, ks[..n]), ks[n], hash, u, false);
      assert ks == ks[..n] + [ks[n]];
    }
  }

  lemma {:induction false} RunOfErasures<K, I, H>(cap: nat, ops: seq<Op<K, I>>, ks: seq<K>, hash: I -> H, u: set<I>)
    requires 0 < cap && Inv(RunAll<K, I, H>(cap, ops, hash), hash, u, false)
    ensures RunAll<K, I, H>(cap, ops + Erasures(ks), hash) == EraseEach(RunAll<K, I, H>(cap, ops, hash), ks)
  {
    if ks == [] {
      assert ops + Erasures(ks) == ops;
    } else {
      var n := |ks| - 1;
      var prefix := ops + Erasures(ks[..n]);
      RunOfErasures<K, I, H>(cap, ops, ks[..n], hash, u);
      EraseEachErases(RunAll<K, I, H>(cap, ops, hash), ks[..n], hash, u);
      ErasuresLast(ops, ks);
      hide RunAll, Inv, Erase;
      RunOneMore<K, I, H>(cap, prefix, DoErase(ks[n]), hash, u);
    }
  }

  /** Erasing every sequence leaves the item cache empty. */
  lemma ErasingEverySequenceEmptiesItems<K, I, H>(cap: nat, ops: seq<Op<K, I>>, ks: seq<K>, hash: I -> H, u: set<I>)
    requires 0 < cap && forall op :: op in ops ==> Allowed(op) && OpWithin(op, u)
    requires forall k :: k in RunAll<K, I, H>(cap, ops, hash).c.seqs.vals ==> k in ks
    ensures var c := RunAll<K, I, H>(cap, ops + Erasures(ks), hash).c;
            c.items.vals == map[] && c.items.order == [] && c.seqs.order == []
  {
    RunKeeps<K, I, H>(cap, ops, hash, u, false);
    RunOfErasures<K, I, H>(cap, ops, ks, hash, u);
    EraseEachErases(RunAll<K, I, H>(cap, ops, hash), ks, hash, u);
    var c := RunAll<K, I, H>(cap, ops + Erasures(ks), hash).c;
    assert c.seqs.vals.Keys == {};
    R.OrderEmptyIffNoKeys(c.seqs);
    assert c.items.vals.Keys == {};
    R.OrderEmptyIffNoKeys(c.items);
  }
}
