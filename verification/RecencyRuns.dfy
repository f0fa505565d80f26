/** LRU order over runs that mix every operation of the cache. */
module RecencyRuns {
  import opened Wrappers
  import opened Recency

  datatype Op<+K, +V> =
    | DoAccess(k: K)
    | DoInsert(k: K, v: V)
    | DoFind(k: K)
    | DoUpdate(k: K, v: V)
    | DoErase(k: K)
    | DoSetCapacity(n: nat)
    | DoEvict
    | DoClear

  ghost predicate Allowed<K, V>(op: Op<K, V>) {
    op.DoSetCapacity? ==> 0 < op.n
  }

  /** evict asserts that there is something to evict; without it nothing happens here. */
  function Step<K, V>(c: Lru<K, V>, op: Op<K, V>, init: K -> V): Lru<K, V>
    requires 0 < c.cap
  {
    match op
    case DoAccess(k) => Access(c, k, init(k))
    case DoInsert(k, v) => Insert(c, k, v)
    case DoFind(k) => Find(c, k)
    case DoUpdate(k, v) => Update(c, k, v)
    case DoErase(k) => Erase(c, k)
    case DoSetCapacity(n) => SetCapacity(c, n)
    case DoEvict => if c.order == [] then c else Evict(c)
    case DoClear => Empty(c.cap)
  }

  /** The key an operation uses: a lookup that hits, or a key that enters the cache. */
  function Uses<K, V>(c: Lru<K, V>, op: Op<K, V>): Option<K> {
    match op
    case DoAccess(k) => Some(k)
    case DoInsert(k, _) => if k in c.vals then None else Some(k)
    case DoFind(k) => if k in c.vals then Some(k) else None
    case DoUpdate(k, _) => if k in c.vals then Some(k) else None
    case _ => None
  }

  /** A cache, and for every key ever used the number of the operation that used it last. */
  datatype Run<K(==), V> = Run(c: Lru<K, V>, lastUse: map<K, nat>)

  function RunAll<K, V>(cap: nat, ops: seq<Op<K, V>>, init: K -> V): Run<K, V> {
    if ops == [] then Run(Empty(cap), map[])
    else
      var n := |ops| - 1;
      var r := RunAll(cap, ops[..n], init);
      if r.c.cap == 0 then r
      else
        Run(Step(r.c, ops[n], init), Noted(r.c, r.lastUse, ops[n], n))
  }

  ghost predicate ByLastUse<K>(order: seq<K>, lastUse: map<K, nat>, now: nat) {
    && (forall k | k in order :: k in lastUse && lastUse[k] < now)
    && (forall i, j :: 0 <= i < j < |order| ==>
          order[i] in lastUse && order[j] in lastUse && lastUse[order[i]] > lastUse[order[j]])
  }

  lemma WithoutByLastUse<K>(order: seq<K>, lastUse: map<K, nat>, now: nat, k: K)
    requires Distinct(order) && ByLastUse(order, lastUse, now)
    ensures ByLastUse(Without(order, k), lastUse, now)
  {
    WithoutProperties(order, k);
    var w := Without(order, k);
    forall i, j | 0 <= i < j < |w|
      ensures w[i] in lastUse && w[j] in lastUse && lastUse[w[i]] > lastUse[w[j]]
    {
      WithoutKeepsOrder(order, k, i, j);
    }
  }

  /** A key used now goes to the front of what was in order before. */
  lemma UseByLastUse<K>(order: seq<K>, lastUse: map<K, nat>, now: nat, k: K)
    requires ByLastUse(order, lastUse, now) && k !in order
    ensures ByLastUse([k] + order, lastUse[k := now], now + 1)
  {
    var s, u := [k] + order, lastUse[k := now];
    forall i, j | 0 <= i < j < |s| ensures s[i] in u && s[j] in u && u[s[i]] > u[s[j]] {
      assert s[j] == order[j - 1] && order[j - 1] in order;
      if i > 0 {
        assert s[i] == order[i - 1] && order[i - 1] in order;
      }
    }
  }

  lemma PrefixByLastUse<K>(order: seq<K>, lastUse: map<K, nat>, now: nat, n: nat)
    requires ByLastUse(order, lastUse, now) && n <= |order|
    ensures ByLastUse(order[..n], lastUse, now)
  {
  }

  lemma PushByLastUse<K, V>(c: Lru<K, V>, lastUse: map<K, nat>, now: nat, k: K, v: V)
    requires Wf(c) && k !in c.vals && ByLastUse(c.order, lastUse, now)
    ensures Wf(PushNew(c, k, v)) && ByLastUse(PushNew(c, k, v).order, lastUse[k := now], now + 1)
  {
    PushNewWf(c, k, v);
    var room := Room(c);
    PrefixByLastUse(c.order, lastUse, now, |room.order|);
    UseByLastUse(room.order, lastUse, now, k);
  }

  lemma TouchByLastUse<K, V>(c: Lru<K, V>, lastUse: map<K, nat>, now: nat, k: K)
    requires Wf(c) && k in c.vals && ByLastUse(c.order, lastUse, now)
    ensures Wf(c.(order := Touch(c.order, k))) && ByLastUse(Touch(c.order, k), lastUse[k := now], now + 1)
  {
    TouchWf(c, k);
    WithoutProperties(c.order, k);
    WithoutByLastUse(c.order, lastUse, now, k);
    UseByLastUse(Without(c.order, k), lastUse, now, k);
  }

  /** The last uses after one more operation, the now-th. */
  function Noted<K, V>(c: Lru<K, V>, lastUse: map<K, nat>, op: Op<K, V>, now: nat): map<K, nat> {
    if Uses(c, op).Some? then lastUse[Uses(c, op).value := now] else lastUse
  }

  lemma UpdateByLastUse<K, V>(c: Lru<K, V>, lastUse: map<K, nat>, now: nat, k: K, v: V)
    requires Wf(c) && k in c.vals && ByLastUse(c.order, lastUse, now)
    ensures Wf(Update(c, k, v)) && ByLastUse(Touch(c.order, k), lastUse[k := now], now + 1)
  {
    UpdateWf(c, k, v);
    TouchByLastUse(c, lastUse, now, k);
  }

  lemma EraseByLastUse<K, V>(c: Lru<K, V>, lastUse: map<K, nat>, now: nat, k: K)
    requires Wf(c) && ByLastUse(c.order, lastUse, now)
    ensures Wf(Erase(c, k)) && ByLastUse(Erase(c, k).order, lastUse, now + 1)
  {
    EraseWf(c, k);
    WithoutByLastUse(c.order, lastUse, now, k);
  }

  lemma SetCapacityByLastUse<K, V>(c: Lru<K, V>, lastUse: map<K, nat>, now: nat, n: nat)
    requires Wf(c) && 0 < n && ByLastUse(c.order, lastUse, now)
    ensures Wf(SetCapacity(c, n)) && ByLastUse(SetCapacity(c, n).order, lastUse, now + 1)
  {
    ShrinkKeepsMostRecent(c.(cap := n), n);
    PrefixByLastUse(c.order, lastUse, now, Min(n, |c.order|));
  }

  lemma EvictByLastUse<K, V>(c: Lru<K, V>, lastUse: map<K, nat>, now: nat)
    requires Wf(c) && c.order != [] && ByLastUse(c.order, lastUse, now)
    ensures Wf(Evict(c)) && ByLastUse(Evict(c).order, lastUse, now + 1)
  {
    EvictWf(c);
    PrefixByLastUse(c.order, lastUse, now, |c.order| - 1);
  }

  lemma StaysByLastUse<K, V>(c: Lru<K, V>, lastUse: map<K, nat>, now: nat)
    requires Wf(c) && ByLastUse(c.order, lastUse, now)
    ensures 0 < c.cap && ByLastUse(c.order, lastUse, now + 1)
    ensures Wf(Empty<K, V>(c.cap)) && ByLastUse(Empty<K, V>(c.cap).order, lastUse, now + 1)
  {
  }

  lemma StepByLastUse<K, V>(c: Lru<K, V>, lastUse: map<K, nat>, now: nat, op: Op<K, V>, init: K -> V)
    requires Wf(c) && Allowed(op) && ByLastUse(c.order, lastUse, now)
    ensures Wf(Step(c, op, init)) && ByLastUse(Step(c, op, init).order, Noted(c, lastUse, op, now), now + 1)
  {
    StaysByLastUse(c, lastUse, now);
    hide Wf, ByLastUse, Touch, PushNew, Erase, SetCapacity, Evict, Empty;
    match op
    case DoAccess(k) =>
      if k in c.vals { TouchByLastUse(c, lastUse, now, k); } else { PushByLastUse(c, lastUse, now, k, init(k)); }
    case DoInsert(k, v) =>
      if k !in c.vals { PushByLastUse(c, lastUse, now, k, v); }
    case DoFind(k) =>
      if k in c.vals { TouchByLastUse(c, lastUse, now, k); }
    case DoUpdate(k, v) =>
      if k in c.vals { UpdateByLastUse(c, lastUse, now, k, v); }
    case DoErase(k) => EraseByLastUse(c, lastUse, now, k);
    case DoSetCapacity(m) => SetCapacityByLastUse(c, lastUse, now, m);
    case DoEvict =>
      if c.order != [] { EvictByLastUse(c, lastUse, now); }
    case DoClear =>
  }

  /** Over any run the queue lists the cached keys by last use, latest first. */
  lemma {:induction false} RunOrdersByLastUse<K, V>(cap: nat, ops: seq<Op<K, V>>, init: K -> V)
    requires 0 < cap && forall op :: op in ops ==> Allowed(op)
    ensures var r := RunAll(cap, ops, init);
            Wf(r.c) && ByLastUse(r.c.order, r.lastUse, |ops|)
  {
    if ops != [] {
      var n := |ops| - 1;
      RunOrdersByLastUse(cap, ops[..n], init);
      var r := RunAll(cap, ops[..n], init);
      StepByLastUse(r.c, r.lastUse, n, ops[n], init);
    }
  }

  /** In any reachable state, eviction takes the key whose last use is the oldest, and only that key. */
  lemma EvictsLeastRecentlyUsed<K, V>(cap: nat, ops: seq<Op<K, V>>, init: K -> V)
    requires 0 < cap && forall op :: op in ops ==> Allowed(op)
    requires RunAll(cap, ops, init).c.order != []
    ensures var r := RunAll(cap, ops, init);
            && Victim(r.c).Some?
            && Evict(r.c).vals.Keys == r.c.vals.Keys - {Victim(r.c).value.0}
            && forall x :: x in r.c.vals && x != Victim(r.c).value.0 ==>
                 x in r.lastUse && Victim(r.c).value.0 in r.lastUse
                 && r.lastUse[Victim(r.c).value.0] < r.lastUse[x]
  {
    RunOrdersByLastUse(cap, ops, init);
    var r := RunAll(cap, ops, init);
    EvictWf(r.c);
    var last := |r.c.order| - 1;
    assert r.c.order[last] in r.c.order;
    forall x | x in r.c.vals && x != r.c.order[last]
      ensures x in r.lastUse && r.lastUse[r.c.order[last]] < r.lastUse[x]
    {
      var i :| 0 <= i < |r.c.order| && r.c.order[i] == x;
    }
  }

  // -------------------------------------------------- one operation, key by key

  /** What leaves a list cut to n keys was used before everything that stays. */
  lemma CutDropsOldest<K>(order: seq<K>, lastUse: map<K, nat>, now: nat, n: nat, x: K, y: K)
    requires ByLastUse(order, lastUse, now) && n <= |order|
    requires x in order && x !in order[..n] && y in order[..n]
    ensures x in lastUse && y in lastUse && lastUse[x] < lastUse[y]
  {
    var i :| 0 <= i < |order| && order[i] == x;
    var j :| 0 <= j < n && order[..n][j] == y;
    assert forall t :: 0 <= t < n ==> order[..n][t] == order[t] && order[t] in order[..n];
    assert n <= i;
  }

  /** A key enters the cache. */
  predicate Enters<K, V>(c: Lru<K, V>, op: Op<K, V>) {
    (op.DoAccess? || op.DoInsert?) && op.k !in c.vals
  }

  /** How many keys the operation leaves. */
  function Left<K, V>(c: Lru<K, V>, op: Op<K, V>): int {
    var n := |c.order|;
    match op
    case DoErase(k) => if k in c.vals then n - 1 else n
    case DoSetCapacity(m) => Min(n, m)
    case DoEvict => Max(n - 1, 0)
    case DoClear => 0
    case _ => if Enters(c, op) then Min(n + 1, c.cap) else n
  }

  /** The keys of one cache that another does not have were used before those they share. */
  ghost predicate LosesOldest<K, V>(c: Lru<K, V>, c': Lru<K, V>, lastUse: map<K, nat>) {
    forall x, y | x in c.vals && x !in c'.vals && y in c.vals && y in c'.vals ::
      x in lastUse && y in lastUse && lastUse[x] < lastUse[y]
  }

  /**
   One operation, in terms of keys and values alone: how many keys are left, which can enter,
   which leave, and what is stored under those that stay.
   */
  lemma StepMeans<K, V>(c: Lru<K, V>, lastUse: map<K, nat>, now: nat, op: Op<K, V>, init: K -> V)
    requires Wf(c) && Allowed(op) && ByLastUse(c.order, lastUse, now)
    ensures var c' := Step(c, op, init);
            && |c'.order| == Left(c, op)
            && c'.cap == (if op.DoSetCapacity? then op.n else c.cap)
            && (forall x | x in c'.vals :: x in c.vals || (Enters(c, op) && x == op.k))
            && (Enters(c, op) ==> op.k in c'.vals && c'.vals[op.k] == if op.DoInsert? then op.v else init(op.k))
            && (op.DoErase? ==> c'.vals.Keys == c.vals.Keys - {op.k})
            && (!op.DoErase? && !op.DoClear? ==> LosesOldest(c, c', lastUse))
            && (forall x | x in c.vals && x in c'.vals ::
                  c'.vals[x] == if op.DoUpdate? && op.k == x then op.v else c.vals[x])
  {
    var c' := Step(c, op, init);
    match op
    case DoErase(k) => EraseWf(c, k); WithoutLength(c.order, k);
    case DoSetCapacity(n) => SetCapacityMeans(c, lastUse, now, n);
    case DoEvict => if c.order != [] { EvictMeans(c, lastUse, now); }
    case DoClear =>
    case DoFind(k) => if k in c.vals { TouchWf(c, k); }
    case DoUpdate(k, v) => if k in c.vals { TouchWf(c, k); }
    case DoAccess(k) =>
      if k in c.vals { TouchWf(c, k); } else { PushMeans(c, lastUse, now, k, init(k)); }
    case DoInsert(k, v) =>
      if k !in c.vals { PushMeans(c, lastUse, now, k, v); }
  }

  lemma SetCapacityMeans<K, V>(c: Lru<K, V>, lastUse: map<K, nat>, now: nat, n: nat)
    requires Wf(c) && 0 < n && ByLastUse(c.order, lastUse, now)
    ensures var c' := SetCapacity(c, n);
            && c'.cap == n && |c'.order| == Min(|c.order|, n) && LosesOldest(c, c', lastUse)
            && forall x | x in c'.vals :: x in c.vals && c'.vals[x] == c.vals[x]
  {
    ShrinkKeepsMostRecent(c.(cap := n), n);
    CutLosesOldest(c, SetCapacity(c, n), lastUse, now, Min(n, |c.order|));
  }

  lemma EvictMeans<K, V>(c: Lru<K, V>, lastUse: map<K, nat>, now: nat)
    requires Wf(c) && c.order != [] && ByLastUse(c.order, lastUse, now)
    ensures var c' := Evict(c);
            && c'.cap == c.cap && |c'.order| == |c.order| - 1 && LosesOldest(c, c', lastUse)
            && forall x | x in c'.vals :: x in c.vals && c'.vals[x] == c.vals[x]
  {
    EvictWf(c);
    CutLosesOldest(c, Evict(c), lastUse, now, |c.order| - 1);
  }

  lemma CutLosesOldest<K, V>(c: Lru<K, V>, c': Lru<K, V>, lastUse: map<K, nat>, now: nat, n: nat)
    requires Wf(c) && n <= |c.order| && c'.order == c.order[..n] && ByLastUse(c.order, lastUse, now)
    requires forall x :: x in c'.vals <==> x in c'.order
    ensures LosesOldest(c, c', lastUse)
  {
    forall x, y | x in c.vals && x !in c'.vals && y in c.vals && y in c'.vals
      ensures x in lastUse && y in lastUse && lastUse[x] < lastUse[y]
    {
      CutDropsOldest(c.order, lastUse, now, n, x, y);
    }
  }

  lemma PushMeans<K, V>(c: Lru<K, V>, lastUse: map<K, nat>, now: nat, k: K, v: V)
    requires Wf(c) && k !in c.vals && ByLastUse(c.order, lastUse, now)
    ensures var c' := PushNew(c, k, v);
            && c'.cap == c.cap && |c'.order| == Min(|c.order| + 1, c.cap) && LosesOldest(c, c', lastUse)
            && k in c'.vals && c'.vals[k] == v
            && forall x | x in c'.vals && x != k :: x in c.vals && c'.vals[x] == c.vals[x]
  {
    if |c.order| >= c.cap {
      EvictMeans(c, lastUse, now);
    }
  }
}
