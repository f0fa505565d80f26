/**
 The abstract value of an LRU cache: a recency list (most recently used key first)
 beside a map of values. The class LRUCache in LruCache.dfy is proved against these
 functions; the laws of the recency discipline are proved here.
 */
module Recency {
  import opened Wrappers

  datatype Lru<K(==), V> = Lru(cap: nat, order: seq<K>, vals: map<K, V>)

  predicate Distinct<T(==)>(s: seq<T>) {
    forall i, j :: 0 <= i < j < |s| ==> s[i] != s[j]
  }

  ghost predicate Wf<K, V>(c: Lru<K, V>) {
    && 0 < c.cap
    && |c.order| <= c.cap
    && Distinct(c.order)
    && (forall k :: k in c.order ==> k in c.vals)
    && (forall k :: k in c.vals ==> k in c.order)
  }

  function Empty<K, V>(cap: nat): Lru<K, V> {
    Lru(cap, [], map[])
  }

  /** The list with the first occurrence of k taken out. */
  function Without<T(==)>(s: seq<T>, k: T): seq<T> {
    if s == [] then []
    else if s[0] == k then s[1..]
    else [s[0]] + Without(s[1..], k)
  }

  function Touch<T(==)>(s: seq<T>, k: T): seq<T> {
    [k] + Without(s, k)
  }

  function Evict<K, V>(c: Lru<K, V>): Lru<K, V>
    requires c.order != []
  {
    var n := |c.order| - 1;
    c.(order := c.order[..n], vals := c.vals - {c.order[n]})
  }

  /** The entry Evict takes out. */
  function Victim<K, V>(c: Lru<K, V>): Option<(K, V)> {
    if c.order != [] && c.order[|c.order| - 1] in c.vals
    then Some((c.order[|c.order| - 1], c.vals[c.order[|c.order| - 1]]))
    else None
  }

  /** What pushing a new key evicts. */
  function PushedOut<K, V>(c: Lru<K, V>): Option<(K, V)> {
    if |c.order| >= c.cap then Victim(c) else None
  }

  /** Makes room for one more key. */
  function Room<K, V>(c: Lru<K, V>): Lru<K, V>
    requires 0 < c.cap
  {
    if |c.order| >= c.cap then Evict(c) else c
  }

  function PushNew<K, V>(c: Lru<K, V>, k: K, v: V): Lru<K, V>
    requires 0 < c.cap
  {
    var r := Room(c);
    r.(order := [k] + r.order, vals := r.vals[k := v])
  }

  /** operator[]: init is the value a new element starts with. */
  function Access<K, V>(c: Lru<K, V>, k: K, init: V): Lru<K, V>
    requires 0 < c.cap
  {
    if k in c.vals then c.(order := Touch(c.order, k)) else PushNew(c, k, init)
  }

  function Insert<K, V>(c: Lru<K, V>, k: K, v: V): Lru<K, V>
    requires 0 < c.cap
  {
    if k in c.vals then c else PushNew(c, k, v)
  }

  function Find<K, V>(c: Lru<K, V>, k: K): Lru<K, V> {
    if k in c.vals then c.(order := Touch(c.order, k)) else c
  }

  function Update<K, V>(c: Lru<K, V>, k: K, v: V): Lru<K, V> {
    if k in c.vals then c.(order := Touch(c.order, k), vals := c.vals[k := v]) else c
  }

  function Erase<K, V>(c: Lru<K, V>, k: K): Lru<K, V> {
    if k in c.vals then c.(order := Without(c.order, k), vals := c.vals - {k}) else c
  }

  /** Evicts until at most n keys are left. */
  function Shrink<K, V>(c: Lru<K, V>, n: nat): Lru<K, V>
    decreases |c.order|
  {
    if |c.order| <= n then c else Shrink(Evict(c), n)
  }

  /** The entries Shrink evicts, in the order it evicts them. */
  function Dropped<K, V>(c: Lru<K, V>, n: nat): seq<(K, V)>
    decreases |c.order|
  {
    if |c.order| <= n then []
    else (if Victim(c).Some? then [Victim(c).value] else []) + Dropped(Evict(c), n)
  }

  function SetCapacity<K, V>(c: Lru<K, V>, n: nat): Lru<K, V> {
    Shrink(c.(cap := n), n)
  }

  // ------------------------------------------------------------ list lemmas

  lemma WithoutProperties<T>(s: seq<T>, k: T)
    requires Distinct(s)
    ensures Distinct(Without(s, k))
    ensures forall x :: x in Without(s, k) ==> x in s && x != k
    ensures forall x :: x in s && x != k ==> x in Without(s, k)
    ensures |Without(s, k)| == |s| - (if k in s then 1 else 0)
  {
    WithoutIsDistinct(s, k);
    WithoutLength(s, k);
    forall x ensures x in Without(s, k) <==> x in s && x != k {
      WithoutMember(s, k, x);
    }
  }

  lemma HeadOrTail<T>(s: seq<T>, x: T)
    requires s != []
    ensures x in s <==> x == s[0] || x in s[1..]
  {
    assert s == [s[0]] + s[1..];
  }

  lemma DistinctTail<T>(s: seq<T>)
    requires Distinct(s) && s != []
    ensures Distinct(s[1..]) && s[0] !in s[1..]
  {
  }

  lemma {:induction false} WithoutMember<T>(s: seq<T>, k: T, x: T)
    requires Distinct(s)
    ensures x in Without(s, k) <==> x in s && x != k
  {
    if s != [] {
      DistinctTail(s);
      HeadOrTail(s, x);
      if s[0] != k {
        WithoutMember(s[1..], k, x);
        var w := Without(s[1..], k);
        assert x in [s[0]] + w <==> x == s[0] || x in w;
      }
    }
  }

  lemma {:induction false} WithoutLength<T>(s: seq<T>, k: T)
    ensures |Without(s, k)| == |s| - (if k in s then 1 else 0)
  {
    if s != [] {
      HeadOrTail(s, k);
      if s[0] != k {
        WithoutLength(s[1..], k);
      }
    }
  }

  lemma {:induction false} WithoutIsDistinct<T>(s: seq<T>, k: T)
    requires Distinct(s)
    ensures Distinct(Without(s, k))
  {
    if s != [] {
      DistinctTail(s);
      if s[0] != k {
        WithoutIsDistinct(s[1..], k);
        WithoutMember(s[1..], k, s[0]);
        DistinctPush(s[0], Without(s[1..], k));
      }
    }
  }

  lemma DistinctPush<T>(x: T, s: seq<T>)
    requires Distinct(s) && x !in s
    ensures Distinct([x] + s)
    ensures forall y :: y in [x] + s ==> y == x || y in s
    ensures x in [x] + s && forall y :: y in s ==> y in [x] + s
  {
  }

  lemma {:induction false} WithoutAbsent<T>(s: seq<T>, k: T)
    requires k !in s
    ensures Without(s, k) == s
  {
    if s != [] {
      WithoutAbsent(s[1..], k);
      assert s == [s[0]] + s[1..];
    }
  }

  lemma {:induction false} WithoutAt<T>(s: seq<T>, i: nat)
    requires Distinct(s) && i < |s|
    ensures Without(s, s[i]) == s[..i] + s[i + 1..]
  {
    if i > 0 {
      WithoutAt(s[1..], i - 1);
      assert s[1..][i - 1] == s[i];
      assert s[1..][..i - 1] == s[1..i];
      assert s[1..][i - 1 + 1..] == s[i + 1..];
      assert s[..i] == [s[0]] + s[1..i];
    }
  }

  /** Cutting a list around its i-th element and to a length commute. */
  lemma TakeAround<T>(s: seq<T>, i: nat, n: nat)
    requires i < |s| && n <= |s|
    ensures i < n ==> s[..n][..i] + s[..n][i + 1..] == (s[..i] + s[i + 1..])[..n - 1]
    ensures n <= i ==> (s[..i] + s[i + 1..])[..n] == s[..n]
  {
    var w := s[..i] + s[i + 1..];
    if i < n {
      assert s[..n][..i] == s[..i];
      assert s[..n][i + 1..] == s[i + 1..n] == s[i + 1..][..n - 1 - i];
      assert w[..n - 1] == s[..i] + s[i + 1..][..n - 1 - i];
    }
  }

  /** Taking a key out of a list and cutting the list commute. */
  lemma {:induction false} WithoutTake<T>(s: seq<T>, k: T, n: nat)
    requires Distinct(s) && n <= |s|
    ensures k in s[..n] ==>
              n > 0 && |Without(s, k)| >= n - 1 && Without(s[..n], k) == Without(s, k)[..n - 1]
    ensures k !in s[..n] ==>
              var w := Without(s, k);
              |w| >= Min(n, |s| - 1) && w[..Min(n, |w|)] == s[..Min(n, |w|)]
  {
    var w := Without(s, k);
    if k in s {
      var i :| 0 <= i < |s| && s[i] == k;
      WithoutAt(s, i);
      if i < n {
        assert s[..n][i] == k;
        WithoutAt(s[..n], i);
        TakeAround(s, i, n);
        hide Without;
      } else {
        TakeAround(s, i, n);
        hide Without;
        assert forall j :: 0 <= j < n ==> s[..n][j] == s[j] != k;
      }
    } else {
      WithoutAbsent(s, k);
      hide Without;
      assert forall j :: 0 <= j < n ==> s[..n][j] == s[j];
      assert w[..n] == s[..n];
    }
  }

  // ------------------------------------------------------- well-formedness

  lemma OrderEmptyIffNoKeys<K, V>(c: Lru<K, V>)
    requires Wf(c)
    ensures c.order == [] <==> c.vals.Keys == {}
  {
    if c.order != [] {
      assert c.order[0] in c.vals.Keys;
    }
  }

  lemma EvictWf<K, V>(c: Lru<K, V>)
    requires Wf(c) && c.order != []
    ensures Wf(Evict(c))
    ensures Evict(c).vals.Keys == c.vals.Keys - {c.order[|c.order| - 1]}
  {
    var n := |c.order| - 1;
    forall k ensures k in c.order[..n] <==> k in c.vals && k != c.order[n] {
      if k in c.vals {
        var i :| 0 <= i < |c.order| && c.order[i] == k;
        if k != c.order[n] {
          assert c.order[..n][i] == k;
        }
      }
    }
  }

  lemma TouchWf<K, V>(c: Lru<K, V>, k: K)
    requires Wf(c) && k in c.vals
    ensures Wf(c.(order := Touch(c.order, k)))
    ensures |Touch(c.order, k)| == |c.order|
  {
    WithoutProperties(c.order, k);
    var t := Touch(c.order, k);
    assert k in c.order;
    forall x | x in t ensures x in c.vals {
      assert x == k || x in Without(c.order, k);
      assert x in c.order;
    }
    forall x | x in c.vals ensures x in t {
      assert x in c.order;
      assert x == k || x in Without(c.order, k);
    }
  }

  lemma PushNewWf<K, V>(c: Lru<K, V>, k: K, v: V)
    requires Wf(c) && k !in c.vals
    ensures Wf(PushNew(c, k, v))
  {
    if |c.order| >= c.cap {
      EvictWf(c);
    }
  }

  lemma AccessWf<K, V>(c: Lru<K, V>, k: K, v: V)
    requires Wf(c)
    ensures Wf(Access(c, k, v))
    ensures k in Access(c, k, v).vals && Access(c, k, v).order[0] == k
  {
    if k in c.vals {
      TouchWf(c, k);
    } else {
      PushNewWf(c, k, v);
    }
  }

  lemma FindWf<K, V>(c: Lru<K, V>, k: K)
    requires Wf(c)
    ensures Wf(Find(c, k))
  {
    if k in c.vals {
      TouchWf(c, k);
    }
  }

  lemma UpdateWf<K, V>(c: Lru<K, V>, k: K, v: V)
    requires Wf(c)
    ensures Wf(Update(c, k, v))
  {
    if k in c.vals {
      TouchWf(c, k);
    }
  }

  lemma EraseWf<K, V>(c: Lru<K, V>, k: K)
    requires Wf(c)
    ensures Wf(Erase(c, k))
    ensures Erase(c, k).vals.Keys == c.vals.Keys - {k}
  {
    WithoutProperties(c.order, k);
    if k in c.vals {
      var w := Without(c.order, k);
      forall x | x in w ensures x in c.vals && x != k {
        assert x in c.order;
      }
      forall x | x in c.vals && x != k ensures x in w {
        assert x in c.order;
      }
    }
  }

  /** Shrinking keeps exactly the n most recently used keys, with their values. */
  lemma {:induction false} ShrinkKeepsMostRecent<K, V>(c: Lru<K, V>, n: nat)
    requires Distinct(c.order) && (forall k :: k in c.order <==> k in c.vals)
    ensures Shrink(c, n).order == c.order[..Min(n, |c.order|)]
    ensures Shrink(c, n).cap == c.cap
    ensures forall k :: k in Shrink(c, n).vals <==> k in Shrink(c, n).order
    ensures forall k :: k in Shrink(c, n).vals ==> k in c.vals && Shrink(c, n).vals[k] == c.vals[k]
    decreases |c.order|
  {
    hide Distinct;
    if |c.order| > n {
      var big := c.(cap := |c.order|);
      EvictWf(big);
      assert Evict(c).order == Evict(big).order && Evict(c).vals == Evict(big).vals;
      ShrinkKeepsMostRecent(Evict(c), n);
      assert Evict(c).order[..n] == c.order[..n];
    } else {
      assert c.order[..|c.order|] == c.order;
    }
  }

  // --------------------------------------- runs of operator[] only

  function AccessAll<K, V>(c: Lru<K, V>, ks: seq<K>, init: K -> V): (r: Lru<K, V>)
    requires 0 < c.cap
    ensures r.cap == c.cap
  {
    if ks == [] then c
    else
      var n := |ks| - 1;
      Access(AccessAll(c, ks[..n], init), ks[n], init(ks[n]))
  }

  /** All keys ever accessed, the last accessed first. */
  function Recent<K(==)>(ks: seq<K>): seq<K> {
    if ks == [] then [] else Touch(Recent(ks[..|ks| - 1]), ks[|ks| - 1])
  }

  /** Position of the last access to k, or -1. */
  function LastUse<K(==)>(ks: seq<K>, k: K): int {
    if ks == [] then -1
    else if ks[|ks| - 1] == k then |ks| - 1
    else LastUse(ks[..|ks| - 1], k)
  }

  lemma {:induction false} LastUseMeaning<K>(ks: seq<K>, k: K)
    ensures -1 <= LastUse(ks, k) < |ks|
    ensures LastUse(ks, k) >= 0 ==> ks[LastUse(ks, k)] == k
    ensures forall i :: LastUse(ks, k) < i < |ks| ==> ks[i] != k
  {
    if ks != [] {
      LastUseMeaning(ks[..|ks| - 1], k);
    }
  }

  /** The keys of r are listed by their last use in ks, latest first. */
  ghost predicate ByUse<K>(ks: seq<K>, r: seq<K>) {
    forall i, j :: 0 <= i < j < |r| ==> LastUse(ks, r[i]) > LastUse(ks, r[j])
  }

  /** Recent really is the order of last use: distinct keys, exactly those accessed, latest first. */
  lemma {:induction false} RecentOrdersByLastUse<K>(ks: seq<K>)
    ensures Distinct(Recent(ks))
    ensures forall k :: k in Recent(ks) <==> k in ks
    ensures forall i, j :: 0 <= i < j < |Recent(ks)| ==> LastUse(ks, Recent(ks)[i]) > LastUse(ks, Recent(ks)[j])
  {
    if ks != [] {
      var n := |ks| - 1;
      var r, k := Recent(ks[..n]), ks[n];
      RecentOrdersByLastUse(ks[..n]);
      assert ByUse(ks[..n], r);
      RecentAfterOneMore(ks[..n], k);
      WithoutByUse(ks[..n], r, k);
      WithoutMember(r, k, k);
      MoreByUse(ks[..n], k, Without(r, k));
      assert ks[..n] + [k] == ks;
      assert ByUse(ks, Recent(ks));
      hide Without, LastUse, Distinct, Touch, Recent;
    }
  }

  lemma WithoutByUse<K>(ks: seq<K>, r: seq<K>, k: K)
    requires Distinct(r) && ByUse(ks, r)
    ensures ByUse(ks, Without(r, k))
  {
    hide Without, LastUse, Distinct;
    var w := Without(r, k);
    forall i, j | 0 <= i < j < |w| ensures LastUse(ks, w[i]) > LastUse(ks, w[j]) {
      WithoutKeepsOrder(r, k, i, j);
    }
  }

  lemma MoreByUse<K>(ks: seq<K>, k: K, w: seq<K>)
    requires ByUse(ks, w) && k !in w
    ensures ByUse(ks + [k], [k] + w)
  {
    hide LastUse;
    var r := [k] + w;
    forall i, j | 0 <= i < j < |r| ensures LastUse(ks + [k], r[i]) > LastUse(ks + [k], r[j]) {
      assert r[j] == w[j - 1] && r[j] in w;
      LastUseAfterOneMore(ks, k, r[i]);
      LastUseAfterOneMore(ks, k, r[j]);
      LastUseMeaning(ks, r[j]);
      if i > 0 {
        assert r[i] == w[i - 1] && r[i] in w;
      }
    }
  }

  lemma RecentAfterOneMore<K>(ks: seq<K>, k: K)
    requires Distinct(Recent(ks)) && forall x :: x in Recent(ks) <==> x in ks
    ensures Distinct(Recent(ks + [k]))
    ensures forall x :: x in Recent(ks + [k]) <==> x in ks + [k]
    ensures Recent(ks + [k]) == [k] + Without(Recent(ks), k)
  {
    assert (ks + [k])[..|ks|] == ks;
    var w := Without(Recent(ks), k);
    hide Without, Recent;
    WithoutProperties(Recent(ks), k);
    DistinctPush(k, w);
    forall x ensures x in [k] + w <==> x in ks + [k] {
      assert x in [k] + w <==> x == k || x in w;
    }
  }

  lemma LastUseAfterOneMore<K>(ks: seq<K>, k: K, x: K)
    ensures LastUse(ks + [k], x) == if x == k then |ks| else LastUse(ks, x)
  {
    assert (ks + [k])[..|ks|] == ks;
  }

  lemma WithoutKeepsOrder<T>(s: seq<T>, k: T, i: nat, j: nat)
    requires Distinct(s) && i < j < |Without(s, k)|
    ensures Without(s, k)[i] != k && Without(s, k)[j] != k
    ensures exists a, b :: 0 <= a < b < |s| && s[a] == Without(s, k)[i] && s[b] == Without(s, k)[j]
  {
    var w := Without(s, k);
    if k in s {
      var p :| 0 <= p < |s| && s[p] == k;
      WithoutAt(s, p);
      hide Without;
      var a := if i < p then i else i + 1;
      var b := if j < p then j else j + 1;
      assert a != p && b != p && s[a] == w[i] && s[b] == w[j];
    } else {
      WithoutAbsent(s, k);
      assert s[i] == w[i] && s[j] == w[j];
    }
  }

  lemma TouchOfPrefix<K>(r: seq<K>, n: nat, k: K)
    requires Distinct(r) && n <= |r| && k in r[..n]
    ensures |Touch(r, k)| == |r| && Touch(r[..n], k) == Touch(r, k)[..n]
  {
    assert k in r;
    WithoutLength(r, k);
    WithoutTake(r, k, n);
    hide Without;
    assert Touch(r, k)[..n] == [k] + Without(r, k)[..n - 1];
  }

  lemma PushOnPrefix<K>(r: seq<K>, n: nat, k: K)
    requires Distinct(r) && 0 < n <= |r| && k !in r[..n]
    ensures |Touch(r, k)| >= n && [k] + r[..n - 1] == Touch(r, k)[..n]
  {
    assert k !in r[..n - 1] by {
      assert forall j :: 0 <= j < n - 1 ==> r[..n - 1][j] == r[..n][j];
    }
    WithoutLength(r, k);
    WithoutTake(r, k, n - 1);
    hide Without;
    assert Touch(r, k)[..n] == [k] + Without(r, k)[..n - 1];
  }

  /** One access keeps the cache a prefix of the full recency list. */
  lemma AccessKeepsPrefix<K, V>(c: Lru<K, V>, r: seq<K>, k: K, v: V)
    requires Wf(c) && Distinct(r) && c.order == r[..Min(c.cap, |r|)]
    ensures Access(c, k, v).order == Touch(r, k)[..Min(c.cap, |Touch(r, k)|)]
  {
    var n := Min(c.cap, |r|);
    if k in c.vals {
      assert k in c.order;
      TouchOfPrefix(r, n, k);
      hide Touch;
    } else {
      assert k !in c.order;
      if |c.order| >= c.cap {
        PushOnPrefix(r, n, k);
        hide Touch;
        assert c.order[..n - 1] == r[..n - 1];
      } else {
        assert c.order == r;
        WithoutAbsent(r, k);
        hide Without;
      }
    }
  }

  /**
   An LRU cache driven by operator[] alone holds exactly the cap most recently used keys,
   in the order of their last use.
   */
  lemma {:induction false} AccessRunHoldsMostRecent<K, V>(cap: nat, ks: seq<K>, init: K -> V)
    requires 0 < cap
    ensures Wf(AccessAll(Empty<K, V>(cap), ks, init))
    ensures AccessAll(Empty<K, V>(cap), ks, init).order == Recent(ks)[..Min(cap, |Recent(ks)|)]
  {
    if ks != [] {
      var n := |ks| - 1;
      AccessRunHoldsMostRecent<K, V>(cap, ks[..n], init);
      RecentOrdersByLastUse(ks[..n]);
      var c := AccessAll(Empty<K, V>(cap), ks[..n], init);
      AccessWf(c, ks[n], init(ks[n]));
      AccessKeepsPrefix(c, Recent(ks[..n]), ks[n], init(ks[n]));
    }
  }

  /** The inclusion (stack) property: a larger cache always holds everything a smaller one holds. */
  lemma LargerCacheIncludesSmaller<K, V>(small: nat, large: nat, ks: seq<K>, init: K -> V)
    requires 0 < small <= large
    ensures AccessAll(Empty<K, V>(small), ks, init).order <= AccessAll(Empty<K, V>(large), ks, init).order
    ensures AccessAll(Empty<K, V>(small), ks, init).vals.Keys <= AccessAll(Empty<K, V>(large), ks, init).vals.Keys
  {
    AccessRunHoldsMostRecent<K, V>(small, ks, init);
    AccessRunHoldsMostRecent<K, V>(large, ks, init);
    var s, l := AccessAll(Empty<K, V>(small), ks, init), AccessAll(Empty<K, V>(large), ks, init);
    forall k | k in s.vals ensures k in l.vals {
      assert k in s.order;
      assert k in l.order;
    }
  }
}
