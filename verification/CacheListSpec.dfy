/**
 The abstract value of a CacheList and the functions its methods are proved against:
 a recency cache of sequences, kept as lists of item keys, over a recency cache of
 reference-counted items shared between the sequences.
 */
module CacheListSpec {
  import opened Wrappers
  import R = Recency

  /** refCnt is unsigned in the program; see Dec. */
  datatype ItemData<+I> = ItemData(item: I, refCnt: nat)

  datatype Lists<K(==), I, H(==)> = Lists(seqs: R.Lru<K, seq<H>>, items: R.Lru<H, ItemData<I>>)

  /** Decrement of a 32-bit unsigned counter: zero wraps around. */
  function Dec(n: nat): nat {
    if n == 0 then 0xFFFF_FFFF else n - 1
  }

  function KeysOf<I, H>(s: seq<I>, hash: I -> H): (ks: seq<H>)
    ensures |ks| == |s| && forall i :: 0 <= i < |s| ==> ks[i] == hash(s[i])
  {
    seq(|s|, i requires 0 <= i < |s| => hash(s[i]))
  }

  /** One more reference to an item, cached for the first time if need be. */
  function Retain<I, H>(items: R.Lru<H, ItemData<I>>, item: I, hash: I -> H): R.Lru<H, ItemData<I>>
    requires 0 < items.cap
  {
    var h := hash(item);
    if h in items.vals then
      var entry := items.vals[h];
      R.Update(items, h, entry.(refCnt := entry.refCnt + 1))
    else
      R.PushNew(items, h, ItemData(item, 1))
  }

  function RetainAll<I, H>(items: R.Lru<H, ItemData<I>>, s: seq<I>, hash: I -> H): (r: R.Lru<H, ItemData<I>>)
    requires 0 < items.cap
    ensures r.cap == items.cap
  {
    if s == [] then items
    else Retain(RetainAll(items, s[..|s| - 1], hash), s[|s| - 1], hash)
  }

  /** One reference less; the last one takes the item out. */
  function Release<I, H>(items: R.Lru<H, ItemData<I>>, h: H): R.Lru<H, ItemData<I>> {
    if h !in items.vals then items
    else
      var n := Dec(items.vals[h].refCnt);
      var touched := R.Update(items, h, items.vals[h].(refCnt := n));
      if n <= 0 then R.Erase(touched, h) else touched
  }

  function ReleaseAll<I, H>(items: R.Lru<H, ItemData<I>>, hs: seq<H>): (r: R.Lru<H, ItemData<I>>)
    ensures r.cap == items.cap
  {
    if hs == [] then items
    else Release(ReleaseAll(items, hs[..|hs| - 1]), hs[|hs| - 1])
  }

  predicate AllCached<I, H>(items: R.Lru<H, ItemData<I>>, hs: seq<H>) {
    forall i :: 0 <= i < |hs| ==> hs[i] in items.vals
  }

  function Erase<K, I, H>(c: Lists<K, I, H>, k: K): Lists<K, I, H> {
    if k !in c.seqs.vals then c
    else Lists(R.Erase(R.Find(c.seqs, k), k), ReleaseAll(c.items, c.seqs.vals[k]))
  }

  predicate Has<K, I, H>(c: Lists<K, I, H>, k: K) {
    k in c.seqs.vals && AllCached(c.items, c.seqs.vals[k])
  }

  /** The state after contains: a sequence with a missing item is erased. */
  function Contains<K, I, H>(c: Lists<K, I, H>, k: K): Lists<K, I, H> {
    if k !in c.seqs.vals then c
    else
      var touched := c.(seqs := R.Find(c.seqs, k));
      if Has(c, k) then touched else Erase(touched, k)
  }

  /** A new, still empty sequence under k; evicting another sequence releases its items. */
  function Open<K, I, H>(c: Lists<K, I, H>, k: K): Lists<K, I, H>
    requires 0 < c.seqs.cap
  {
    var pushed := R.PushedOut(c.seqs);
    Lists(R.PushNew(c.seqs, k, []),
          if pushed.Some? then ReleaseAll(c.items, pushed.value.1) else c.items)
  }

  /** Stores s under the cached key k. */
  function Fill<K, I, H>(c: Lists<K, I, H>, k: K, s: seq<I>, hash: I -> H): Lists<K, I, H>
    requires 0 < c.items.cap
  {
    Lists(c.seqs.(vals := c.seqs.vals[k := KeysOf(s, hash)]), RetainAll(c.items, s, hash))
  }

  function Insert<K, I, H>(c: Lists<K, I, H>, k: K, s: seq<I>, hash: I -> H): Lists<K, I, H>
    requires 0 < c.seqs.cap && 0 < c.items.cap
  {
    var d := Contains(c, k);
    if Has(c, k) then d else Fill(Open(d, k), k, s, hash)
  }

  function Update<K, I, H>(c: Lists<K, I, H>, k: K, s: seq<I>, hash: I -> H): Lists<K, I, H>
    requires 0 < c.items.cap
  {
    if k !in c.seqs.vals then c
    else Fill(Lists(R.Find(c.seqs, k), ReleaseAll(c.items, c.seqs.vals[k])), k, s, hash)
  }

  function FindAll<I, H>(items: R.Lru<H, ItemData<I>>, hs: seq<H>): (r: R.Lru<H, ItemData<I>>)
    ensures r.vals == items.vals && r.cap == items.cap
  {
    if hs == [] then items
    else R.Find(FindAll(items, hs[..|hs| - 1]), hs[|hs| - 1])
  }

  function Find<K, I, H>(c: Lists<K, I, H>, k: K): Lists<K, I, H> {
    var d := Contains(c, k);
    if Has(c, k) then Lists(R.Find(d.seqs, k), FindAll(d.items, c.seqs.vals[k])) else d
  }

  /** What find returns. */
  function Found<K, I, H>(c: Lists<K, I, H>, k: K): (r: Option<seq<I>>)
    ensures r.Some? == Has(c, k)
  {
    if Has(c, k) then
      var hs := c.seqs.vals[k];
      Some(seq(|hs|, i requires 0 <= i < |hs| => c.items.vals[hs[i]].item))
    else None
  }

  function ReleaseEach<K, I, H>(items: R.Lru<H, ItemData<I>>, evicted: seq<(K, seq<H>)>): (r: R.Lru<H, ItemData<I>>)
    ensures r.cap == items.cap
  {
    if evicted == [] then items
    else ReleaseAll(ReleaseEach(items, evicted[..|evicted| - 1]), evicted[|evicted| - 1].1)
  }

  function SetCapacity<K, I, H>(c: Lists<K, I, H>, n: nat): Lists<K, I, H> {
    Lists(R.SetCapacity(c.seqs, n),
          ReleaseEach(R.SetCapacity(c.items, n), R.Dropped(c.seqs.(cap := n), n)))
  }

  function Clear<K, I, H>(c: Lists<K, I, H>): Lists<K, I, H> {
    Lists(R.Empty(c.seqs.cap), R.Empty(c.items.cap))
  }
}
