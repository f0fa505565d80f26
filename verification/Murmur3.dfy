/** MurmurHash3_x86_32, the hash behind the cache keys, on a little-endian machine. */
module Murmur3 {
  // ------------------------------------------------------------ word steps

  function Rotl15(x: bv32): bv32 { (x << 15) | (x >> 17) }
  function Rotl13(x: bv32): bv32 { (x << 13) | (x >> 19) }
  function MulC1(x: bv32): bv32 { x * 0xcc9e2d51 }
  function MulC2(x: bv32): bv32 { x * 0x1b873593 }
  function Times5(x: bv32): bv32 { x * 5 + 0xe6546b64 }
  function Xor(x: bv32, y: bv32): bv32 { x ^ y }
  function Shr13(x: bv32): bv32 { x >> 13 }
  function Shr16(x: bv32): bv32 { x >> 16 }
  function Fold16(x: bv32): bv32 { Xor(x, Shr16(x)) }
  function Fold13(x: bv32): bv32 { Xor(x, Shr13(x)) }
  function MulF1(x: bv32): bv32 { x * 0x85ebca6b }
  function MulF2(x: bv32): bv32 { x * 0xc2b2ae35 }
  function At8(b: bv8): bv32 { (b as bv32) << 8 }
  function At16(b: bv8): bv32 { (b as bv32) << 16 }

  function Fmix32(h: bv32): bv32 {
    Fold16(MulF2(Fold13(MulF1(Fold16(h)))))
  }

  function MixK(k: bv32): bv32 {
    MulC2(Rotl15(MulC1(k)))
  }

  function MixH(h: bv32, k: bv32): bv32 {
    Times5(Rotl13(Xor(h, MixK(k))))
  }

  // --------------------------------------------------------------- hashing

  function Word(b0: bv8, b1: bv8, b2: bv8, b3: bv8): bv32 {
    (b0 as bv32) | ((b1 as bv32) << 8) | ((b2 as bv32) << 16) | ((b3 as bv32) << 24)
  }

  /** getblock: the i-th group of four bytes. */
  function Block(key: seq<bv8>, i: nat): bv32
    requires 4 * i + 4 <= |key|
  {
    Word(key[4 * i], key[4 * i + 1], key[4 * i + 2], key[4 * i + 3])
  }

  /** The one to three bytes after the last block, as the falling-through switch collects them. */
  function TailWord(tail: seq<bv8>): bv32
    requires 1 <= |tail| < 4
  {
    var hi := if |tail| == 3 then Xor(0, At16(tail[2])) else 0;
    var mid := if |tail| >= 2 then Xor(hi, At8(tail[1])) else 0;
    Xor(mid, tail[0] as bv32)
  }

  /** The running hash after the first n blocks. */
  function Body(key: seq<bv8>, n: nat, seed: bv32): bv32
    requires 4 * n <= |key|
  {
    if n == 0 then seed else MixH(Body(key, n - 1, seed), Block(key, n - 1))
  }

  function Tail(key: seq<bv8>): (t: seq<bv8>)
    ensures |t| == |key| % 4
  {
    key[|key| / 4 * 4..]
  }

  /** The running hash once the tail is mixed in. */
  function Mixed(key: seq<bv8>, seed: bv32): bv32 {
    var h := Body(key, |key| / 4, seed);
    if |key| % 4 == 0 then h else Xor(h, MixK(TailWord(Tail(key))))
  }

  function LengthWord(n: nat): bv32
    requires n < 0x8000_0000
  {
    n as bv32
  }

  function Hash(key: seq<bv8>, seed: bv32): bv32
    requires |key| < 0x8000_0000
  {
    Fmix32(Xor(Mixed(key, seed), LengthWord(|key|)))
  }

  method MurmurHash3X86_32(key: seq<bv8>, seed: bv32) returns (out: bv32)
    requires |key| < 0x8000_0000
    ensures out == Hash(key, seed)
  {
    hide Rotl15, Rotl13, MulC1, MulC2, Times5, Xor, Fold16, Fold13, MulF1, MulF2, At8, At16, Word, LengthWord;
    var len := |key|;
    var nblocks := len / 4;
    var h1 := seed;
    var i := -nblocks;
    while i != 0
      invariant -nblocks <= i <= 0
      invariant h1 == Body(key, nblocks + i, seed)
    {
      var k1 := Block(key, nblocks + i);
      k1 := MulC1(k1);
      k1 := Rotl15(k1);
      k1 := MulC2(k1);
      h1 := Xor(h1, k1);
      h1 := Rotl13(h1);
      h1 := Times5(h1);
      i := i + 1;
    }
    var tail := key[nblocks * 4..];
    var k1: bv32 := 0;
    if len % 4 >= 3 {
      k1 := Xor(k1, At16(tail[2]));
    }
    if len % 4 >= 2 {
      k1 := Xor(k1, At8(tail[1]));
    }
    if len % 4 >= 1 {
      k1 := Xor(k1, tail[0] as bv32);
      k1 := MulC1(k1);
      k1 := Rotl15(k1);
      k1 := MulC2(k1);
      h1 := Xor(h1, k1);
    }
    h1 := Xor(h1, LengthWord(len));
    h1 := Fold16(h1);
    h1 := MulF1(h1);
    h1 := Fold13(h1);
    h1 := MulF2(h1);
    out := Fold16(h1);
  }

  // ------------------------------------------- every step can be taken back

  function Rotr15(x: bv32): bv32 { (x >> 15) | (x << 17) }
  function Rotr13(x: bv32): bv32 { (x >> 13) | (x << 19) }

  lemma RotationsInvert(x: bv32)
    ensures Rotr15(Rotl15(x)) == x && Rotl15(Rotr15(x)) == x
    ensures Rotr13(Rotl13(x)) == x && Rotl13(Rotr13(x)) == x
  {
  }

  lemma XorLaws(x: bv32, y: bv32, z: bv32)
    ensures Xor(x, Xor(y, z)) == Xor(Xor(x, y), z)
    ensures Xor(x, y) == Xor(y, x)
    ensures Xor(x, 0) == x && Xor(x, x) == 0
  {
  }

  lemma Shr16Laws(x: bv32, y: bv32)
    ensures Shr16(Xor(x, y)) == Xor(Shr16(x), Shr16(y))
    ensures Shr16(Shr16(x)) == 0
  {
  }

  lemma Shr13Distributes(x: bv32, y: bv32)
    ensures Shr13(Xor(x, y)) == Xor(Shr13(x), Shr13(y))
  {
  }

  lemma Shr13RunsOut(x: bv32)
    ensures Shr13(Shr13(Shr13(x))) == 0
  {
  }

  lemma XorInverts(x: bv32, y: bv32)
    ensures Xor(Xor(x, y), y) == x && Xor(y, Xor(y, x)) == x
  {
    hide Xor;
    XorLaws(x, y, y);
    XorLaws(y, y, x);
    XorLaws(x, 0, 0);
    XorLaws(0, x, x);
  }

  lemma Fold16Inverts(x: bv32)
    ensures Fold16(Fold16(x)) == x
  {
    hide Xor, Shr16;
    Shr16Laws(x, Shr16(x));
    XorLaws(Shr16(x), 0, 0);
    XorInverts(x, Shr16(x));
  }

  function Unfold13(x: bv32): bv32 {
    Xor(Fold13(x), Shr13(Shr13(x)))
  }

  lemma XorCancels(x: bv32, p: bv32, q: bv32)
    ensures Xor(Xor(Xor(x, p), Xor(p, q)), q) == x
    ensures Xor(Xor(Xor(x, p), q), Xor(p, q)) == x
  {
    hide Xor;
    XorLaws(x, p, Xor(p, q));
    XorInverts(q, p);
    XorLaws(p, p, q);
    XorLaws(0, q, q);
    XorLaws(q, 0, 0);
    XorLaws(x, p, q);
    XorInverts(x, q);
    XorInverts(x, Xor(p, q));
  }

  lemma Fold13Inverts(x: bv32)
    ensures Unfold13(Fold13(x)) == x && Fold13(Unfold13(x)) == x
  {
    hide Xor, Shr13;
    var p := Shr13(x);
    var q := Shr13(p);
    Shr13Distributes(x, p);
    Shr13Distributes(p, q);
    Shr13Distributes(Xor(x, p), q);
    Shr13RunsOut(x);
    XorLaws(q, 0, 0);
    XorLaws(Xor(p, q), 0, 0);
    XorCancels(x, p, q);
  }

  /** Equality, under a name that can be hidden: the solver would otherwise rewrite it away too early. */
  predicate Same(x: bv32, y: bv32) { x == y }

  lemma SameIsEqual(x: bv32, y: bv32)
    ensures Same(x, y) <==> x == y
  {
  }

  lemma C1IsOdd(x: bv32, y: bv32)
    ensures Same(x * 0xcc9e2d51, y * 0xcc9e2d51) ==> x == y
  {
  }

  lemma MulC1Injective(x: bv32, y: bv32)
    requires MulC1(x) == MulC1(y)
    ensures x == y
  {
    hide Same;
    SameIsEqual(MulC1(x), MulC1(y));
    C1IsOdd(x, y);
  }

  lemma C2IsOdd(x: bv32, y: bv32)
    ensures Same(x * 0x1b873593, y * 0x1b873593) ==> x == y
  {
  }

  lemma MulC2Injective(x: bv32, y: bv32)
    requires MulC2(x) == MulC2(y)
    ensures x == y
  {
    hide Same;
    SameIsEqual(MulC2(x), MulC2(y));
    C2IsOdd(x, y);
  }

  lemma F1IsOdd(x: bv32, y: bv32)
    ensures Same(x * 0x85ebca6b, y * 0x85ebca6b) ==> x == y
  {
  }

  lemma MulF1Injective(x: bv32, y: bv32)
    requires MulF1(x) == MulF1(y)
    ensures x == y
  {
    hide Same;
    SameIsEqual(MulF1(x), MulF1(y));
    F1IsOdd(x, y);
  }

  lemma F2IsOdd(x: bv32, y: bv32)
    ensures Same(x * 0xc2b2ae35, y * 0xc2b2ae35) ==> x == y
  {
  }

  lemma MulF2Injective(x: bv32, y: bv32)
    requires MulF2(x) == MulF2(y)
    ensures x == y
  {
    hide Same;
    SameIsEqual(MulF2(x), MulF2(y));
    F2IsOdd(x, y);
  }

  lemma Times5Injective(x: bv32, y: bv32)
    requires Times5(x) == Times5(y)
    ensures x == y
  {
  }

  /** Finalisation is injective. */
  lemma Fmix32Injective(x: bv32, y: bv32)
    requires Fmix32(x) == Fmix32(y)
    ensures x == y
  {
    hide Fold16, Fold13, Unfold13, MulF1, MulF2;
    var a, b := Fold16(x), Fold16(y);
    var c, d := Fold13(MulF1(a)), Fold13(MulF1(b));
    Fold16Inverts(MulF2(c));
    Fold16Inverts(MulF2(d));
    MulF2Injective(c, d);
    Fold13Inverts(MulF1(a));
    Fold13Inverts(MulF1(b));
    MulF1Injective(a, b);
    Fold16Inverts(x);
    Fold16Inverts(y);
  }

  lemma MixKInjective(x: bv32, y: bv32)
    requires MixK(x) == MixK(y)
    ensures x == y
  {
    hide Rotl15, Rotr15, MulC1, MulC2;
    MulC2Injective(Rotl15(MulC1(x)), Rotl15(MulC1(y)));
    RotationsInvert(MulC1(x));
    RotationsInvert(MulC1(y));
    MulC1Injective(x, y);
  }

  /** One round is injective in the block for a fixed hash, and in the hash for a fixed block. */
  lemma MixHInjective(h: bv32, k: bv32, h': bv32, k': bv32)
    requires MixH(h, k) == MixH(h', k')
    ensures h == h' ==> k == k'
    ensures k == k' ==> h == h'
  {
    hide Xor, MixK, Rotl13, Rotr13, Times5;
    var x, y := Xor(h, MixK(k)), Xor(h', MixK(k'));
    Times5Injective(Rotl13(x), Rotl13(y));
    RotationsInvert(x);
    RotationsInvert(y);
    XorInverts(h, MixK(k));
    XorInverts(h', MixK(k'));
    XorInverts(MixK(k), h);
    XorInverts(MixK(k'), h');
    if h == h' {
      MixKInjective(k, k');
    }
  }

  // ----------------------------------------------------------- words and bytes

  /** Equal words come from equal bytes. */
  lemma WordInjective(a: seq<bv8>, b: seq<bv8>)
    requires |a| == |b| == 4
    requires Word(a[0], a[1], a[2], a[3]) == Word(b[0], b[1], b[2], b[3])
    ensures a == b
  {
    WordBytes(a[0], a[1], a[2], a[3]);
    WordBytes(b[0], b[1], b[2], b[3]);
  }

  lemma WordBytes(b0: bv8, b1: bv8, b2: bv8, b3: bv8)
    ensures var w := Word(b0, b1, b2, b3);
            && (w & 0xff) as bv8 == b0 && ((w >> 8) & 0xff) as bv8 == b1
            && ((w >> 16) & 0xff) as bv8 == b2 && ((w >> 24) & 0xff) as bv8 == b3
  {
  }

  /** The tail is a block filled up with zeros. */
  lemma TailIsPadded(tail: seq<bv8>)
    requires 1 <= |tail| < 4
    ensures TailWord(tail) ==
            Word(tail[0], if |tail| >= 2 then tail[1] else 0, if |tail| >= 3 then tail[2] else 0, 0)
  {
    if |tail| == 3 {
      ThreeBytes(tail[0], tail[1], tail[2]);
    } else if |tail| == 2 {
      TwoBytes(tail[0], tail[1]);
    } else {
      OneByte(tail[0]);
    }
  }

  lemma ThreeBytes(a: bv8, b: bv8, c: bv8)
    ensures Xor(Xor(Xor(0, At16(c)), At8(b)), a as bv32) == Word(a, b, c, 0)
  {
  }

  lemma TwoBytes(a: bv8, b: bv8)
    ensures Xor(Xor(0, At8(b)), a as bv32) == Word(a, b, 0, 0)
  {
  }

  lemma OneByte(a: bv8)
    ensures Xor(0, a as bv32) == Word(a, 0, 0, 0)
  {
  }

  lemma BlockInjective(a: seq<bv8>, b: seq<bv8>, i: nat)
    requires 4 * i + 4 <= |a| == |b| && Block(a, i) == Block(b, i)
    ensures forall j :: 4 * i <= j < 4 * i + 4 ==> a[j] == b[j]
  {
    hide Word;
    var n := 4 * i;
    WordInjective(a[n..n + 4], b[n..n + 4]);
    forall j | n <= j < n + 4 ensures a[j] == b[j] {
      assert a[n..n + 4][j - n] == b[n..n + 4][j - n];
    }
  }

  lemma TailWordInjective(a: seq<bv8>, b: seq<bv8>)
    requires 1 <= |a| == |b| < 4 && TailWord(a) == TailWord(b)
    ensures a == b
  {
    hide TailWord, Word;
    TailIsPadded(a);
    TailIsPadded(b);
    var p := [a[0], if |a| >= 2 then a[1] else 0, if |a| >= 3 then a[2] else 0, 0];
    var q := [b[0], if |b| >= 2 then b[1] else 0, if |b| >= 3 then b[2] else 0, 0];
    WordInjective(p, q);
    assert forall j :: 0 <= j < |a| ==> a[j] == p[j] && b[j] == q[j];
  }

  // --------------------------------------------------------------- main results

  /** The keys agree outside the four bytes that start at 4 * w (the tail is the last window). */
  ghost predicate SameOutside(a: seq<bv8>, b: seq<bv8>, w: nat) {
    |a| == |b| && forall j :: 0 <= j < |a| && !(4 * w <= j < 4 * w + 4) ==> a[j] == b[j]
  }

  lemma SameEverywhere(a: seq<bv8>, b: seq<bv8>, w: nat)
    requires SameOutside(a, b, w)
    requires forall j :: 4 * w <= j < 4 * w + 4 && j < |a| ==> a[j] == b[j]
    ensures a == b
  {
  }

  lemma {:induction false} BodySame(a: seq<bv8>, b: seq<bv8>, n: nat, seed: bv32)
    requires 4 * n <= |a| == |b| && forall j :: 0 <= j < 4 * n ==> a[j] == b[j]
    ensures Body(a, n, seed) == Body(b, n, seed)
  {
    if n > 0 {
      BodySame(a, b, n - 1, seed);
    }
  }

  /** A difference in the running hash is carried through every later block. */
  lemma {:induction false} BodyKeepsApart(a: seq<bv8>, b: seq<bv8>, w: nat, n: nat, seed: bv32)
    requires w < n && 4 * n <= |a| && SameOutside(a, b, w) && a != b
    ensures Body(a, n, seed) != Body(b, n, seed)
  {
    hide MixH, Word;
    var x, y := Body(a, n - 1, seed), Body(b, n - 1, seed);
    if w == n - 1 {
      BodySame(a, b, w, seed);
      if MixH(x, Block(a, w)) == MixH(y, Block(b, w)) {
        MixHInjective(x, Block(a, w), y, Block(b, w));
        BlockInjective(a, b, w);
        SameEverywhere(a, b, w);
      }
    } else {
      BodyKeepsApart(a, b, w, n - 1, seed);
      if MixH(x, Block(a, n - 1)) == MixH(y, Block(b, n - 1)) {
        MixHInjective(x, Block(a, n - 1), y, Block(b, n - 1));
      }
    }
  }

  lemma {:induction false} BodySeed(a: seq<bv8>, n: nat, s: bv32, t: bv32)
    requires 4 * n <= |a| && s != t
    ensures Body(a, n, s) != Body(a, n, t)
  {
    if n > 0 {
      BodySeed(a, n - 1, s, t);
      if Body(a, n, s) == Body(a, n, t) {
        hide MixH;
        MixHInjective(Body(a, n - 1, s), Block(a, n - 1), Body(a, n - 1, t), Block(a, n - 1));
      }
    }
  }

  /** Xor with the same word on both sides, tail or length, keeps two hashes apart. */
  lemma XorKeepsApart(x: bv32, y: bv32, z: bv32)
    ensures Xor(x, z) == Xor(y, z) ==> x == y
    ensures Xor(z, x) == Xor(z, y) ==> x == y
  {
    hide Xor;
    XorInverts(x, z);
    XorInverts(y, z);
    XorInverts(x, z);
    XorInverts(y, z);
  }

  lemma TailsDiffer(a: seq<bv8>, b: seq<bv8>, w: nat)
    requires SameOutside(a, b, w) && |a| / 4 <= w && a != b
    ensures |a| % 4 != 0 && Tail(a) != Tail(b)
  {
    var n := |a| / 4 * 4;
    var i :| 0 <= i < |a| && a[i] != b[i];
    assert Tail(a)[i - n] == a[i] && Tail(b)[i - n] == b[i];
  }

  lemma MixedKeepsApart(a: seq<bv8>, b: seq<bv8>, w: nat, seed: bv32)
    requires SameOutside(a, b, w) && a != b
    ensures Mixed(a, seed) != Mixed(b, seed)
  {
    hide Xor, MixK, TailWord, Body;
    var n := |a| / 4;
    if w < n {
      BodyKeepsApart(a, b, w, n, seed);
      assert Tail(a) == Tail(b);
      if n * 4 < |a| {
        XorKeepsApart(Body(a, n, seed), Body(b, n, seed), MixK(TailWord(Tail(a))));
      }
    } else {
      BodySame(a, b, n, seed);
      TailsDiffer(a, b, w);
      TailMixInjective(Tail(a), Tail(b), Body(a, n, seed));
    }
  }

  lemma TailMixInjective(a: seq<bv8>, b: seq<bv8>, h: bv32)
    requires 1 <= |a| == |b| < 4
    ensures Xor(h, MixK(TailWord(a))) == Xor(h, MixK(TailWord(b))) ==> a == b
  {
    hide Xor, MixK, TailWord;
    if Xor(h, MixK(TailWord(a))) == Xor(h, MixK(TailWord(b))) {
      XorKeepsApart(MixK(TailWord(a)), MixK(TailWord(b)), h);
      MixKInjective(TailWord(a), TailWord(b));
      TailWordInjective(a, b);
    }
  }

  lemma FinishInjective(x: bv32, y: bv32, len: bv32)
    ensures Fmix32(Xor(x, len)) == Fmix32(Xor(y, len)) ==> x == y
  {
    hide Xor, Fmix32;
    if Fmix32(Xor(x, len)) == Fmix32(Xor(y, len)) {
      Fmix32Injective(Xor(x, len), Xor(y, len));
      XorKeepsApart(x, y, len);
    }
  }

  /**
   Two keys of the same length that differ only within one aligned four-byte window, a block
   or the tail, never collide, whatever the seed.
   */
  lemma NoCollisionWithinOneWindow(a: seq<bv8>, b: seq<bv8>, w: nat, seed: bv32)
    requires |a| < 0x8000_0000 && SameOutside(a, b, w)
    ensures Hash(a, seed) == Hash(b, seed) <==> a == b
  {
    hide Xor, Fmix32, Mixed, LengthWord;
    if a != b {
      MixedKeepsApart(a, b, w, seed);
      FinishInjective(Mixed(a, seed), Mixed(b, seed), LengthWord(|a|));
    }
  }

  /** For any key, different seeds give different hashes. */
  lemma SeedsNeverCollide(key: seq<bv8>, s: bv32, t: bv32)
    requires |key| < 0x8000_0000
    ensures Hash(key, s) == Hash(key, t) <==> s == t
  {
    hide Xor, Fmix32, MixK, TailWord, Body, LengthWord;
    if s != t {
      var n := |key| / 4;
      BodySeed(key, n, s, t);
      if |key| % 4 != 0 {
        XorKeepsApart(Body(key, n, s), Body(key, n, t), MixK(TailWord(Tail(key))));
      }
      FinishInjective(Mixed(key, s), Mixed(key, t), LengthWord(|key|));
    }
  }


  // --------------------------------------------------------------- known hashes

  /** The published hashes of the empty key and of "abc". */
  lemma HashesWithoutBlocks()
    ensures Hash([], 0) == 0 && Hash([], 1) == 0x514e28b7 && Hash([], 0xffffffff) == 0x81f16f39
    ensures Hash([0x61, 0x62, 0x63], 0) == 0xb3dd93fa
  {
    var abc: seq<bv8> := [0x61, 0x62, 0x63];
    assert Tail(abc) == abc;
    assert TailWord(abc) == 0x636261;
    assert MixK(0x636261) == 0xa7349db7;
    assert Xor(0, 0xa7349db7) == 0xa7349db7 && Xor(0xa7349db7, 3) == 0xa7349db4;
    assert Fmix32(0xa7349db4) == 0xb3dd93fa;
  }

  /** Those of "test" and, with a block and a tail, of "abcdefg". */
  lemma HashesWithBlock()
    ensures Hash([0x74, 0x65, 0x73, 0x74], 0x9747b28c) == 0x704b81dc
    ensures Hash([0x61, 0x62, 0x63, 0x64, 0x65, 0x66, 0x67], 0) == 0x883c9b06
  {
    var test: seq<bv8> := [0x74, 0x65, 0x73, 0x74];
    assert Block(test, 0) == 0x74736574;
    assert Body(test, 1, 0x9747b28c) == MixH(0x9747b28c, 0x74736574);
    var key: seq<bv8> := [0x61, 0x62, 0x63, 0x64, 0x65, 0x66, 0x67];
    assert Block(key, 0) == 0x64636261;
    assert Tail(key) == [0x65, 0x66, 0x67];
    assert TailWord([0x65, 0x66, 0x67]) == 0x676665;
    assert MixH(0, 0x64636261) == 0x86a7049e;
    assert Body(key, 1, 0) == 0x86a7049e;
    assert Xor(0x86a7049e, MixK(0x676665)) == 0x3bc61fec;
    assert Fmix32(Xor(0x3bc61fec, 7)) == 0x883c9b06;
  }
}
