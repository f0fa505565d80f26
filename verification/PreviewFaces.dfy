/** Limiting the faces of a mesh preview: an even choice of maxFaces out of numFaces faces. */
module PreviewFaces {

  /** int(i * maxFaces / numFaces), in exact arithmetic. */
  function Slot(i: nat, max: nat, num: nat): nat
    requires 0 < num
  {
    i * max / num
  }

  /** A face is taken when the next one falls into another slot. */
  predicate Taken(i: nat, max: nat, num: nat)
    requires 0 < num
  {
    Slot(i, max, num) != Slot(i + 1, max, num)
  }

  /** The faces taken among the first n. */
  function Picks(n: nat, max: nat, num: nat): seq<nat>
    requires 0 < num
  {
    if n == 0 then []
    else Picks(n - 1, max, num) + (if Taken(n - 1, max, num) then [n - 1] else [])
  }

  lemma MulStep(a: int, b: int, n: nat)
    requires a < b
    ensures a * n + n <= b * n
  {
    assert b * n == a * n + (b - a) * n;
    assert (b - a) * n == n + (b - a - 1) * n;
    assert (b - a - 1) * n >= 0;
  }

  lemma MulCancel(a: int, b: int, n: nat)
    requires a * n < b * n
    ensures a < b
  {
    if b < a {
      MulStep(b, a, n);
    }
  }

  lemma SlotBounds(i: nat, max: nat, num: nat)
    requires 0 < num
    ensures Slot(i, max, num) * num <= i * max < Slot(i, max, num) * num + num
  {
  }

  lemma SlotUnique(x: int, num: nat, q: int)
    requires 0 < num && q * num <= x < q * num + num
    ensures x / num == q
  {
    var p := x / num;
    assert p * num <= x < p * num + num;
    assert (p + 1) * num == p * num + num && (q + 1) * num == q * num + num;
    MulCancel(p, q + 1, num);
    MulCancel(q, p + 1, num);
  }

  /** From one face to the next the slot goes up by at most one. */
  lemma SlotStep(i: nat, max: nat, num: nat)
    requires 0 < max <= num
    ensures Slot(i + 1, max, num) == Slot(i, max, num) || Slot(i + 1, max, num) == Slot(i, max, num) + 1
  {
    var q := Slot(i, max, num);
    SlotBounds(i, max, num);
    var x := (i + 1) * max;
    assert x == i * max + max;
    if x < q * num + num {
      SlotUnique(x, num, q);
    } else {
      assert (q + 1) * num == q * num + num;
      SlotUnique(x, num, q + 1);
    }
  }

  lemma SlotEnds(max: nat, num: nat)
    requires 0 < num
    ensures Slot(0, max, num) == 0 && Slot(num, max, num) == max
  {
    SlotUnique(0, num, 0);
    SlotUnique(num * max, num, max);
  }

  /** So far as many faces were taken as slots were filled. */
  lemma {:induction false} PicksCount(n: nat, max: nat, num: nat)
    requires 0 < max <= num
    ensures |Picks(n, max, num)| == Slot(n, max, num)
  {
    SlotEnds(max, num);
    if n > 0 {
      PicksCount(n - 1, max, num);
      SlotStep(n - 1, max, num);
    }
  }

  /** The j-th face taken is the one that fills slot j. */
  lemma {:induction false} PickFillsSlot(n: nat, max: nat, num: nat, j: nat)
    requires 0 < max <= num && j < |Picks(n, max, num)|
    ensures var i := Picks(n, max, num)[j];
            i < n && Slot(i, max, num) == j && Slot(i + 1, max, num) == j + 1
  {
    if n > 0 {
      PicksCount(n - 1, max, num);
      SlotStep(n - 1, max, num);
      if j < |Picks(n - 1, max, num)| {
        PickFillsSlot(n - 1, max, num, j);
      }
    }
  }

  /** ceil(num / max). */
  function CeilDiv(num: nat, max: nat): nat
    requires 0 < max
  {
    (num + max - 1) / max
  }

  lemma BelowCeil(d: int, num: nat, max: nat)
    requires 0 < max && d * max < num
    ensures d < CeilDiv(num, max)
  {
    var c := CeilDiv(num, max);
    assert c * max >= num;
    MulCancel(d, c, max);
  }

  lemma MulOrder(a: int, b: int, n: nat)
    requires a <= b
    ensures a * n <= b * n
  {
    if a < b {
      MulStep(a, b, n);
    }
  }

  lemma SlotMonotone(a: nat, b: nat, max: nat, num: nat)
    requires 0 < num && a <= b
    ensures Slot(a, max, num) <= Slot(b, max, num)
  {
    hide Slot;
    SlotBounds(a, max, num);
    SlotBounds(b, max, num);
    MulOrder(a, b, max);
    var p, q := Slot(a, max, num), Slot(b, max, num);
    assert (q + 1) * num == q * num + num;
    MulCancel(p, q + 1, num);
  }

  /** A face that fills a slot, and the face that fills the next one. */
  lemma NextPickIsNear(a: nat, b: nat, j: nat, max: nat, num: nat)
    requires 0 < max <= num
    requires Slot(a + 1, max, num) == j + 1 && Slot(b, max, num) == j + 1
    ensures b - a <= CeilDiv(num, max)
  {
    SlotBounds(a + 1, max, num);
    SlotBounds(b, max, num);
    assert (b - a - 1) * max == b * max - (a + 1) * max;
    BelowCeil(b - a - 1, num, max);
  }

  /**
   The choice is exact and even: maxFaces faces, in order, no two the same, the first within
   the first stretch and consecutive ones at most ceil(numFaces / maxFaces) apart. The j-th is
   the one on which the (j + 1)-th of maxFaces equal stretches of the faces ends.
   */
  lemma PicksAreEven(max: nat, num: nat)
    requires 0 < max <= num
    ensures var p := Picks(num, max, num);
            && |p| == max
            && (forall j :: 0 <= j < max ==> p[j] < num)
            && (forall j, k :: 0 <= j < k < max ==> p[j] < p[k])
            && p[0] < CeilDiv(num, max)
            && (forall j :: 0 <= j < max - 1 ==> p[j + 1] - p[j] <= CeilDiv(num, max))
            && (forall j :: 0 <= j < max ==> p[j] * max < (j + 1) * num <= (p[j] + 1) * max)
  {
    var p := Picks(num, max, num);
    PicksCount(num, max, num);
    SlotEnds(max, num);
    hide Slot, Picks, CeilDiv;
    forall j | 0 <= j < max ensures p[j] < num && Slot(p[j], max, num) == j && Slot(p[j] + 1, max, num) == j + 1 {
      PickFillsSlot(num, max, num, j);
    }
    forall j, k | 0 <= j < k < max ensures p[j] < p[k] {
      if p[k] <= p[j] {
        SlotMonotone(p[k], p[j], max, num);
      }
    }
    forall j | 0 <= j < max ensures p[j] * max < (j + 1) * num <= (p[j] + 1) * max {
      SlotBounds(p[j], max, num);
      SlotBounds(p[j] + 1, max, num);
      assert (j + 1) * num == j * num + num;
    }
    SlotBounds(p[0], max, num);
    BelowCeil(p[0], num, max);
    forall j | 0 <= j < max - 1 ensures p[j + 1] - p[j] <= CeilDiv(num, max) {
      NextPickIsNear(p[j], p[j + 1], j, max, num);
    }
  }

  /**
   The face-limiting loop. faceVerts holds three vertex numbers a face; the result lists the
   vertices of the taken faces, three a face, and numbers them consecutively.
   */
  method LimitFaces<V(0)>(verts: seq<V>, faceVerts: seq<nat>, numFaces: nat, maxFaces: nat)
    returns (previewVerts: array<V>, previewFaces: array<int>, numPreviewFaces: nat, numPreviewVerts: nat)
    requires 0 < maxFaces < numFaces && |faceVerts| == 3 * numFaces
    requires forall i :: 0 <= i < |faceVerts| ==> faceVerts[i] < |verts|
    ensures previewVerts.Length == previewFaces.Length == 3 * maxFaces
    ensures numPreviewFaces == maxFaces && numPreviewVerts == 3 * maxFaces
    ensures |Picks(numFaces, maxFaces, numFaces)| == maxFaces
    ensures Filled(verts, faceVerts, previewVerts[..], previewFaces[..], Picks(numFaces, maxFaces, numFaces),
                   maxFaces, numFaces)
    ensures forall t :: 0 <= t < 3 * maxFaces ==> previewFaces[t] == t
    ensures var p := Picks(numFaces, maxFaces, numFaces);
            forall j :: 0 <= j < maxFaces ==>
              && p[j] < numFaces
              && previewVerts[3 * j] == verts[faceVerts[3 * p[j]]]
              && previewVerts[3 * j + 1] == verts[faceVerts[3 * p[j] + 1]]
              && previewVerts[3 * j + 2] == verts[faceVerts[3 * p[j] + 2]]
  {
    hide Slot, Picks, Filled, CeilDiv;
    previewVerts := new V[maxFaces * 3];
    previewFaces := new int[maxFaces * 3];
    numPreviewFaces, numPreviewVerts := 0, 0;
    PicksAreEven(maxFaces, numFaces);
    NothingFilled(verts, faceVerts, previewVerts[..], previewFaces[..], maxFaces, numFaces);
    ghost var all := Picks(numFaces, maxFaces, numFaces);
    for i := 0 to numFaces
      invariant numPreviewFaces == |Picks(i, maxFaces, numFaces)| <= maxFaces && numPreviewVerts == 3 * numPreviewFaces
      invariant Filled(verts, faceVerts, previewVerts[..], previewFaces[..], all, numPreviewFaces, numFaces)
    {
      PickStep(i, maxFaces, numFaces);
      var p0 := Slot(i, maxFaces, numFaces);
      var p1 := Slot(i + 1, maxFaces, numFaces);
      if p0 != p1 && numPreviewFaces < maxFaces {
        ghost var v0, f0 := previewVerts[..], previewFaces[..];
        numPreviewVerts := CopyFace(verts, faceVerts, i, previewVerts, previewFaces, numPreviewFaces, numPreviewVerts);
        FilledGrows(verts, faceVerts, v0, f0, previewVerts[..], previewFaces[..], all, numPreviewFaces, numFaces);
        numPreviewFaces := numPreviewFaces + 1;
      }
    }
    FilledMeans(verts, faceVerts, previewVerts[..], previewFaces[..], all, maxFaces, numFaces);
  }

  /** The inner loop over the corners of a taken face. */
  method CopyFace<V>(verts: seq<V>, faceVerts: seq<nat>, i: nat, previewVerts: array<V>, previewFaces: array<int>,
                     numPreviewFaces: nat, from: nat)
    returns (numPreviewVerts: nat)
    requires 3 * i + 3 <= |faceVerts| && forall j :: 0 <= j < |faceVerts| ==> faceVerts[j] < |verts|
    requires previewVerts as object != previewFaces as object
    requires from == 3 * numPreviewFaces && from + 3 <= previewVerts.Length == previewFaces.Length
    modifies previewVerts, previewFaces
    ensures numPreviewVerts == from + 3
    ensures forall t :: 0 <= t < from ==>
              previewVerts[t] == old(previewVerts[t]) && previewFaces[t] == old(previewFaces[t])
    ensures forall t :: from <= t < from + 3 ==>
              previewFaces[t] == t && previewVerts[t] == verts[faceVerts[i * 3 + (t - from)]]
  {
    numPreviewVerts := from;
    for k := 0 to 3
      invariant numPreviewVerts == from + k
      invariant forall t :: 0 <= t < from ==>
                  previewVerts[t] == old(previewVerts[t]) && previewFaces[t] == old(previewFaces[t])
      invariant forall t :: from <= t < from + k ==>
                  previewFaces[t] == t && previewVerts[t] == verts[faceVerts[i * 3 + (t - from)]]
    {
      previewFaces[numPreviewFaces * 3 + k] := numPreviewVerts;
      previewVerts[numPreviewVerts] := verts[faceVerts[i * 3 + k]];
      numPreviewVerts := numPreviewVerts + 1;
    }
  }

  /** One face on: it is taken or not, and the guard on the number of faces never matters. */
  lemma PickStep(i: nat, max: nat, num: nat)
    requires 0 < max <= num && i < num
    ensures Picks(0, max, num) == []
    ensures Slot(i, max, num) == Slot(i + 1, max, num) ==> |Picks(i + 1, max, num)| == |Picks(i, max, num)|
    ensures Slot(i, max, num) != Slot(i + 1, max, num) ==>
              && |Picks(i, max, num)| < max == |Picks(num, max, num)|
              && |Picks(i + 1, max, num)| == |Picks(i, max, num)| + 1
              && Picks(num, max, num)[|Picks(i, max, num)|] == i
  {
    PicksGrow(i + 1, num, max, num);
    PicksCount(num, max, num);
    SlotEnds(max, num);
    hide Slot;
    var n := |Picks(i, max, num)|;
    if Slot(i, max, num) != Slot(i + 1, max, num) {
      assert Picks(i + 1, max, num)[n] == i;
    }
  }

  lemma NothingFilled<V>(verts: seq<V>, faceVerts: seq<nat>, pv: seq<V>, pf: seq<int>, max: nat, num: nat)
    requires |faceVerts| == 3 * num && forall i :: 0 <= i < |faceVerts| ==> faceVerts[i] < |verts|
    requires 0 < max <= num
    ensures Picks(0, max, num) == [] && Filled(verts, faceVerts, pv, pf, Picks(num, max, num), 0, num)
  {
    PicksAreEven(max, num);
  }

  lemma {:induction false} PicksGrow(n: nat, n': nat, max: nat, num: nat)
    requires 0 < num && n <= n'
    ensures Picks(n, max, num) <= Picks(n', max, num)
  {
    if n < n' {
      PicksGrow(n, n' - 1, max, num);
    }
  }

  /**
   The vertices and numbers of the first m taken faces have been written out: vertex t belongs
   to the taken face t / 3 as its corner t % 3.
   */
  ghost predicate Filled<V>(verts: seq<V>, faceVerts: seq<nat>, pv: seq<V>, pf: seq<int>, all: seq<nat>,
                            m: nat, num: nat)
    requires |faceVerts| == 3 * num && forall i :: 0 <= i < |faceVerts| ==> faceVerts[i] < |verts|
  {
    && m <= |all| && 3 * m <= |pv| && 3 * m <= |pf|
    && (forall j :: 0 <= j < |all| ==> all[j] < num)
    && forall t :: 0 <= t < 3 * m ==> pf[t] == t && pv[t] == verts[faceVerts[3 * all[t / 3] + t % 3]]
  }

  lemma FilledMeans<V>(verts: seq<V>, faceVerts: seq<nat>, pv: seq<V>, pf: seq<int>, all: seq<nat>, m: nat, num: nat)
    requires |faceVerts| == 3 * num && forall i :: 0 <= i < |faceVerts| ==> faceVerts[i] < |verts|
    requires Filled(verts, faceVerts, pv, pf, all, m, num) && |all| == m && |pv| == |pf| == 3 * m
    ensures forall t :: 0 <= t < 3 * m ==> pf[t] == t
    ensures forall j :: 0 <= j < m ==>
              && all[j] < num
              && pv[3 * j] == verts[faceVerts[3 * all[j]]]
              && pv[3 * j + 1] == verts[faceVerts[3 * all[j] + 1]]
              && pv[3 * j + 2] == verts[faceVerts[3 * all[j] + 2]]
  {
    forall j | 0 <= j < m
      ensures && all[j] < num
              && pv[3 * j] == verts[faceVerts[3 * all[j]]]
              && pv[3 * j + 1] == verts[faceVerts[3 * all[j] + 1]]
              && pv[3 * j + 2] == verts[faceVerts[3 * all[j] + 2]]
    {
      assert (3 * j) / 3 == (3 * j + 1) / 3 == (3 * j + 2) / 3 == j;
      assert (3 * j) % 3 == 0 && (3 * j + 1) % 3 == 1 && (3 * j + 2) % 3 == 2;
    }
  }

  lemma FilledGrows<V>(verts: seq<V>, faceVerts: seq<nat>, v0: seq<V>, f0: seq<int>, v1: seq<V>, f1: seq<int>,
                       all: seq<nat>, m: nat, num: nat)
    requires |faceVerts| == 3 * num && forall i :: 0 <= i < |faceVerts| ==> faceVerts[i] < |verts|
    requires Filled(verts, faceVerts, v0, f0, all, m, num) && m < |all|
    requires 3 * m + 3 <= |v1| == |v0| && 3 * m + 3 <= |f1| == |f0|
    requires forall t :: 0 <= t < 3 * m ==> v1[t] == v0[t] && f1[t] == f0[t]
    requires forall t :: 3 * m <= t < 3 * m + 3 ==>
               f1[t] == t && v1[t] == verts[faceVerts[all[m] * 3 + (t - 3 * m)]]
    ensures Filled(verts, faceVerts, v1, f1, all, m + 1, num)
  {
    forall t | 3 * m <= t < 3 * m + 3 ensures t / 3 == m && t % 3 == t - 3 * m {
    }
  }
}
