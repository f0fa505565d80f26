/** The stack of primitive export contexts, whose composition is computed when first asked for. */
module PrimContexts {
  import opened Wrappers
  import opened Transforms

  /** Nodes, primitives and stylers by identity; a missing one is None. */
  datatype PrimContext = PrimContext(
    objNode: Option<nat>,
    prim: Option<nat>,
    tm: Transform,
    worldTm: Transform,
    vel: Transform,
    id: bv64,
    matNode: Option<nat>,
    overrides: map<string, string>,
    styler: Option<nat>)

  const BLANK := PrimContext(None, None, IDENTITY, IDENTITY, ZERO, 0, None, map[], None)

  // ------------------------------------------------------- the direct composition

  function TmProduct(cs: seq<PrimContext>): Transform {
    if cs == [] then IDENTITY else Mul(cs[0].tm, TmProduct(cs[1..]))
  }

  function WorldProduct(cs: seq<PrimContext>): Transform {
    if cs == [] then IDENTITY else Mul(cs[0].worldTm, WorldProduct(cs[1..]))
  }

  /** Velocities are applied, outer to inner, to a zero transform. */
  function VelProduct(cs: seq<PrimContext>): Transform {
    if cs == [] then ZERO else Mul(cs[0].vel, VelProduct(cs[1..]))
  }

  function Xor(a: bv64, b: bv64): bv64 { a ^ b }

  function Ids(cs: seq<PrimContext>): bv64 {
    if cs == [] then 0 else Xor(Ids(cs[1..]), cs[0].id)
  }

  /** The outermost material there is. */
  function Material(cs: seq<PrimContext>): Option<nat> {
    if cs == [] then None
    else if cs[0].matNode.Some? then cs[0].matNode
    else Material(cs[1..])
  }

  /** All overrides; an inner one beats an outer one of the same name. */
  function Overrides(cs: seq<PrimContext>): map<string, string> {
    if cs == [] then map[] else cs[0].overrides + Overrides(cs[1..])
  }

  function Composed(cs: seq<PrimContext>): PrimContext {
    if cs == [] then BLANK
    else
      var last := cs[|cs| - 1];
      PrimContext(None, last.prim, TmProduct(cs), Mul(WorldProduct(cs), TmProduct(cs)), VelProduct(cs),
                  Ids(cs), Material(cs), Overrides(cs), last.styler)
  }

  // --------------------------------------------------------------- the class

  class PrimContextStack {
    var currentContextInitialized: bool
    var currentContext: PrimContext
    var primContexts: seq<PrimContext>

    /** A computed context is up to date. */
    ghost predicate Valid()
      reads this
    {
      currentContextInitialized ==> currentContext == Composed(primContexts)
    }

    constructor ()
      ensures Valid() && primContexts == []
    {
      currentContextInitialized := false;
      currentContext := BLANK;
      primContexts := [];
    }

    method PushContext(value: PrimContext)
      modifies this
      ensures Valid() && primContexts == old(primContexts) + [value]
    {
      currentContextInitialized := false;
      primContexts := primContexts + [value];
    }

    method PopContext() returns (value: PrimContext)
      requires primContexts != []
      modifies this
      ensures Valid() && old(primContexts) == primContexts + [value]
    {
      currentContextInitialized := false;
      value := primContexts[|primContexts| - 1];
      primContexts := primContexts[..|primContexts| - 1];
    }

    method InitCurrentContext()
      requires Valid()
      modifies this`currentContextInitialized, this`currentContext
      ensures Valid() && currentContext == Composed(primContexts)
    {
      if currentContextInitialized {
        return;
      }
      hide Mul, Xor, TmProduct, WorldProduct, VelProduct, Ids, Material, Overrides, AppendOverrides, Accumulated;
      NothingAccumulated();
      currentContextInitialized := true;
      var cur := BLANK;
      currentContext := cur;
      if primContexts == [] {
        return;
      }
      var i := |primContexts|;
      while i > 0
        invariant 0 <= i <= |primContexts|
        invariant Accumulated(cur, primContexts[i..])
      {
        i := i - 1;
        var ctx := primContexts[i];
        ghost var was := cur;
        assert [ctx] + primContexts[i + 1..] == primContexts[i..];
        if ctx.matNode.Some? {
          cur := cur.(matNode := ctx.matNode);
        }
        cur := cur.(overrides := AppendOverrides(cur.overrides, ctx.overrides));
        cur := cur.(id := Xor(cur.id, ctx.id));
        cur := cur.(vel := Mul(ctx.vel, cur.vel));
        cur := cur.(tm := Mul(ctx.tm, cur.tm));
        cur := cur.(worldTm := Mul(ctx.worldTm, cur.worldTm));
        AccumulatesOneMore(was, ctx, cur, primContexts[i + 1..]);
      }
      assert primContexts[0..] == primContexts;
      AccumulatedIsComposed(cur, primContexts);
      cur := cur.(worldTm := Mul(cur.worldTm, cur.tm));
      var lastCtx := primContexts[|primContexts| - 1];
      currentContext := cur.(styler := lastCtx.styler, prim := lastCtx.prim);
    }

    method GetWorldTm() returns (r: Transform)
      requires Valid()
      modifies this`currentContextInitialized, this`currentContext
      ensures Valid() && r == Composed(primContexts).worldTm
    {
      InitCurrentContext();
      r := currentContext.worldTm;
    }

    method GetTm() returns (r: Transform)
      requires Valid()
      modifies this`currentContextInitialized, this`currentContext
      ensures Valid() && r == Composed(primContexts).tm
    {
      InitCurrentContext();
      r := currentContext.tm;
    }

    method GetVel() returns (r: Transform)
      requires Valid()
      modifies this`currentContextInitialized, this`currentContext
      ensures Valid() && r == Composed(primContexts).vel
    {
      InitCurrentContext();
      r := currentContext.vel;
    }

    method GetDetailID() returns (r: bv64)
      requires Valid()
      modifies this`currentContextInitialized, this`currentContext
      ensures Valid() && r == Composed(primContexts).id
    {
      InitCurrentContext();
      r := currentContext.id;
    }

    method GetPrimMaterial() returns (matNode: Option<nat>, overrides: map<string, string>)
      requires Valid()
      modifies this`currentContextInitialized, this`currentContext
      ensures Valid()
      ensures matNode == Composed(primContexts).matNode && overrides == Composed(primContexts).overrides
    {
      InitCurrentContext();
      matNode, overrides := currentContext.matNode, currentContext.overrides;
    }

    method GetStylerAndPrim() returns (styler: Option<nat>, prim: Option<nat>)
      requires Valid()
      modifies this`currentContextInitialized, this`currentContext
      ensures Valid() && styler == Composed(primContexts).styler && prim == Composed(primContexts).prim
    {
      InitCurrentContext();
      styler, prim := currentContext.styler, currentContext.prim;
    }
  }

  /** appendOverrides: names already there are kept. */
  function AppendOverrides(have: map<string, string>, more: map<string, string>): map<string, string> {
    more + have
  }

  /** The loop has composed the contexts cs, all but the final world transform. */
  ghost predicate Accumulated(cur: PrimContext, cs: seq<PrimContext>) {
    && cur.objNode == None && cur.prim == None && cur.styler == None
    && cur.tm == TmProduct(cs)
    && cur.worldTm == WorldProduct(cs)
    && cur.vel == VelProduct(cs)
    && cur.id == Ids(cs)
    && cur.matNode == Material(cs)
    && cur.overrides == Overrides(cs)
  }

  lemma NothingAccumulated()
    ensures Accumulated(BLANK, []) && Composed([]) == BLANK
  {
  }

  lemma AccumulatesOneMore(was: PrimContext, ctx: PrimContext, cur: PrimContext, cs: seq<PrimContext>)
    requires Accumulated(was, cs)
    requires cur == was.(
      matNode := if ctx.matNode.Some? then ctx.matNode else was.matNode,
      overrides := AppendOverrides(was.overrides, ctx.overrides),
      id := Xor(was.id, ctx.id),
      vel := Mul(ctx.vel, was.vel),
      tm := Mul(ctx.tm, was.tm),
      worldTm := Mul(ctx.worldTm, was.worldTm))
    ensures Accumulated(cur, [ctx] + cs)
  {
    hide Mul, Xor;
    assert ([ctx] + cs)[1..] == cs;
  }

  lemma AccumulatedIsComposed(cur: PrimContext, cs: seq<PrimContext>)
    requires Accumulated(cur, cs) && cs != []
    ensures var last := cs[|cs| - 1];
            Composed(cs) == cur.(worldTm := Mul(cur.worldTm, cur.tm), styler := last.styler, prim := last.prim)
  {
    hide Mul;
  }

  // ------------------------------------------------------- laws of the composition

  lemma XorAssociates(a: bv64, b: bv64, c: bv64)
    ensures Xor(Xor(a, b), c) == Xor(a, Xor(b, c))
  {
    assert (a ^ b) ^ c == a ^ (b ^ c);
  }

  lemma XorCommutes(a: bv64, b: bv64)
    ensures Xor(a, b) == Xor(b, a) && Xor(0, a) == a
  {
  }

  lemma {:induction false} ConcatTm(a: seq<PrimContext>, b: seq<PrimContext>)
    ensures TmProduct(a + b) == Mul(TmProduct(a), TmProduct(b))
  {
    hide Mul;
    if a == [] {
      assert a + b == b;
      IdentityIsNeutral(TmProduct(b));
    } else {
      ConcatTm(a[1..], b);
      assert (a + b)[1..] == a[1..] + b;
      MulAssociates(a[0].tm, TmProduct(a[1..]), TmProduct(b));
    }
  }

  lemma {:induction false} ConcatWorld(a: seq<PrimContext>, b: seq<PrimContext>)
    ensures WorldProduct(a + b) == Mul(WorldProduct(a), WorldProduct(b))
  {
    hide Mul;
    if a == [] {
      assert a + b == b;
      IdentityIsNeutral(WorldProduct(b));
    } else {
      ConcatWorld(a[1..], b);
      assert (a + b)[1..] == a[1..] + b;
      MulAssociates(a[0].worldTm, WorldProduct(a[1..]), WorldProduct(b));
    }
  }

  lemma {:induction false} ConcatIds(a: seq<PrimContext>, b: seq<PrimContext>)
    ensures Ids(a + b) == Xor(Ids(a), Ids(b))
  {
    hide Xor;
    if a == [] {
      assert a + b == b;
      XorCommutes(Ids(b), 0);
    } else {
      ConcatIds(a[1..], b);
      assert (a + b)[1..] == a[1..] + b;
      XorAssociates(Ids(a[1..]), Ids(b), a[0].id);
      XorCommutes(Ids(b), a[0].id);
      XorAssociates(Ids(a[1..]), a[0].id, Ids(b));
    }
  }

  lemma MergeAssociates(x: map<string, string>, y: map<string, string>, z: map<string, string>)
    ensures x + (y + z) == (x + y) + z
  {
  }

  lemma {:induction false} ConcatOverrides(a: seq<PrimContext>, b: seq<PrimContext>)
    ensures Overrides(a + b) == Overrides(a) + Overrides(b)
  {
    if a == [] {
      assert a + b == b;
      assert map[] + Overrides(b) == Overrides(b);
    } else {
      ConcatOverrides(a[1..], b);
      assert (a + b)[1..] == a[1..] + b;
      MergeAssociates(a[0].overrides, Overrides(a[1..]), Overrides(b));
    }
  }

  lemma {:induction false} ConcatMaterial(a: seq<PrimContext>, b: seq<PrimContext>)
    ensures Material(a + b) == if Material(a).Some? then Material(a) else Material(b)
  {
    if a == [] {
      assert a + b == b;
    } else {
      ConcatMaterial(a[1..], b);
      assert (a + b)[1..] == a[1..] + b;
    }
  }

  /**
   Transforms and identifiers of a stack in two parts multiply, the inner velocity is moved by
   the outer ones; the outer material and the inner overrides win.
   */
  lemma ConcatComposes(a: seq<PrimContext>, b: seq<PrimContext>)
    requires a != [] && b != []
    ensures Composed(a + b).tm == Mul(Composed(a).tm, Composed(b).tm)
    ensures Composed(a + b).vel == Mul(FullVel(a), Composed(b).vel)
    ensures Composed(a + b).id == Xor(Composed(a).id, Composed(b).id)
    ensures Composed(a + b).matNode == if Composed(a).matNode.Some? then Composed(a).matNode else Composed(b).matNode
    ensures Composed(a + b).overrides == Composed(a).overrides + Composed(b).overrides
    ensures Composed(a + b).styler == Composed(b).styler && Composed(a + b).prim == Composed(b).prim
  {
    hide Mul, Xor;
    ConcatTm(a, b);
    ConcatVel(a, b);
    ConcatIds(a, b);
    ConcatMaterial(a, b);
    ConcatOverrides(a, b);
  }

  /** The world transform of a stack in two parts. */
  lemma ConcatWorldTm(a: seq<PrimContext>, b: seq<PrimContext>)
    requires a + b != []
    ensures Composed(a + b).worldTm ==
            Mul(Mul(WorldProduct(a), WorldProduct(b)), Mul(TmProduct(a), TmProduct(b)))
  {
    hide Mul;
    ConcatTm(a, b);
    ConcatWorld(a, b);
  }

  // ----------------------------------------------------------------- velocity

  /** The outer-to-inner product of the velocities, as it is for the transforms. */
  function FullVel(cs: seq<PrimContext>): Transform {
    if cs == [] then IDENTITY else Mul(cs[0].vel, FullVel(cs[1..]))
  }

  lemma {:induction false} VelProductIsOffset(cs: seq<PrimContext>)
    ensures VelProduct(cs) == Transform(ZERO.m, FullVel(cs).offset)
  {
    if cs != [] {
      VelProductIsOffset(cs[1..]);
      MulOfNoMatrix(cs[0].vel, VelProduct(cs[1..]));
      hide Apply, Add, MatMul;
    }
  }

  /**
   Starting from a zero transform, the composed velocity is the offset of the product without
   its matrix. It is the product exactly if that has no matrix.
   */
  lemma VelocityIsProductIff(cs: seq<PrimContext>)
    ensures Composed(cs).vel == Transform(ZERO.m, FullVel(cs).offset)
    ensures Composed(cs).vel == FullVel(cs) <==> FullVel(cs).m == ZERO.m
  {
    VelProductIsOffset(cs);
  }

  /** An outermost velocity without a matrix hides every velocity inside. */
  lemma OutermostVelocityHides(cs: seq<PrimContext>)
    requires cs != [] && cs[0].vel.m == ZERO.m
    ensures Composed(cs).vel == cs[0].vel
  {
    hide Apply, Add;
    NoMatrixMul(cs[0].vel, VelProduct(cs[1..]));
  }

  /**
   Where no velocity has a matrix, as in all contexts the program makes, the current level's
   velocity is returned exactly if it is that of the outermost level.
   */
  lemma OwnVelocityIff(cs: seq<PrimContext>)
    requires cs != [] && forall c :: c in cs ==> c.vel.m == ZERO.m
    ensures Composed(cs).vel == cs[|cs| - 1].vel <==> cs[0].vel == cs[|cs| - 1].vel
  {
    assert cs[0] in cs;
    OutermostVelocityHides(cs);
  }

  /** An object context carries no velocity: that of a primitive anywhere inside is lost. */
  lemma PrimitiveVelocityIsLost(obj: PrimContext, between: seq<PrimContext>, prim: PrimContext)
    requires obj.vel == ZERO && prim.vel.m == ZERO.m && prim.vel.offset != NO_VEC
    ensures Composed([obj] + between + [prim]).vel == ZERO != prim.vel
  {
    OutermostVelocityHides([obj] + between + [prim]);
  }

  lemma {:induction false} ConcatVel(a: seq<PrimContext>, b: seq<PrimContext>)
    ensures VelProduct(a + b) == Mul(FullVel(a), VelProduct(b))
  {
    hide Mul;
    if a == [] {
      assert a + b == b;
      IdentityIsNeutral(VelProduct(b));
    } else {
      ConcatVel(a[1..], b);
      assert (a + b)[1..] == a[1..] + b;
      MulAssociates(a[0].vel, FullVel(a[1..]), VelProduct(b));
    }
  }

  // ------------------------------------------------------------- identifiers

  /** Replacing the identifier of one level changes the composed one by the same bits. */
  lemma {:induction false} IdsOfUpdate(cs: seq<PrimContext>, i: nat, c: PrimContext)
    requires i < |cs|
    ensures Ids(cs[i := c]) == Xor(Ids(cs), Xor(cs[i].id, c.id))
  {
    hide Xor;
    var cs' := cs[i := c];
    if i == 0 {
      assert cs'[1..] == cs[1..];
      XorReplaces(Ids(cs[1..]), cs[0].id, c.id);
    } else {
      IdsOfUpdate(cs[1..], i - 1, c);
      assert cs'[1..] == cs[1..][i - 1 := c];
      XorSwaps(Ids(cs[1..]), Xor(cs[i].id, c.id), cs[0].id);
    }
  }

  /** Stacks that differ in the identifier of one level alone have different detail identifiers. */
  lemma OneIdentifierTellsApart(cs: seq<PrimContext>, i: nat, c: PrimContext)
    requires i < |cs|
    ensures Composed(cs[i := c]).id == Composed(cs).id <==> c.id == cs[i].id
  {
    hide Xor;
    IdsOfUpdate(cs, i, c);
    XorOfEqual(Ids(cs), cs[i].id, c.id);
  }

  /** Otherwise the detail identifier is not unique: swapping two levels leaves it as it was. */
  lemma SwappedLevelsCollide(cs: seq<PrimContext>, i: nat, j: nat)
    requires i < j < |cs|
    ensures Composed(cs[i := cs[j]][j := cs[i]]).id == Composed(cs).id
  {
    hide Xor, Ids;
    IdsOfUpdate(cs, i, cs[j]);
    IdsOfUpdate(cs[i := cs[j]], j, cs[i]);
    XorTwice(Ids(cs), cs[i].id, cs[j].id);
  }

  /** Two more levels of the same identifier leave it as it was, too. */
  lemma EqualIdentifiersCancel(cs: seq<PrimContext>, a: PrimContext, b: PrimContext)
    requires cs != []
    ensures Composed(cs + [a, b]).id == Composed(cs).id <==> a.id == b.id
  {
    hide Xor;
    ConcatIds(cs, [a, b]);
    assert [a, b][1..] == [b] && [b][1..] == [];
    assert Ids([b]) == Xor(0, b.id) && Ids([a, b]) == Xor(Ids([b]), a.id);
    XorCommutes(b.id, a.id);
    XorOfEqual(Ids(cs), b.id, a.id);
  }

  lemma XorReplaces(x: bv64, a: bv64, b: bv64)
    ensures Xor(x, b) == Xor(Xor(x, a), Xor(a, b))
  {
    XorAssociates(Xor(x, a), a, b);
    XorAssociates(x, a, a);
    XorOfEqual(x, a, a);
  }

  lemma XorSwaps(x: bv64, y: bv64, z: bv64)
    ensures Xor(Xor(x, y), z) == Xor(Xor(x, z), y)
  {
    hide Xor;
    XorAssociates(x, y, z);
    XorCommutes(y, z);
    XorAssociates(x, z, y);
  }

  lemma XorOfEqual(x: bv64, a: bv64, b: bv64)
    ensures Xor(x, Xor(a, b)) == x <==> a == b
  {
    hide Xor;
    XorZero(a, b);
    XorFixes(x, Xor(a, b));
  }

  lemma XorZero(a: bv64, b: bv64)
    ensures Xor(a, b) == 0 <==> a == b
  {
    XorSelf(b);
    hide Xor;
    XorAssociates(a, b, b);
    XorCommutes(a, 0);
    XorCommutes(b, 0);
  }

  lemma XorSelf(a: bv64)
    ensures Xor(a, a) == 0
  {
  }

  lemma XorFixes(x: bv64, y: bv64)
    ensures Xor(x, y) == x <==> y == 0
  {
    XorSelf(x);
    hide Xor;
    XorAssociates(x, x, y);
    XorCommutes(x, 0);
    XorCommutes(y, 0);
  }

  lemma XorTwice(x: bv64, a: bv64, b: bv64)
    ensures Xor(Xor(x, Xor(a, b)), Xor(b, a)) == x
  {
    XorCommutes(a, b);
    XorAssociates(x, Xor(a, b), Xor(b, a));
    XorOfEqual(x, Xor(a, b), Xor(b, a));
  }

  // ------------------------------------------------------- balanced runs

  datatype Op = Push(value: PrimContext) | Pop

  /** The stack after the calls; None once a call pops from an empty stack. */
  function After(stack: seq<PrimContext>, ops: seq<Op>): Option<seq<PrimContext>> {
    if ops == [] then Some(stack)
    else
      var n := |ops| - 1;
      match (After(stack, ops[..n]), ops[n])
      case (None, _) => None
      case (Some(s), Push(value)) => Some(s + [value])
      case (Some(s), Pop) => if s == [] then None else Some(s[..|s| - 1])
  }

  /** Pushes minus pops. */
  function Depth(ops: seq<Op>): int {
    if ops == [] then 0 else Depth(ops[..|ops| - 1]) + (if ops[|ops| - 1].Push? then 1 else -1)
  }

  ghost predicate NeverBelow(ops: seq<Op>) {
    forall n :: 0 <= n <= |ops| ==> Depth(ops[..n]) >= 0
  }

  lemma {:induction false} AfterKeepsBase(stack: seq<PrimContext>, ops: seq<Op>)
    requires NeverBelow(ops)
    ensures After(stack, ops).Some? && stack <= After(stack, ops).value
    ensures |After(stack, ops).value| == |stack| + Depth(ops)
  {
    if ops != [] {
      var n := |ops| - 1;
      forall m | 0 <= m <= n ensures Depth(ops[..n][..m]) >= 0 {
        assert ops[..n][..m] == ops[..m];
      }
      AfterKeepsBase(stack, ops[..n]);
      assert ops[..|ops|] == ops;
      assert Depth(ops) >= 0;
    }
  }

  /** Calls that push and pop in balance leave the stack as it was, and with it what every getter returns. */
  lemma BalancedCallsRestore(stack: seq<PrimContext>, ops: seq<Op>)
    requires NeverBelow(ops) && Depth(ops) == 0
    ensures After(stack, ops) == Some(stack)
  {
    AfterKeepsBase(stack, ops);
    var s := After(stack, ops).value;
    assert |s| == |stack| && s == s[..|stack|] == stack;
  }

  /** A single level composes to itself; its world transform follows its own transform. */
  lemma SingleLevel(c: PrimContext)
    ensures var r := Composed([c]);
            && r.tm == c.tm && r.worldTm == Mul(c.worldTm, c.tm) && r.id == c.id
            && r.matNode == c.matNode && r.overrides == c.overrides && r.styler == c.styler && r.prim == c.prim
            && r.vel == Transform(ZERO.m, c.vel.offset) && TmProduct([c]) == c.tm && WorldProduct([c]) == c.worldTm
            && FullVel([c]) == c.vel
  {
    IdentityIsNeutral(c.tm);
    IdentityIsNeutral(c.worldTm);
    IdentityIsNeutral(c.vel);
    VelProductIsOffset([c]);
    XorCommutes(c.id, 0);
    hide Mul, Xor;
    assert [c][1..] == [];
    assert TmProduct([c]) == Mul(c.tm, TmProduct([])) && WorldProduct([c]) == Mul(c.worldTm, WorldProduct([]));
    assert FullVel([c]) == Mul(c.vel, FullVel([]));
    assert Ids([c]) == Xor(Ids([]), c.id);
    assert Overrides([c]) == c.overrides + Overrides([]) == c.overrides;
    assert Material([c]) == if c.matNode.Some? then c.matNode else Material([]);
  }

  /** Nothing on the stack: no material, no identifier, and transforms that move nothing. */
  lemma NoLevel()
    ensures Composed([]) == PrimContext(None, None, IDENTITY, IDENTITY, ZERO, 0, None, map[], None)
  {
  }
}
