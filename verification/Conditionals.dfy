/**
 Houdini conditionals: the text attached to a parameter, how it is read, and what it means.
 A conditional is a sequence of brace groups; it holds when every comparison of some group holds.
 The text is modelled as its tokens: braces and three-word comparisons.
 */
module Conditionals {
  import opened Wrappers

  datatype Value = Num(r: real) | Str(s: string)

  /** The values of all parameters, by Houdini parameter name. */
  type Env = string -> Value

  datatype Comparison = Comparison(parm: string, op: string, value: Value)

  datatype Token = Open | Close | Lit(c: Comparison)

  type Text = seq<Token>

  /** A value as the description gives it; conditionals write a bool as 0 or 1. */
  datatype Given = GivenBool(b: bool) | GivenValue(v: Value)

  function AsValue(g: Given): Value {
    match g
    case GivenBool(b) => Num(if b then 1.0 else 0.0)
    case GivenValue(v) => v
  }

  /** A parameter's Houdini name: behind its owner's name, or else the prefix, if there is one. */
  function FullName(parm: string, owner: string, prefix: string): string {
    var o := if owner != "" then owner else prefix;
    if o != "" then o + "_" + parm else parm
  }

  /** One comparison per value, all of the same parameter with the same operator. */
  function HouList(parm: string, owner: string, op: string, values: seq<Given>, prefix: string): (r: seq<Comparison>)
    ensures |r| == |values|
    ensures forall i :: 0 <= i < |r| ==> r[i] == Comparison(FullName(parm, owner, prefix), op, AsValue(values[i]))
  {
    seq(|values|, i requires 0 <= i < |values| => Comparison(FullName(parm, owner, prefix), op, AsValue(values[i])))
  }

  method GetAsHouConditionalList(parm: string, owner: string, op: string, values: seq<Given>, prefix: string)
    returns (tmplist: seq<Comparison>)
    ensures tmplist == HouList(parm, owner, op, values, prefix)
    ensures |tmplist| == |values| && forall i :: 0 <= i < |values| ==>
              && tmplist[i].op == op
              && (owner != "" ==> tmplist[i].parm == owner + "_" + parm)
              && (owner == "" && prefix != "" ==> tmplist[i].parm == prefix + "_" + parm)
              && (owner == "" && prefix == "" ==> tmplist[i].parm == parm)
              && (values[i] == GivenBool(true) ==> tmplist[i].value == Num(1.0))
              && (values[i] == GivenBool(false) ==> tmplist[i].value == Num(0.0))
              && (values[i].GivenValue? ==> tmplist[i].value == values[i].v)
  {
    tmplist := [];
    for i := 0 to |values|
      invariant tmplist == HouList(parm, owner, op, values[..i], prefix)
    {
      var name := parm;
      var parmowner := owner;
      if parmowner == "" {
        parmowner := prefix;
      }
      if parmowner != "" {
        name := parmowner + "_" + parm;
      }
      tmplist := tmplist + [Comparison(name, op, AsValue(values[i]))];
    }
    assert values[..|values|] == values;
  }

  // ----------------------------------------------------------------- meaning

  predicate LessStr(a: string, b: string) {
    if b == "" then false
    else if a == "" then true
    else a[0] < b[0] || (a[0] == b[0] && LessStr(a[1..], b[1..]))
  }

  /** Numbers by size, before strings in dictionary order. */
  predicate Less(a: Value, b: Value) {
    match (a, b)
    case (Num(x), Num(y)) => x < y
    case (Num(_), Str(_)) => true
    case (Str(_), Num(_)) => false
    case (Str(x), Str(y)) => LessStr(x, y)
  }

  predicate Compare(op: string, x: Value, y: Value) {
    if op == "==" then x == y
    else if op == "!=" then x != y
    else if op == "<" then Less(x, y)
    else if op == ">" then Less(y, x)
    else if op == "<=" then Less(x, y) || x == y
    else if op == ">=" then Less(y, x) || x == y
    else false
  }

  /** Numbers are compared by size. */
  lemma NumbersCompare(x: real, y: real)
    ensures Compare("==", Num(x), Num(y)) <==> x == y
    ensures Compare("!=", Num(x), Num(y)) <==> x != y
    ensures Compare("<", Num(x), Num(y)) <==> x < y
    ensures Compare(">", Num(x), Num(y)) <==> x > y
    ensures Compare("<=", Num(x), Num(y)) <==> x <= y
    ensures Compare(">=", Num(x), Num(y)) <==> x >= y
  {
  }

  predicate IsOperator(op: string) {
    op in {"==", "!=", "<", ">", "<=", ">="}
  }

  predicate Holds(c: Comparison, env: Env) {
    Compare(c.op, env(c.parm), c.value)
  }

  predicate GroupHolds(g: seq<Comparison>, env: Env) {
    forall i :: 0 <= i < |g| ==> Holds(g[i], env)
  }

  predicate AnyGroupHolds(gs: seq<seq<Comparison>>, env: Env) {
    exists i :: 0 <= i < |gs| && GroupHolds(gs[i], env)
  }

  lemma {:induction false} StrTrichotomy(a: string, b: string)
    ensures a == b ==> !LessStr(a, b)
    ensures a != b ==> LessStr(a, b) != LessStr(b, a)
  {
    if a != "" && b != "" {
      StrTrichotomy(a[1..], b[1..]);
      assert a == [a[0]] + a[1..] && b == [b[0]] + b[1..];
    }
  }

  lemma Trichotomy(a: Value, b: Value)
    ensures a == b ==> !Less(a, b)
    ensures a != b ==> Less(a, b) != Less(b, a)
  {
    if a.Str? && b.Str? {
      StrTrichotomy(a.s, b.s);
    }
  }

  // ------------------------------------------------------- writing and reading

  function Lits(g: seq<Comparison>): (t: Text)
    ensures |t| == |g| && forall i :: 0 <= i < |t| ==> t[i] == Lit(g[i])
  {
    seq(|g|, i requires 0 <= i < |g| => Lit(g[i]))
  }

  function RenderGroup(g: seq<Comparison>): Text {
    [Open] + Lits(g) + [Close]
  }

  function Render(gs: seq<seq<Comparison>>): Text {
    if gs == [] then [] else RenderGroup(gs[0]) + Render(gs[1..])
  }

  /** Reads the rest of a group up to its closing brace. */
  function ReadGroup(t: Text): Option<(seq<Comparison>, Text)> {
    if t == [] then None
    else match t[0]
      case Open => None
      case Close => Some(([], t[1..]))
      case Lit(c) =>
        match ReadGroup(t[1..])
        case None => None
        case Some((g, rest)) => Some(([c] + g, rest))
  }

  lemma {:induction false} ReadGroupShrinks(t: Text)
    ensures ReadGroup(t).Some? ==> |ReadGroup(t).value.1| < |t|
  {
    if t != [] && t[0].Lit? {
      ReadGroupShrinks(t[1..]);
    }
  }

  function Read(t: Text): Option<seq<seq<Comparison>>>
    decreases |t|
  {
    if t == [] then Some([])
    else if t[0] != Open then None
    else
      var first := ReadGroup(t[1..]);
      if first.None? then None
      else
        ReadGroupShrinks(t[1..]);
        var rest := Read(first.value.1);
        if rest.None? then None else Some([first.value.0] + rest.value)
  }

  /** What a conditional means to its reader. */
  predicate Means(t: Text, env: Env) {
    Read(t).Some? && AnyGroupHolds(Read(t).value, env)
  }

  lemma {:induction false} ReadGroupOfRendered(g: seq<Comparison>, rest: Text)
    ensures ReadGroup(Lits(g) + [Close] + rest) == Some((g, rest))
  {
    var t := Lits(g) + [Close] + rest;
    if g == [] {
      assert t[1..] == rest;
    } else {
      ReadGroupOfRendered(g[1..], rest);
      assert t[1..] == Lits(g[1..]) + [Close] + rest;
      assert g == [g[0]] + g[1..];
    }
  }

  lemma ReadOfGroup(g: seq<Comparison>, rest: Text)
    ensures Read(RenderGroup(g) + rest) ==
            if Read(rest).None? then None else Some([g] + Read(rest).value)
  {
    hide ReadGroup;
    var t := RenderGroup(g) + rest;
    ReadGroupOfRendered(g, rest);
    assert t[0] == Open && t[1..] == Lits(g) + [Close] + rest;
  }

  /** Reading undoes writing. */
  lemma {:induction false} ReadOfRendered(gs: seq<seq<Comparison>>)
    ensures Read(Render(gs)) == Some(gs)
  {
    if gs != [] {
      hide Read, RenderGroup;
      ReadOfRendered(gs[1..]);
      ReadOfGroup(gs[0], Render(gs[1..]));
      assert gs == [gs[0]] + gs[1..];
    }
  }

  lemma {:induction false} RenderAppends(a: seq<seq<Comparison>>, b: seq<seq<Comparison>>)
    ensures Render(a + b) == Render(a) + Render(b)
  {
    hide RenderGroup;
    if a == [] {
      assert a + b == b;
    } else {
      RenderAppends(a[1..], b);
      assert (a + b)[1..] == a[1..] + b;
      ConcatAssociates(RenderGroup(a[0]), Render(a[1..]), Render(b));
    }
  }

  // ------------------------------------------- adding groups that are not there yet

  /** str.find: the text x occurs in t. */
  predicate OccursIn(x: Text, t: Text) {
    exists p :: 0 <= p <= |t| && OccursAt(x, t, p)
  }

  predicate OccursAt(x: Text, t: Text, p: nat) {
    p + |x| <= |t| && t[p..p + |x|] == x
  }

  /** The groups whose text does not occur in t. */
  function Missing(t: Text, gs: seq<seq<Comparison>>): seq<seq<Comparison>> {
    if gs == [] then []
    else (if OccursIn(RenderGroup(gs[0]), t) then [] else [gs[0]]) + Missing(t, gs[1..])
  }

  function AddGroups(t: Text, gs: seq<seq<Comparison>>): Text {
    t + Render(Missing(t, gs))
  }

  /** A text that opens a brace cannot start inside a group, only after it. */
  lemma OccursAfter(x: Text, first: Text, rest: Text, p: nat)
    requires OccursAt(x, first + rest, p) && 0 < p && x != [] && x[0] == Open
    requires forall i :: 0 < i < |first| ==> first[i] != Open
    ensures |first| <= p && OccursAt(x, rest, p - |first|)
  {
    var t := first + rest;
    assert t[p..p + |x|][0] == t[p];
    assert forall i :: 0 < i < |first| ==> t[i] == first[i];
    assert t[p..p + |x|] == rest[p - |first|..p - |first| + |x|];
  }

  /** A group that opens at p can only be the group written there. */
  lemma {:induction false} OccurrenceIsGroup(g: seq<Comparison>, gs: seq<seq<Comparison>>, p: nat)
    requires OccursAt(RenderGroup(g), Render(gs), p)
    ensures g in gs
  {
    if p == 0 {
      SameGroup(g, gs[0], Render(gs[1..]));
    } else {
      assert gs != [];
      hide OccursAt;
      OccursAfter(RenderGroup(g), RenderGroup(gs[0]), Render(gs[1..]), p);
      OccurrenceIsGroup(g, gs[1..], p - |RenderGroup(gs[0])|);
    }
  }

  lemma SameGroup(g: seq<Comparison>, h: seq<Comparison>, rest: Text)
    requires RenderGroup(g) <= RenderGroup(h) + rest
    ensures g == h
  {
    var t := RenderGroup(h) + rest;
    var x := RenderGroup(g);
    assert forall i :: 1 <= i <= |g| ==> x[i] == Lit(g[i - 1]);
    assert forall i :: 1 <= i <= |h| ==> t[i] == Lit(h[i - 1]);
    assert x[|g| + 1] == t[|g| + 1] == Close && t[|h| + 1] == Close;
    assert |g| == |h|;
    forall i | 0 <= i < |g| ensures g[i] == h[i] {
      assert x[i + 1] == t[i + 1];
    }
  }

  lemma {:induction false} GroupOccurs(g: seq<Comparison>, gs: seq<seq<Comparison>>)
    requires g in gs
    ensures OccursIn(RenderGroup(g), Render(gs))
  {
    var i :| 0 <= i < |gs| && gs[i] == g;
    assert gs == gs[..i] + gs[i..] && gs[i..][0] == g;
    RenderAppends(gs[..i], gs[i..]);
    var p := |Render(gs[..i])|;
    assert OccursAt(RenderGroup(g), Render(gs), p);
  }

  lemma {:induction false} MissingGroups(gs: seq<seq<Comparison>>, added: seq<seq<Comparison>>)
    ensures forall g :: g in Missing(Render(gs), added) <==> g in added && g !in gs
  {
    if added != [] {
      MissingGroups(gs, added[1..]);
      var g := added[0];
      if OccursIn(RenderGroup(g), Render(gs)) {
        var p :| 0 <= p <= |Render(gs)| && OccursAt(RenderGroup(g), Render(gs), p);
        OccurrenceIsGroup(g, gs, p);
      } else if g in gs {
        GroupOccurs(g, gs);
      }
    }
  }

  /**
   Adding groups to a conditional adds exactly their meaning, although groups whose text
   already occurs are left out.
   */
  lemma AddGroupsMeans(gs: seq<seq<Comparison>>, more: seq<seq<Comparison>>, env: Env)
    ensures AddGroups(Render(gs), more) == Render(gs + Missing(Render(gs), more))
    ensures Means(AddGroups(Render(gs), more), env) <==> AnyGroupHolds(gs, env) || AnyGroupHolds(more, env)
  {
    var kept := Missing(Render(gs), more);
    RenderAppends(gs, kept);
    ReadOfRendered(gs + kept);
    MissingGroups(gs, more);
    if AnyGroupHolds(more, env) {
      var i :| 0 <= i < |more| && GroupHolds(more[i], env);
      if more[i] in gs {
        var j :| 0 <= j < |gs| && gs[j] == more[i];
        assert (gs + kept)[j] == more[i];
      } else {
        assert more[i] in kept;
        var j :| 0 <= j < |kept| && kept[j] == more[i];
        assert (gs + kept)[|gs| + j] == more[i];
      }
    }
    if AnyGroupHolds(gs, env) {
      var i :| 0 <= i < |gs| && GroupHolds(gs[i], env);
      assert (gs + kept)[i] == gs[i];
    }
    if AnyGroupHolds(gs + kept, env) {
      var i :| 0 <= i < |gs + kept| && GroupHolds((gs + kept)[i], env);
      if i >= |gs| {
        assert kept[i - |gs|] in kept;
        var j :| 0 <= j < |more| && more[j] == kept[i - |gs|];
      }
    }
  }
}
