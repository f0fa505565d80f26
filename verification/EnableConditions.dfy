/**
 The compiler of "enabled" conditions: an OR of ANDs that says when a parameter is enabled
 becomes the brace groups that say when it is disabled.
 */
module EnableConditions {
  import opened Conditionals

  /** A condition dictionary as the guide parser makes it; convertCond rewrites it in place. */
  class CondDict {
    const parm: string
    const owner: string
    const value: Given
    var op: string
    var values: seq<Given>

    constructor (parm: string, owner: string, op: string, value: Given)
      ensures this.parm == parm && this.owner == owner && this.op == op && this.value == value
    {
      this.parm := parm;
      this.owner := owner;
      this.op := op;
      this.value := value;
      this.values := [];
    }

    function Lit(): Literal
      reads this
    {
      Literal(parm, owner, op, value)
    }
  }

  datatype Literal = Literal(parm: string, owner: string, op: string, value: Given)

  predicate Satisfied(l: Literal, prefix: string, env: Env) {
    Compare(l.op, env(FullName(l.parm, l.owner, prefix)), AsValue(l.value))
  }

  predicate ClauseHolds(clause: seq<Literal>, prefix: string, env: Env) {
    forall j :: 0 <= j < |clause| ==> Satisfied(clause[j], prefix, env)
  }

  /** The source condition: some clause has all its literals satisfied. */
  predicate Enabled(conds: seq<seq<Literal>>, prefix: string, env: Env) {
    exists i :: 0 <= i < |conds| && ClauseHolds(conds[i], prefix, env)
  }

  ghost predicate WellFormed(conds: seq<seq<Literal>>) {
    forall i, j :: 0 <= i < |conds| && 0 <= j < |conds[i]| ==> IsOperator(conds[i][j].op)
  }

  // ---------------------------------------------------------------- negation

  function NegateOp(op: string): string {
    if op == "==" then "!="
    else if op == "!=" then "=="
    else if op == ">" then "<="
    else if op == ">=" then "<"
    else if op == "<" then ">="
    else if op == "<=" then ">"
    else "=="
  }

  function Negated(l: Literal, prefix: string): Comparison {
    Comparison(FullName(l.parm, l.owner, prefix), NegateOp(l.op), AsValue(l.value))
  }

  /** The negated operator is the exact complement, for every operator the parser knows. */
  lemma NegatedMeans(l: Literal, prefix: string, env: Env)
    requires IsOperator(l.op)
    ensures Holds(Negated(l, prefix), env) <==> !Satisfied(l, prefix, env)
  {
    Trichotomy(env(FullName(l.parm, l.owner, prefix)), AsValue(l.value));
  }

  lemma NegatingTwiceRestores(op: string)
    ensures NegateOp(NegateOp(op)) == op <==> IsOperator(op)
  {
  }

  function NegatedClause(clause: seq<Literal>, prefix: string): (r: seq<Comparison>)
    ensures |r| == |clause| && forall j :: 0 <= j < |r| ==> r[j] == Negated(clause[j], prefix)
  {
    seq(|clause|, j requires 0 <= j < |clause| => Negated(clause[j], prefix))
  }

  // ------------------------------------------------------------ distribution

  /** Every group extended by the same comparison. */
  function ExtendAll(groups: seq<seq<Comparison>>, c: Comparison): (r: seq<seq<Comparison>>)
    ensures |r| == |groups| && forall i :: 0 <= i < |r| ==> r[i] == groups[i] + [c]
  {
    seq(|groups|, i requires 0 <= i < |groups| => groups[i] + [c])
  }

  /** Every group extended by every choice of a comparison. */
  function Distribute(groups: seq<seq<Comparison>>, choices: seq<Comparison>): seq<seq<Comparison>> {
    if choices == [] then []
    else Distribute(groups, choices[..|choices| - 1]) + ExtendAll(groups, choices[|choices| - 1])
  }

  /** All choices of one negated literal per clause. */
  function Expand(conds: seq<seq<Literal>>, prefix: string): seq<seq<Comparison>> {
    if conds == [] then [[]]
    else Distribute(Expand(conds[..|conds| - 1], prefix), NegatedClause(conds[|conds| - 1], prefix))
  }

  function NonEmpty(groups: seq<seq<Comparison>>): seq<seq<Comparison>> {
    if groups == [] then []
    else (if groups[0] != [] then [groups[0]] else []) + NonEmpty(groups[1..])
  }

  /** The text addHouConditional2 leaves behind. */
  function Compile(text: Text, conds: seq<seq<Literal>>, prefix: string): Text {
    AddGroups(text, NonEmpty(Expand(conds, prefix)))
  }

  lemma {:induction false} DistributeMembers(groups: seq<seq<Comparison>>, choices: seq<Comparison>, g: seq<Comparison>)
    ensures g in Distribute(groups, choices) <==>
            g != [] && g[..|g| - 1] in groups && g[|g| - 1] in choices
  {
    if choices != [] {
      var n := |choices| - 1;
      var ext := ExtendAll(groups, choices[n]);
      DistributeMembers(groups, choices[..n], g);
      assert choices == choices[..n] + [choices[n]];
      if g in ext {
        var i :| 0 <= i < |ext| && ext[i] == g;
        assert g[..|g| - 1] == groups[i];
      }
      if g != [] && g[..|g| - 1] in groups && g[|g| - 1] == choices[n] {
        var i :| 0 <= i < |groups| && groups[i] == g[..|g| - 1];
        assert ext[i] == g;
      }
    }
  }

  /** g takes one negated literal from each clause, in clause order. */
  ghost predicate IsChoice(conds: seq<seq<Literal>>, prefix: string, g: seq<Comparison>) {
    |g| == |conds| && forall i :: 0 <= i < |g| ==> Picks(conds[i], prefix, g[i])
  }

  ghost predicate Picks(clause: seq<Literal>, prefix: string, c: Comparison) {
    c in NegatedClause(clause, prefix)
  }

  lemma ExpandStep(conds: seq<seq<Literal>>, prefix: string, g: seq<Comparison>)
    requires conds != []
    ensures var n := |conds| - 1;
            g in Expand(conds, prefix) <==>
            g != [] && g[..|g| - 1] in Expand(conds[..n], prefix) && Picks(conds[n], prefix, g[|g| - 1])
  {
    var n := |conds| - 1;
    DistributeMembers(Expand(conds[..n], prefix), NegatedClause(conds[n], prefix), g);
  }

  lemma ChoiceStep(conds: seq<seq<Literal>>, prefix: string, g: seq<Comparison>)
    requires conds != [] && g != []
    ensures var n, m := |conds| - 1, |g| - 1;
            IsChoice(conds, prefix, g) <==> IsChoice(conds[..n], prefix, g[..m]) && Picks(conds[n], prefix, g[m])
  {
    hide Picks;
    var n, m := |conds| - 1, |g| - 1;
    if n == m {
      assert forall i :: 0 <= i < n ==> conds[..n][i] == conds[i] && g[..m][i] == g[i];
    }
  }

  /** The groups are exactly the choices of one negated literal from each clause. */
  lemma {:induction false} GroupsAreChoices(conds: seq<seq<Literal>>, prefix: string, g: seq<Comparison>)
    ensures g in Expand(conds, prefix) <==> IsChoice(conds, prefix, g)
  {
    if conds != [] {
      hide IsChoice, Expand, Picks;
      ExpandStep(conds, prefix, g);
      if g != [] {
        GroupsAreChoices(conds[..|conds| - 1], prefix, g[..|g| - 1]);
        ChoiceStep(conds, prefix, g);
      } else {
        ChoiceHasLength(conds, prefix, g);
      }
    }
  }

  lemma ChoiceHasLength(conds: seq<seq<Literal>>, prefix: string, g: seq<Comparison>)
    ensures IsChoice(conds, prefix, g) ==> |g| == |conds|
  {
  }

  ghost predicate SomeFails(clause: seq<Literal>, prefix: string, env: Env) {
    exists j :: 0 <= j < |clause| && Holds(Negated(clause[j], prefix), env)
  }

  lemma {:induction false} ChoiceExists(conds: seq<seq<Literal>>, prefix: string, env: Env) returns (g: seq<Comparison>)
    requires forall i :: 0 <= i < |conds| ==> SomeFails(conds[i], prefix, env)
    ensures g in Expand(conds, prefix) && GroupHolds(g, env)
  {
    if conds == [] {
      g := [];
    } else {
      hide Expand;
      var n := |conds| - 1;
      var h := ChoiceExists(conds[..n], prefix, env);
      assert SomeFails(conds[n], prefix, env);
      var j :| 0 <= j < |conds[n]| && Holds(Negated(conds[n][j], prefix), env);
      var c := NegatedClause(conds[n], prefix)[j];
      g := h + [c];
      assert g[..|g| - 1] == h;
      ExpandStep(conds, prefix, g);
    }
  }

  /** The groups hold, together, exactly when every clause has a failing literal. */
  lemma ExpandMeans(conds: seq<seq<Literal>>, prefix: string, env: Env)
    requires WellFormed(conds)
    ensures AnyGroupHolds(Expand(conds, prefix), env) <==> !Enabled(conds, prefix, env)
  {
    var groups := Expand(conds, prefix);
    forall i | 0 <= i < |conds|
      ensures ClauseHolds(conds[i], prefix, env) <==> !SomeFails(conds[i], prefix, env)
    {
      forall j | 0 <= j < |conds[i]|
        ensures Holds(Negated(conds[i][j], prefix), env) <==> !Satisfied(conds[i][j], prefix, env)
      {
        NegatedMeans(conds[i][j], prefix, env);
      }
    }
    if AnyGroupHolds(groups, env) {
      var k :| 0 <= k < |groups| && GroupHolds(groups[k], env);
      var g := groups[k];
      GroupsAreChoices(conds, prefix, g);
      forall i | 0 <= i < |conds| ensures SomeFails(conds[i], prefix, env) {
        var nc := NegatedClause(conds[i], prefix);
        assert Picks(conds[i], prefix, g[i]);
        var j :| 0 <= j < |nc| && nc[j] == g[i];
        assert Holds(g[i], env);
      }
    }
    if !Enabled(conds, prefix, env) {
      var g := ChoiceExists(conds, prefix, env);
      var k :| 0 <= k < |groups| && groups[k] == g;
    }
  }

  lemma {:induction false} NonEmptyKeepsAll(groups: seq<seq<Comparison>>)
    requires forall i :: 0 <= i < |groups| ==> groups[i] != []
    ensures NonEmpty(groups) == groups
  {
    if groups != [] {
      NonEmptyKeepsAll(groups[1..]);
      assert groups == [groups[0]] + groups[1..];
    }
  }

  /**
   The compiled text disables the parameter exactly when it did before or the condition is
   false. This needs at least one clause, which is what the caller checks: with none, no
   group is written and the parameter is never disabled, although no clause holds.
   */
  lemma CompileMeans(gs: seq<seq<Comparison>>, conds: seq<seq<Literal>>, prefix: string, env: Env)
    requires WellFormed(conds)
    ensures (Means(Compile(Render(gs), conds, prefix), env) <==>
             Means(Render(gs), env) || !Enabled(conds, prefix, env))
            <==> (conds != [] || Means(Render(gs), env))
    ensures exists hs :: Compile(Render(gs), conds, prefix) == Render(hs)
  {
    var groups := Expand(conds, prefix);
    AddGroupsMeans(gs, NonEmpty(groups), env);
    ReadOfRendered(gs);
    if conds != [] {
      forall i | 0 <= i < |groups| ensures groups[i] != [] {
        GroupsAreChoices(conds, prefix, groups[i]);
      }
      NonEmptyKeepsAll(groups);
      ExpandMeans(conds, prefix, env);
    } else {
      assert NonEmpty(groups) == [] by {
        assert groups == [[]] && NonEmpty(groups[1..]) == [];
      }
    }
  }

  /** The dictionaries after a compile: the operators stay negated. */
  function AfterCompile(conds: seq<seq<Literal>>): (r: seq<seq<Literal>>)
    ensures |r| == |conds| && forall i :: 0 <= i < |r| ==> |r[i]| == |conds[i]|
    ensures forall i, j :: 0 <= i < |r| && 0 <= j < |r[i]| ==>
              r[i][j] == conds[i][j].(op := NegateOp(conds[i][j].op))
  {
    seq(|conds|, i requires 0 <= i < |conds| =>
        seq(|conds[i]|, j requires 0 <= j < |conds[i]| => conds[i][j].(op := NegateOp(conds[i][j].op))))
  }

  predicate SomeSatisfied(clause: seq<Literal>, prefix: string, env: Env) {
    exists j :: 0 <= j < |clause| && Satisfied(clause[j], prefix, env)
  }

  lemma AfterCompileEnabled(conds: seq<seq<Literal>>, prefix: string, env: Env)
    requires WellFormed(conds)
    ensures !Enabled(AfterCompile(conds), prefix, env) <==>
            forall i :: 0 <= i < |conds| ==> SomeSatisfied(conds[i], prefix, env)
  {
    var again := AfterCompile(conds);
    forall i | 0 <= i < |conds|
      ensures ClauseHolds(again[i], prefix, env) <==> !SomeSatisfied(conds[i], prefix, env)
    {
      forall j | 0 <= j < |conds[i]|
        ensures Satisfied(again[i][j], prefix, env) <==> !Satisfied(conds[i][j], prefix, env)
      {
        NegatedMeans(conds[i][j], prefix, env);
      }
    }
  }

  /**
   A description must be compiled once only: compiling it again negates the literals a second
   time, and the parameter is then also disabled whenever every clause has a satisfied literal.
   */
  lemma CompilingAgainMeans(gs: seq<seq<Comparison>>, conds: seq<seq<Literal>>, prefix: string, env: Env)
    requires WellFormed(conds) && conds != []
    ensures Means(Compile(Compile(Render(gs), conds, prefix), AfterCompile(conds), prefix), env) <==>
            Means(Render(gs), env) || !Enabled(conds, prefix, env)
            || forall i :: 0 <= i < |conds| ==> SomeSatisfied(conds[i], prefix, env)
  {
    var again := AfterCompile(conds);
    AfterCompileEnabled(conds, prefix, env);
    CompileMeans(gs, conds, prefix, env);
    assert WellFormed(again);
    hide Compile, Means, Render, Enabled, SomeSatisfied, WellFormed;
    var hs :| Compile(Render(gs), conds, prefix) == Render(hs);
    CompileMeans(hs, again, prefix, env);
  }

  // ----------------------------------------------------------- the method itself

  function Snapshot(conds: seq<seq<CondDict>>): (r: seq<seq<Literal>>)
    reads set i, j | 0 <= i < |conds| && 0 <= j < |conds[i]| :: conds[i][j]
    ensures |r| == |conds| && forall i :: 0 <= i < |r| ==> r[i] == SnapshotClause(conds[i])
  {
    seq(|conds|, i requires 0 <= i < |conds|
        reads set i, j | 0 <= i < |conds| && 0 <= j < |conds[i]| :: conds[i][j]
        => SnapshotClause(conds[i]))
  }

  function SnapshotClause(clause: seq<CondDict>): (r: seq<Literal>)
    reads clause
    ensures |r| == |clause| && forall j :: 0 <= j < |r| ==> r[j] == clause[j].Lit()
  {
    seq(|clause|, j requires 0 <= j < |clause| reads clause => clause[j].Lit())
  }

  /** Negates the operator in place and makes the value a list. */
  method ConvertCond(cond: CondDict)
    modifies cond
    ensures cond.op == NegateOp(old(cond.op)) && cond.values == [cond.value]
  {
    var op := cond.op;
    if op == "==" {
      op := "!=";
    } else if op == "!=" {
      op := "==";
    } else if op == ">" {
      op := "<=";
    } else if op == ">=" {
      op := "<";
    } else if op == "<" {
      op := ">=";
    } else if op == "<=" {
      op := ">";
    } else {
      op := "==";
    }
    cond.op := op;
    cond.values := [cond.value];
  }

  /** The dictionaries are separate objects, as the parser makes them. */
  ghost predicate Separate(conds: seq<seq<CondDict>>) {
    forall i, j, k, l ::
      0 <= i < |conds| && 0 <= j < |conds[i]| && 0 <= k < |conds| && 0 <= l < |conds[k]| && (i != k || j != l)
      ==> conds[i][j] != conds[k][l]
  }

  ghost predicate Untouched(d: CondDict, l: Literal)
    reads d
  {
    d.Lit() == l
  }

  ghost predicate Converted(d: CondDict, l: Literal)
    reads d
  {
    d.Lit() == l.(op := NegateOp(l.op)) && d.values == [d.value]
  }

  /** The innermost loop: every group so far, extended by the comparisons of one literal. */
  method ExtendEach(tmplist: seq<seq<Comparison>>, condlist: seq<seq<Comparison>>, conditional: seq<Comparison>)
    returns (r: seq<seq<Comparison>>)
    requires |conditional| == 1
    ensures r == tmplist + ExtendAll(condlist, conditional[0])
  {
    r := tmplist;
    for i := 0 to |condlist|
      invariant r == tmplist + ExtendAll(condlist, conditional[0])[..i]
    {
      assert conditional == [conditional[0]];
      r := r + [condlist[i] + conditional];
    }
  }

  /** The loop over the literals of one clause. */
  method DistributeClause(condlist: seq<seq<Comparison>>, clause: seq<CondDict>, prefix: string)
    returns (tmplist: seq<seq<Comparison>>)
    requires forall j, l :: 0 <= j < l < |clause| ==> clause[j] != clause[l]
    modifies clause
    ensures tmplist == Distribute(condlist, NegatedClause(old(SnapshotClause(clause)), prefix))
    ensures forall j :: 0 <= j < |clause| ==> Converted(clause[j], old(clause[j].Lit()))
  {
    ghost var lits := SnapshotClause(clause);
    ghost var choices := NegatedClause(lits, prefix);
    tmplist := [];
    for j := 0 to |clause|
      invariant tmplist == Distribute(condlist, choices[..j])
      invariant forall l :: 0 <= l < j ==> Converted(clause[l], lits[l])
      invariant forall l :: j <= l < |clause| ==> Untouched(clause[l], lits[l])
    {
      var d := clause[j];
      assert Untouched(d, lits[j]);
      ConvertCond(d);
      var houcondlist := GetAsHouConditionalList(d.parm, d.owner, d.op, d.values, prefix);
      assert houcondlist == [choices[j]];
      tmplist := ExtendEach(tmplist, condlist, houcondlist);
      assert choices[..j + 1][..j] == choices[..j];
    }
    assert choices[..|choices|] == choices;
  }

  lemma NothingExpands(prefix: string)
    ensures Expand([], prefix) == [[]]
  {
  }

  lemma ExpandNext(conds: seq<seq<Literal>>, i: nat, prefix: string)
    requires i < |conds|
    ensures Expand(conds[..i + 1], prefix) == Distribute(Expand(conds[..i], prefix), NegatedClause(conds[i], prefix))
  {
    assert conds[..i + 1][..i] == conds[..i];
  }

  /** Converts every dictionary and adds the groups that are not in the text yet. */
  method AddHouConditional2(text: Text, conds: seq<seq<CondDict>>, prefix: string) returns (result: Text)
    requires Separate(conds)
    modifies set i, j | 0 <= i < |conds| && 0 <= j < |conds[i]| :: conds[i][j]
    ensures result == Compile(text, old(Snapshot(conds)), prefix)
    ensures forall i, j :: 0 <= i < |conds| && 0 <= j < |conds[i]| ==>
              Converted(conds[i][j], old(conds[i][j].Lit()))
  {
    hide Expand, Distribute, NegatedClause, NonEmpty;
    ghost var lits := Snapshot(conds);
    NothingExpands(prefix);
    var condlist: seq<seq<Comparison>> := [[]];
    for i := 0 to |conds|
      invariant condlist == Expand(lits[..i], prefix)
      invariant forall k, l :: 0 <= k < i && 0 <= l < |conds[k]| ==> Converted(conds[k][l], lits[k][l])
      invariant forall k, l :: i <= k < |conds| && 0 <= l < |conds[k]| ==> Untouched(conds[k][l], lits[k][l])
    {
      assert SnapshotClause(conds[i]) == lits[i] by {
        assert forall l :: 0 <= l < |conds[i]| ==> Untouched(conds[i][l], lits[i][l]);
      }
      condlist := DistributeClause(condlist, conds[i], prefix);
      ExpandNext(lits, i, prefix);
    }
    assert lits[..|lits|] == lits;
    result := AddGroups(text, NonEmpty(condlist));
  }

  lemma OneMoreRow(rows: int, width: int)
    ensures (rows + 1) * width == rows * width + width
  {
  }

  lemma {:induction false} InRows(width: nat, rows: nat, i: nat, j: nat)
    requires i < width && j < rows
    ensures 0 <= j * width + i < rows * width
  {
    OneMoreRow(rows - 1, width);
    if j < rows - 1 {
      InRows(width, rows - 1, i, j);
    }
  }

  /** Where the groups of a clause stand: by literal, and for each literal in the order they had. */
  lemma {:induction false} DistributeAt(groups: seq<seq<Comparison>>, choices: seq<Comparison>, i: nat, j: nat)
    requires i < |groups| && j < |choices|
    ensures |Distribute(groups, choices)| == |choices| * |groups|
    ensures 0 <= j * |groups| + i < |choices| * |groups|
    ensures Distribute(groups, choices)[j * |groups| + i] == groups[i] + [choices[j]]
  {
    var n := |choices| - 1;
    DistributeLength(groups, choices);
    DistributeLength(groups, choices[..n]);
    OneMoreRow(n, |groups|);
    InRows(|groups|, |choices|, i, j);
    if j < n {
      InRows(|groups|, n, i, j);
      DistributeAt(groups, choices[..n], i, j);
    }
  }

  lemma {:induction false} DistributeLength(groups: seq<seq<Comparison>>, choices: seq<Comparison>)
    ensures |Distribute(groups, choices)| == |choices| * |groups|
  {
    if choices != [] {
      var n := |choices| - 1;
      DistributeLength(groups, choices[..n]);
      OneMoreRow(n, |groups|);
    }
  }
}
