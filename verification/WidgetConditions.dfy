/**
 Conditions of the nested widgets of a plugin description: "active" and "show" conditions of a
 widget, a split inside it and an attribute entry become the "disable when" and "hide when"
 conditions of the parameter the attribute names.
 */
module WidgetConditions {
  import opened Wrappers
  import opened Conditionals
  import E = EnableConditions

  /** The "condition" member: absent, a bool, or an operator name. */
  datatype Kind = NoKind | IsBool(b: bool) | Named(name: string)

  datatype GivenValues = One(v: Given) | Many(vs: seq<Given>)

  /** The dictionary under "active", "show" or "visible"; prop is empty when it is missing. */
  datatype Cond = Cond(prop: string, value: Option<GivenValues>, kind: Kind, at: string)

  /** The three condition members; an empty dictionary counts as none. */
  datatype Guards = Guards(active: Option<Cond>, show: Option<Cond>, visible: Option<Cond>)

  datatype Attr = Attr(name: string, guards: Guards)
  datatype Split = Split(guards: Guards, attrs: seq<Attr>)
  datatype Widget = Widget(guards: Guards, attrs: seq<Attr>, splits: seq<Split>)

  datatype Type = Disable | Hide

  /** A translated condition, as getCondition returns it. */
  datatype Translated = Translated(
    typ: Type, parm: string, op: string, values: seq<Given>, isOr: bool, owner: string)

  // --------------------------------------------------- meaning of a source condition

  /** The values a condition lists; 1 when it lists none. */
  function Listed(c: Cond): seq<Given> {
    match c.value
    case None => [GivenValue(Num(1.0))]
    case Some(One(v)) => [v]
    case Some(Many(vs)) => vs
  }

  /** The parameter's value x stands to v as the condition's name says; "equal" when it says nothing else. */
  predicate Relates(k: Kind, x: Value, v: Value) {
    if k == Named("not_equal") || k == Named("not_in") then x != v
    else if k == Named("greater") then Less(v, x)
    else if k == Named("greater_or_equal") then Less(v, x) || x == v
    else if k == Named("less") then Less(x, v)
    else if k == Named("less_or_equal") then Less(x, v) || x == v
    else x == v
  }

  /**
   A bool condition compares with 1 or 0. Otherwise "not_in" asks for all of the listed values,
   every other condition for one of them.
   */
  predicate SatisfiedBy(c: Cond, prefix: string, env: Env) {
    var x := env(FullName(c.prop, c.at, prefix));
    var vs := Listed(c);
    match c.kind
    case IsBool(b) => x == Num(if b then 1.0 else 0.0)
    case _ =>
      if c.kind == Named("not_in")
      then forall i :: 0 <= i < |vs| ==> Relates(c.kind, x, AsValue(vs[i]))
      else exists i :: 0 <= i < |vs| && Relates(c.kind, x, AsValue(vs[i]))
  }

  /** There is a condition, on a named parameter, and it fails. */
  predicate CondFails(c: Option<Cond>, prefix: string, env: Env) {
    c.Some? && c.value.prop != "" && !SatisfiedBy(c.value, prefix, env)
  }

  /** A show or a visible condition of the item fails, whatever else the item carries. */
  predicate ShowFails(g: Guards, prefix: string, env: Env) {
    CondFails(g.show, prefix, env) || CondFails(g.visible, prefix, env)
  }

  /**
   A failing show condition stands beside an active one, or a failing visible condition beside
   an active or a show one. Only the first of the three is ever looked at.
   */
  predicate ShadowedShowFails(g: Guards, prefix: string, env: Env) {
    || (CondFails(g.show, prefix, env) && g.active.Some?)
    || (CondFails(g.visible, prefix, env) && (g.active.Some? || g.show.Some?))
  }

  /** The item's condition of the type fails and is not shadowed; an active one never is. */
  predicate Fails(g: Guards, t: Type, prefix: string, env: Env) {
    match t
    case Disable => CondFails(g.active, prefix, env)
    case Hide => g.active == None && CondFails(if g.show.Some? then g.show else g.visible, prefix, env)
  }

  lemma ShowFailsInForceOrShadowed(g: Guards, prefix: string, env: Env)
    ensures ShowFails(g, prefix, env) <==> Fails(g, Hide, prefix, env) || ShadowedShowFails(g, prefix, env)
  {
  }

  // ------------------------------------------------------------ getCondition

  /** The first of active, show and visible. */
  function Guard(g: Guards): Option<(Type, Cond)> {
    if g.active.Some? then Some((Disable, g.active.value))
    else if g.show.Some? then Some((Hide, g.show.value))
    else if g.visible.Some? then Some((Hide, g.visible.value))
    else None
  }

  /** The operator a condition asks for. */
  function Asked(k: Kind): string {
    if k == Named("not_equal") || k == Named("not_in") then "!="
    else if k == Named("greater") then ">"
    else if k == Named("greater_or_equal") then ">="
    else if k == Named("less") then "<"
    else if k == Named("less_or_equal") then "<="
    else "=="
  }

  /** The values compared with: a bool condition overrides them. */
  function AskedValues(c: Cond): seq<Given> {
    match c.kind
    case IsBool(b) => [GivenValue(Num(if b then 1.0 else 0.0))]
    case _ => Listed(c)
  }

  method GetCondition(g: Guards) returns (r: Option<Translated>)
    ensures r == Translate(g)
  {
    var cond := g.active;
    var condType := Disable;
    if cond == None {
      cond := g.show;
      condType := Hide;
    }
    if cond == None {
      cond := g.visible;
      condType := Hide;
    }
    if cond == None {
      return None;
    }
    var c := cond.value;
    if c.prop == "" {
      return None;
    }
    var value := if c.value == None then One(GivenValue(Num(1.0))) else c.value.value;
    var op := "!=";
    var isOr := false;
    var parmCond := c.kind;
    if parmCond == IsBool(true) {
      op := "!=";
      value := One(GivenValue(Num(1.0)));
    } else if parmCond == IsBool(false) {
      op := "!=";
      value := One(GivenValue(Num(0.0)));
    } else if parmCond == Named("equal") {
      op := "!=";
    } else if parmCond == Named("not_equal") {
      op := "==";
    } else if parmCond == Named("greater") {
      op := "<=";
    } else if parmCond == Named("greater_or_equal") {
      op := "<";
    } else if parmCond == Named("less") {
      op := ">=";
    } else if parmCond == Named("less_or_equal") {
      op := ">";
    } else if parmCond == Named("in") {
      op := "!=";
    } else if parmCond == Named("not_in") {
      op := "==";
      isOr := true;
    }
    var values := match value case One(v) => [v] case Many(vs) => vs;
    r := Some(Translated(condType, c.prop, op, values, isOr, c.at));
  }

  function Translate(g: Guards): Option<Translated> {
    match Guard(g)
    case None => None
    case Some((t, c)) =>
      if c.prop == "" then None
      else Some(Translated(t, c.prop, E.NegateOp(Asked(c.kind)), AskedValues(c), c.kind == Named("not_in"), c.at))
  }

  // ------------------------------------------------------- groups of a condition

  /** One group of all comparisons, or a group for each. */
  function GroupsOf(t: Translated, prefix: string): seq<seq<Comparison>> {
    var lits := HouList(t.parm, t.owner, t.op, t.values, prefix);
    if t.isOr then seq(|lits|, i requires 0 <= i < |lits| => [lits[i]]) else [lits]
  }

  function AllGroups(ts: seq<Translated>, prefix: string): seq<seq<Comparison>> {
    if ts == [] then [] else AllGroups(ts[..|ts| - 1], prefix) + GroupsOf(ts[|ts| - 1], prefix)
  }

  method AddHouConditional(text: Text, conditions: seq<Translated>, prefix: string) returns (result: Text)
    ensures result == AddGroups(text, AllGroups(conditions, prefix))
  {
    hide HouList, AddGroups;
    var condlist: seq<seq<Comparison>> := [];
    for i := 0 to |conditions|
      invariant condlist == AllGroups(conditions[..i], prefix)
    {
      var cond := conditions[i];
      var tmplist := GetAsHouConditionalList(cond.parm, cond.owner, cond.op, cond.values, prefix);
      if cond.isOr {
        condlist := condlist + seq(|tmplist|, k requires 0 <= k < |tmplist| => [tmplist[k]]);
      } else {
        condlist := condlist + [tmplist];
      }
      assert conditions[..i + 1][..i] == conditions[..i];
    }
    assert conditions[..|conditions|] == conditions;
    result := AddGroups(text, condlist);
  }

  /** The translated comparison with one value holds exactly when the asked one fails. */
  lemma OneFails(c: Cond, v: Given, prefix: string, env: Env)
    ensures Holds(Comparison(FullName(c.prop, c.at, prefix), E.NegateOp(Asked(c.kind)), AsValue(v)), env) <==>
            !Relates(c.kind, env(FullName(c.prop, c.at, prefix)), AsValue(v))
  {
    E.NegatedMeans(E.Literal(c.prop, c.at, Asked(c.kind), v), prefix, env);
    hide FullName, AsValue, Less;
  }

  lemma GroupsOfMeans(t: Translated, prefix: string, env: Env)
    ensures var lits := HouList(t.parm, t.owner, t.op, t.values, prefix);
            AnyGroupHolds(GroupsOf(t, prefix), env) <==>
            if t.isOr then exists i :: 0 <= i < |lits| && Holds(lits[i], env)
            else forall i :: 0 <= i < |lits| ==> Holds(lits[i], env)
  {
    hide HouList, Holds;
    var lits := HouList(t.parm, t.owner, t.op, t.values, prefix);
    var groups := GroupsOf(t, prefix);
    if t.isOr {
      forall i | 0 <= i < |lits| ensures GroupHolds(groups[i], env) <==> Holds(lits[i], env) {
        assert groups[i] == [lits[i]] && groups[i][0] == lits[i];
      }
    } else {
      assert groups[0] == lits;
      assert AnyGroupHolds(groups, env) <==> GroupHolds(lits, env);
    }
  }

  /** The groups of a translated condition hold exactly when the source condition fails. */
  lemma TranslatedMeans(g: Guards, prefix: string, env: Env)
    requires Translate(g).Some?
    ensures AnyGroupHolds(GroupsOf(Translate(g).value, prefix), env) <==>
            Fails(g, Translate(g).value.typ, prefix, env)
  {
    var t := Translate(g).value;
    var c := Guard(g).value.1;
    var x := env(FullName(c.prop, c.at, prefix));
    var lits := HouList(t.parm, t.owner, t.op, t.values, prefix);
    GroupsOfMeans(t, prefix, env);
    forall i | 0 <= i < |lits| ensures Holds(lits[i], env) <==> !Relates(c.kind, x, AsValue(t.values[i])) {
      OneFails(c, t.values[i], prefix, env);
    }
    if c.kind.IsBool? {
      assert |lits| == 1 && AsValue(t.values[0]) == Num(if c.kind.b then 1.0 else 0.0);
    }
    hide GroupsOf, AnyGroupHolds, HouList, FullName, Holds, AsValue, Asked;
  }

  lemma AnyGroupHoldsAppends(a: seq<seq<Comparison>>, b: seq<seq<Comparison>>, env: Env)
    ensures AnyGroupHolds(a + b, env) <==> AnyGroupHolds(a, env) || AnyGroupHolds(b, env)
  {
    var s := a + b;
    if AnyGroupHolds(a, env) {
      var i :| 0 <= i < |a| && GroupHolds(a[i], env);
      assert s[i] == a[i];
    }
    if AnyGroupHolds(b, env) {
      var i :| 0 <= i < |b| && GroupHolds(b[i], env);
      assert s[|a| + i] == b[i];
    }
  }

  // --------------------------------------------------------- gathering by parameter

  datatype Entry = Entry(disable: seq<Translated>, hideWhen: seq<Translated>)

  type ParmConditions = map<string, Entry>

  /** A parameter named by an attribute entry, with the guards around it, outermost first. */
  datatype Occurrence = Occurrence(name: string, chain: seq<Guards>)

  function AttrOccurrences(chain: seq<Guards>, attrs: seq<Attr>): (r: seq<Occurrence>)
    ensures |r| == |attrs|
    ensures forall i :: 0 <= i < |r| ==> r[i] == Occurrence(attrs[i].name, chain + [attrs[i].guards])
  {
    seq(|attrs|, i requires 0 <= i < |attrs| => Occurrence(attrs[i].name, chain + [attrs[i].guards]))
  }

  function SplitOccurrences(outer: Guards, splits: seq<Split>): seq<Occurrence> {
    if splits == [] then []
    else
      var last := splits[|splits| - 1];
      SplitOccurrences(outer, splits[..|splits| - 1]) + AttrOccurrences([outer, last.guards], last.attrs)
  }

  function Occurrences(widgets: seq<Widget>): seq<Occurrence> {
    if widgets == [] then []
    else
      var w := widgets[|widgets| - 1];
      Occurrences(widgets[..|widgets| - 1])
      + AttrOccurrences([w.guards], w.attrs) + SplitOccurrences(w.guards, w.splits)
  }

  /** filter: the translated conditions of type t among the guards. */
  function Filtered(chain: seq<Guards>, t: Type): seq<Translated> {
    if chain == [] then []
    else
      var last := Translate(chain[|chain| - 1]);
      Filtered(chain[..|chain| - 1], t) + (if last.Some? && last.value.typ == t then [last.value] else [])
  }

  function Lookup(pc: ParmConditions, name: string, t: Type): seq<Translated> {
    if name !in pc then [] else if t == Disable then pc[name].disable else pc[name].hideWhen
  }

  method AddCondition(name: string, conditions: seq<Option<Translated>>, pc: ParmConditions)
    returns (r: ParmConditions)
    ensures forall n, t :: Lookup(r, n, t) == Lookup(pc, n, t) + (if n == name then OfType(conditions, t) else [])
  {
    hide OfType;
    assert forall s: seq<Translated> :: s + [] == s;
    r := pc;
    var disableCond := OfType(conditions, Disable);
    var hideCond := OfType(conditions, Hide);
    if disableCond != [] {
      if name !in r {
        r := r[name := Entry([], [])];
      }
      r := r[name := r[name].(disable := r[name].disable + disableCond)];
    }
    if hideCond != [] {
      if name !in r {
        r := r[name := Entry([], [])];
      }
      r := r[name := r[name].(hideWhen := r[name].hideWhen + hideCond)];
    }
    forall n, t
      ensures Lookup(r, n, t) == Lookup(pc, n, t) + (if n == name then OfType(conditions, t) else [])
    {
      assert t == Disable || t == Hide;
    }
  }

  function OfType(conditions: seq<Option<Translated>>, t: Type): seq<Translated> {
    if conditions == [] then []
    else
      var last := conditions[|conditions| - 1];
      OfType(conditions[..|conditions| - 1], t) + (if last.Some? && last.value.typ == t then [last.value] else [])
  }

  /** What the occurrences of name contribute, in order. */
  function Gathered(occs: seq<Occurrence>, known: set<string>, name: string, t: Type): seq<Translated> {
    if occs == [] then []
    else
      Gathered(occs[..|occs| - 1], known, name, t) + Contribution(occs[|occs| - 1], known, name, t)
  }

  function Contribution(o: Occurrence, known: set<string>, name: string, t: Type): seq<Translated> {
    if o.name == name && name != "" && name in known then Filtered(o.chain, t) else []
  }

  /** The conditions gathered so far are those of the occurrences visited so far. */
  ghost predicate Holding(pc: ParmConditions, done: seq<Occurrence>, known: set<string>) {
    forall n, t :: Lookup(pc, n, t) == Gathered(done, known, n, t)
  }

  function TranslateAll(chain: seq<Guards>): (r: seq<Option<Translated>>)
    ensures |r| == |chain| && forall i :: 0 <= i < |r| ==> r[i] == Translate(chain[i])
  {
    seq(|chain|, i requires 0 <= i < |chain| => Translate(chain[i]))
  }

  lemma {:induction false} OfTypeIsFiltered(chain: seq<Guards>, t: Type)
    ensures OfType(TranslateAll(chain), t) == Filtered(chain, t)
  {
    if chain != [] {
      OfTypeIsFiltered(chain[..|chain| - 1], t);
      assert TranslateAll(chain)[..|chain| - 1] == TranslateAll(chain[..|chain| - 1]);
    }
  }

  /** One more occurrence of a known parameter. */
  lemma HoldingOneMore(pc: ParmConditions, before: ParmConditions, done: seq<Occurrence>, o: Occurrence,
                       conditions: seq<Option<Translated>>, known: set<string>)
    requires Holding(before, done, known) && conditions == TranslateAll(o.chain)
    requires o.name != "" && o.name in known
    requires forall n, t :: Lookup(pc, n, t) ==
               Lookup(before, n, t) + (if n == o.name then OfType(conditions, t) else [])
    ensures Holding(pc, done + [o], known)
  {
    hide Lookup, OfType, Filtered;
    forall n, t ensures Lookup(pc, n, t) == Gathered(done + [o], known, n, t) {
      assert (done + [o])[..|done|] == done;
      OfTypeIsFiltered(o.chain, t);
    }
  }

  /** An entry without a name, or for an unknown parameter, contributes nothing. */
  lemma HoldingSkips(pc: ParmConditions, done: seq<Occurrence>, o: Occurrence, known: set<string>)
    requires Holding(pc, done, known) && (o.name == "" || o.name !in known)
    ensures Holding(pc, done + [o], known)
  {
    hide Lookup, Filtered;
    forall n, t ensures Lookup(pc, n, t) == Gathered(done + [o], known, n, t) {
      assert (done + [o])[..|done|] == done;
      assert Gathered(done, known, n, t) + [] == Gathered(done, known, n, t);
    }
  }

  method AddJSONItemConditions(known: set<string>, attrs: seq<Attr>, conditions: seq<Option<Translated>>,
                               pc: ParmConditions, ghost chain: seq<Guards>, ghost done: seq<Occurrence>)
    returns (r: ParmConditions)
    requires conditions == TranslateAll(chain) && Holding(pc, done, known)
    ensures Holding(r, done + AttrOccurrences(chain, attrs), known)
  {
    hide Holding, Translate;
    r := pc;
    ghost var occs := AttrOccurrences(chain, attrs);
    assert done + occs[..0] == done;
    for i := 0 to |attrs|
      invariant Holding(r, done + occs[..i], known)
    {
      assert done + occs[..i] + [occs[i]] == done + occs[..i + 1];
      var parmName := attrs[i].name;
      if parmName != "" && parmName in known {
        var acond := GetCondition(attrs[i].guards);
        assert TranslateAll(occs[i].chain) == conditions + [acond];
        var before := r;
        r := AddCondition(parmName, conditions + [acond], r);
        HoldingOneMore(r, before, done + occs[..i], occs[i], conditions + [acond], known);
      } else {
        HoldingSkips(r, done + occs[..i], occs[i], known);
      }
    }
    assert occs[..|occs|] == occs;
  }

  method GetJSONParmConditions(known: set<string>, widgets: seq<Widget>) returns (pc: ParmConditions)
    ensures Holding(pc, Occurrences(widgets), known)
  {
    pc := map[];
    assert Holding(pc, Occurrences([]), known);
    assert widgets[..0] == [];
    for i := 0 to |widgets|
      invariant Holding(pc, Occurrences(widgets[..i]), known)
    {
      pc := AddWidget(known, widgets[i], pc, Occurrences(widgets[..i]));
      assert widgets[..i + 1][..i] == widgets[..i];
    }
    assert widgets[..|widgets|] == widgets;
  }

  /** The body of the loop over the widgets: the widget's own attributes, then its splits. */
  method AddWidget(known: set<string>, w: Widget, pc: ParmConditions, ghost done: seq<Occurrence>)
    returns (r: ParmConditions)
    requires Holding(pc, done, known)
    ensures Holding(r, done + AttrOccurrences([w.guards], w.attrs) + SplitOccurrences(w.guards, w.splits), known)
  {
    hide Holding, Translate;
    var wcond := GetCondition(w.guards);
    assert TranslateAll([w.guards]) == [wcond];
    r := AddJSONItemConditions(known, w.attrs, [wcond], pc, [w.guards], done);
    ghost var mine := done + AttrOccurrences([w.guards], w.attrs);
    assert mine + SplitOccurrences(w.guards, w.splits[..0]) == mine;
    for k := 0 to |w.splits|
      invariant Holding(r, mine + SplitOccurrences(w.guards, w.splits[..k]), known)
    {
      var sp := w.splits[k];
      ghost var chain := [w.guards, sp.guards];
      ghost var sofar := SplitOccurrences(w.guards, w.splits[..k]);
      var scond := GetCondition(sp.guards);
      assert TranslateAll(chain) == [wcond, scond];
      r := AddJSONItemConditions(known, sp.attrs, [wcond, scond], r, chain, mine + sofar);
      assert w.splits[..k + 1][..k] == w.splits[..k];
      ConcatAssociates(mine, sofar, AttrOccurrences(chain, sp.attrs));
    }
    assert w.splits[..|w.splits|] == w.splits;
  }

  // ------------------------------------------------------------------ main results

  /** Some guard around some attribute entry for the parameter fails. */
  ghost predicate SomeGuardFails(occs: seq<Occurrence>, name: string, t: Type, prefix: string, env: Env) {
    exists i, k :: 0 <= i < |occs| && occs[i].name == name && 0 <= k < |occs[i].chain|
                   && Fails(occs[i].chain[k], t, prefix, env)
  }

  /** Some show condition around some attribute entry for the parameter fails. */
  ghost predicate SomeShowFails(occs: seq<Occurrence>, name: string, prefix: string, env: Env) {
    exists i, k :: 0 <= i < |occs| && occs[i].name == name && 0 <= k < |occs[i].chain|
                   && ShowFails(occs[i].chain[k], prefix, env)
  }

  ghost predicate SomeShadowedShowFails(occs: seq<Occurrence>, name: string, prefix: string, env: Env) {
    exists i, k :: 0 <= i < |occs| && occs[i].name == name && 0 <= k < |occs[i].chain|
                   && ShadowedShowFails(occs[i].chain[k], prefix, env)
  }

  lemma SomeShowFailsInForceOrShadowed(occs: seq<Occurrence>, name: string, prefix: string, env: Env)
    ensures SomeShowFails(occs, name, prefix, env) <==>
            SomeGuardFails(occs, name, Hide, prefix, env) || SomeShadowedShowFails(occs, name, prefix, env)
  {
    hide ShowFails, ShadowedShowFails, Fails;
    forall i, k | 0 <= i < |occs| && 0 <= k < |occs[i].chain|
      ensures ShowFails(occs[i].chain[k], prefix, env) <==>
              Fails(occs[i].chain[k], Hide, prefix, env) || ShadowedShowFails(occs[i].chain[k], prefix, env)
    {
      ShowFailsInForceOrShadowed(occs[i].chain[k], prefix, env);
    }
  }

  // ------------------------------------------------------ around an attribute, by the widget tree

  /** The occurrence of one of the widget's own attributes. */
  ghost predicate IsOwn(w: Widget, o: Occurrence) {
    exists a :: 0 <= a < |w.attrs| && o == Occurrence(w.attrs[a].name, [w.guards, w.attrs[a].guards])
  }

  /** The occurrence of an attribute of one of the widget's splits. */
  ghost predicate IsInSplit(w: Widget, o: Occurrence) {
    exists j, a :: 0 <= j < |w.splits| && 0 <= a < |w.splits[j].attrs|
                   && o == Occurrence(w.splits[j].attrs[a].name,
                                      [w.guards, w.splits[j].guards, w.splits[j].attrs[a].guards])
  }

  lemma AttrOccurrencesMean(chain: seq<Guards>, attrs: seq<Attr>, o: Occurrence)
    ensures o in AttrOccurrences(chain, attrs) <==>
            exists a :: 0 <= a < |attrs| && o == Occurrence(attrs[a].name, chain + [attrs[a].guards])
  {
    if o in AttrOccurrences(chain, attrs) {
      var a :| 0 <= a < |attrs| && AttrOccurrences(chain, attrs)[a] == o;
    }
    if a :| 0 <= a < |attrs| && o == Occurrence(attrs[a].name, chain + [attrs[a].guards]) {
      assert AttrOccurrences(chain, attrs)[a] == o;
    }
  }

  lemma {:induction false} SplitOccurrencesMean(outer: Guards, splits: seq<Split>, o: Occurrence)
    ensures o in SplitOccurrences(outer, splits) <==>
            exists j, a :: 0 <= j < |splits| && 0 <= a < |splits[j].attrs|
                           && o == Occurrence(splits[j].attrs[a].name,
                                              [outer, splits[j].guards, splits[j].attrs[a].guards])
  {
    if splits != [] {
      hide AttrOccurrences;
      var n := |splits| - 1;
      SplitOccurrencesMean(outer, splits[..n], o);
      AttrOccurrencesMean([outer, splits[n].guards], splits[n].attrs, o);
      assert forall a :: 0 <= a < |splits[n].attrs| ==>
               [outer, splits[n].guards] + [splits[n].attrs[a].guards]
               == [outer, splits[n].guards, splits[n].attrs[a].guards];
    }
  }

  lemma OccurrencesOfWidget(w: Widget, o: Occurrence)
    ensures o in AttrOccurrences([w.guards], w.attrs) <==> IsOwn(w, o)
    ensures o in SplitOccurrences(w.guards, w.splits) <==> IsInSplit(w, o)
  {
    AttrOccurrencesMean([w.guards], w.attrs, o);
    SplitOccurrencesMean(w.guards, w.splits, o);
    hide AttrOccurrences, SplitOccurrences;
    assert forall a :: 0 <= a < |w.attrs| ==> [w.guards] + [w.attrs[a].guards] == [w.guards, w.attrs[a].guards];
  }

  ghost predicate OfSomeWidget(ws: seq<Widget>, o: Occurrence) {
    exists i :: 0 <= i < |ws| && (IsOwn(ws[i], o) || IsInSplit(ws[i], o))
  }

  lemma OfLastWidget(ws: seq<Widget>, o: Occurrence)
    requires ws != []
    ensures var n := |ws| - 1;
            OfSomeWidget(ws, o) <==> OfSomeWidget(ws[..n], o) || IsOwn(ws[n], o) || IsInSplit(ws[n], o)
  {
    hide IsOwn, IsInSplit;
    var n := |ws| - 1;
    assert forall i :: 0 <= i < n ==> ws[..n][i] == ws[i];
  }

  /** The occurrences are those of every widget's own attributes and of the attributes of its splits. */
  lemma {:induction false} OccurrencesMean(ws: seq<Widget>, o: Occurrence)
    ensures o in Occurrences(ws) <==> OfSomeWidget(ws, o)
  {
    if ws != [] {
      hide AttrOccurrences, SplitOccurrences, IsOwn, IsInSplit, OfSomeWidget;
      var n := |ws| - 1;
      OccurrencesMean(ws[..n], o);
      OfLastWidget(ws, o);
      OccurrencesOfWidget(ws[n], o);
    }
  }

  /** Some widget, or attribute of its own, that is or carries the named attribute has the property. */
  ghost predicate AroundOwn(ws: seq<Widget>, name: string, p: Guards -> bool) {
    exists i, a :: 0 <= i < |ws| && 0 <= a < |ws[i].attrs| && ws[i].attrs[a].name == name
                   && (p(ws[i].guards) || p(ws[i].attrs[a].guards))
  }

  /** The same for an attribute of a split: the widget, the split or the attribute has the property. */
  ghost predicate AroundInSplit(ws: seq<Widget>, name: string, p: Guards -> bool) {
    exists i, j, a :: 0 <= i < |ws| && 0 <= j < |ws[i].splits| && 0 <= a < |ws[i].splits[j].attrs|
                      && ws[i].splits[j].attrs[a].name == name
                      && (p(ws[i].guards) || p(ws[i].splits[j].guards) || p(ws[i].splits[j].attrs[a].guards))
  }

  ghost predicate Around(ws: seq<Widget>, name: string, p: Guards -> bool) {
    AroundOwn(ws, name, p) || AroundInSplit(ws, name, p)
  }

  ghost predicate InSomeChain(occs: seq<Occurrence>, name: string, p: Guards -> bool) {
    exists i, k :: 0 <= i < |occs| && occs[i].name == name && 0 <= k < |occs[i].chain| && p(occs[i].chain[k])
  }

  lemma ChainIsAround(ws: seq<Widget>, name: string, p: Guards -> bool)
    requires InSomeChain(Occurrences(ws), name, p)
    ensures Around(ws, name, p)
  {
    var occs := Occurrences(ws);
    var i, k :| 0 <= i < |occs| && occs[i].name == name && 0 <= k < |occs[i].chain| && p(occs[i].chain[k]);
    var o := occs[i];
    OccurrencesMean(ws, o);
    hide Occurrences;
    var w :| 0 <= w < |ws| && (IsOwn(ws[w], o) || IsInSplit(ws[w], o));
    if IsOwn(ws[w], o) {
      var a :| 0 <= a < |ws[w].attrs| && o == Occurrence(ws[w].attrs[a].name, [ws[w].guards, ws[w].attrs[a].guards]);
      assert p(ws[w].guards) || p(ws[w].attrs[a].guards);
      assert AroundOwn(ws, name, p);
    } else {
      var j, a :| 0 <= j < |ws[w].splits| && 0 <= a < |ws[w].splits[j].attrs|
                  && o == Occurrence(ws[w].splits[j].attrs[a].name,
                                     [ws[w].guards, ws[w].splits[j].guards, ws[w].splits[j].attrs[a].guards]);
      assert p(ws[w].guards) || p(ws[w].splits[j].guards) || p(ws[w].splits[j].attrs[a].guards);
      assert AroundInSplit(ws, name, p);
    }
  }

  lemma AroundIsChain(ws: seq<Widget>, name: string, p: Guards -> bool)
    requires Around(ws, name, p)
    ensures InSomeChain(Occurrences(ws), name, p)
  {
    hide Occurrences;
    if AroundOwn(ws, name, p) {
      var i, a :| 0 <= i < |ws| && 0 <= a < |ws[i].attrs| && ws[i].attrs[a].name == name
                  && (p(ws[i].guards) || p(ws[i].attrs[a].guards));
      var o := Occurrence(name, [ws[i].guards, ws[i].attrs[a].guards]);
      assert IsOwn(ws[i], o);
      OccurrencesMean(ws, o);
      MemberIsInChain(Occurrences(ws), o, p, if p(ws[i].guards) then 0 else 1);
    } else {
      var i, j, a :| 0 <= i < |ws| && 0 <= j < |ws[i].splits| && 0 <= a < |ws[i].splits[j].attrs|
                     && ws[i].splits[j].attrs[a].name == name
                     && (p(ws[i].guards) || p(ws[i].splits[j].guards) || p(ws[i].splits[j].attrs[a].guards));
      var o := Occurrence(name, [ws[i].guards, ws[i].splits[j].guards, ws[i].splits[j].attrs[a].guards]);
      assert IsInSplit(ws[i], o);
      OccurrencesMean(ws, o);
      MemberIsInChain(Occurrences(ws), o, p,
                      if p(ws[i].guards) then 0 else if p(ws[i].splits[j].guards) then 1 else 2);
    }
  }

  lemma MemberIsInChain(occs: seq<Occurrence>, o: Occurrence, p: Guards -> bool, k: nat)
    requires o in occs && k < |o.chain| && p(o.chain[k])
    ensures InSomeChain(occs, o.name, p)
  {
    var i :| 0 <= i < |occs| && occs[i] == o;
    assert p(occs[i].chain[k]);
  }

  /** Some enclosing condition of the type is in force and fails, by widget, split and attribute. */
  ghost predicate EnclosingFails(ws: seq<Widget>, name: string, t: Type, prefix: string, env: Env) {
    Around(ws, name, g => Fails(g, t, prefix, env))
  }

  ghost predicate EnclosingShowFails(ws: seq<Widget>, name: string, prefix: string, env: Env) {
    Around(ws, name, g => ShowFails(g, prefix, env))
  }

  ghost predicate EnclosingShadowedShowFails(ws: seq<Widget>, name: string, prefix: string, env: Env) {
    Around(ws, name, g => ShadowedShowFails(g, prefix, env))
  }

  lemma ChainIffAround(ws: seq<Widget>, name: string, p: Guards -> bool)
    ensures InSomeChain(Occurrences(ws), name, p) <==> Around(ws, name, p)
  {
    hide Around, InSomeChain;
    if InSomeChain(Occurrences(ws), name, p) { ChainIsAround(ws, name, p); }
    if Around(ws, name, p) { AroundIsChain(ws, name, p); }
  }

  lemma EnclosingIffSome(ws: seq<Widget>, name: string, t: Type, prefix: string, env: Env)
    ensures EnclosingFails(ws, name, t, prefix, env) <==> SomeGuardFails(Occurrences(ws), name, t, prefix, env)
  {
    var p: Guards -> bool := g => Fails(g, t, prefix, env);
    hide Occurrences, Around;
    ChainIffAround(ws, name, p);
    assert InSomeChain(Occurrences(ws), name, p) <==> SomeGuardFails(Occurrences(ws), name, t, prefix, env);
  }

  lemma EnclosingShowIffSome(ws: seq<Widget>, name: string, prefix: string, env: Env)
    ensures EnclosingShowFails(ws, name, prefix, env) <==> SomeShowFails(Occurrences(ws), name, prefix, env)
    ensures EnclosingShadowedShowFails(ws, name, prefix, env) <==>
            SomeShadowedShowFails(Occurrences(ws), name, prefix, env)
  {
    var p: Guards -> bool := g => ShowFails(g, prefix, env);
    var q: Guards -> bool := g => ShadowedShowFails(g, prefix, env);
    hide Occurrences, Around;
    ChainIffAround(ws, name, p);
    ChainIffAround(ws, name, q);
    assert InSomeChain(Occurrences(ws), name, p) <==> SomeShowFails(Occurrences(ws), name, prefix, env);
    assert InSomeChain(Occurrences(ws), name, q) <==> SomeShadowedShowFails(Occurrences(ws), name, prefix, env);
  }

  // ------------------------------------------------------------ what is gathered means

  ghost predicate SomeHolds(ts: seq<Translated>, prefix: string, env: Env) {
    exists t :: t in ts && AnyGroupHolds(GroupsOf(t, prefix), env)
  }

  lemma SomeHoldsLast(ts: seq<Translated>, prefix: string, env: Env)
    requires ts != []
    ensures SomeHolds(ts, prefix, env) <==>
            SomeHolds(ts[..|ts| - 1], prefix, env) || AnyGroupHolds(GroupsOf(ts[|ts| - 1], prefix), env)
  {
    hide GroupsOf, AnyGroupHolds;
    assert ts == ts[..|ts| - 1] + [ts[|ts| - 1]];
  }

  lemma {:induction false} AllGroupsMeans(ts: seq<Translated>, prefix: string, env: Env)
    ensures AnyGroupHolds(AllGroups(ts, prefix), env) <==> SomeHolds(ts, prefix, env)
  {
    if ts != [] {
      hide GroupsOf, AnyGroupHolds, SomeHolds;
      var n := |ts| - 1;
      AllGroupsMeans(ts[..n], prefix, env);
      AnyGroupHoldsAppends(AllGroups(ts[..n], prefix), GroupsOf(ts[n], prefix), env);
      SomeHoldsLast(ts, prefix, env);
    }
  }

  ghost predicate Yields(chain: seq<Guards>, x: Translated) {
    exists k :: 0 <= k < |chain| && Translate(chain[k]) == Some(x)
  }

  lemma YieldsLast(chain: seq<Guards>, x: Translated)
    requires chain != []
    ensures Yields(chain, x) <==> Yields(chain[..|chain| - 1], x) || Translate(chain[|chain| - 1]) == Some(x)
  {
    hide Translate;
    var n := |chain| - 1;
    if Yields(chain[..n], x) {
      var k :| 0 <= k < n && Translate(chain[..n][k]) == Some(x);
      assert chain[k] == chain[..n][k];
    }
    if Yields(chain, x) {
      var k :| 0 <= k < |chain| && Translate(chain[k]) == Some(x);
      if k < n {
        assert chain[..n][k] == chain[k];
      }
    }
  }

  lemma {:induction false} FilteredMembers(chain: seq<Guards>, t: Type, x: Translated)
    ensures x in Filtered(chain, t) <==> x.typ == t && Yields(chain, x)
  {
    if chain != [] {
      hide Translate, Yields;
      FilteredMembers(chain[..|chain| - 1], t, x);
      YieldsLast(chain, x);
    }
  }

  ghost predicate Contributed(occs: seq<Occurrence>, name: string, t: Type, x: Translated) {
    exists i :: 0 <= i < |occs| && occs[i].name == name && x in Filtered(occs[i].chain, t)
  }

  lemma ContributedLast(occs: seq<Occurrence>, name: string, t: Type, x: Translated)
    requires occs != []
    ensures var n := |occs| - 1;
            Contributed(occs, name, t, x) <==>
            Contributed(occs[..n], name, t, x) || (occs[n].name == name && x in Filtered(occs[n].chain, t))
  {
    hide Filtered;
    var n := |occs| - 1;
    if Contributed(occs[..n], name, t, x) {
      var i :| 0 <= i < n && occs[..n][i].name == name && x in Filtered(occs[..n][i].chain, t);
      assert occs[i] == occs[..n][i];
    }
    if Contributed(occs, name, t, x) {
      var i :| 0 <= i < |occs| && occs[i].name == name && x in Filtered(occs[i].chain, t);
      if i < n {
        assert occs[..n][i] == occs[i];
      }
    }
  }

  lemma {:induction false} GatheredMembers(occs: seq<Occurrence>, known: set<string>, name: string, t: Type,
                                           x: Translated)
    requires name != "" && name in known
    ensures x in Gathered(occs, known, name, t) <==> Contributed(occs, name, t, x)
  {
    if occs != [] {
      hide Filtered, Contributed;
      GatheredMembers(occs[..|occs| - 1], known, name, t, x);
      ContributedLast(occs, name, t, x);
    }
  }

  lemma GatheredMeans(occs: seq<Occurrence>, known: set<string>, name: string, t: Type, prefix: string, env: Env)
    requires name != "" && name in known
    ensures AnyGroupHolds(AllGroups(Gathered(occs, known, name, t), prefix), env) <==>
            SomeGuardFails(occs, name, t, prefix, env)
  {
    hide Filtered, Gathered, AllGroups, GroupsOf, Translate, AnyGroupHolds;
    var ts := Gathered(occs, known, name, t);
    AllGroupsMeans(ts, prefix, env);
    if AnyGroupHolds(AllGroups(ts, prefix), env) {
      var x :| x in ts && AnyGroupHolds(GroupsOf(x, prefix), env);
      GatheredMembers(occs, known, name, t, x);
      var i :| 0 <= i < |occs| && occs[i].name == name && x in Filtered(occs[i].chain, t);
      FilteredMembers(occs[i].chain, t, x);
      var k :| 0 <= k < |occs[i].chain| && Translate(occs[i].chain[k]) == Some(x);
      TranslatedMeans(occs[i].chain[k], prefix, env);
    }
    if SomeGuardFails(occs, name, t, prefix, env) {
      var i, k :| 0 <= i < |occs| && occs[i].name == name && 0 <= k < |occs[i].chain|
                  && Fails(occs[i].chain[k], t, prefix, env);
      FailingIsTranslated(occs[i].chain[k], t, prefix, env);
      var x := Translate(occs[i].chain[k]).value;
      FilteredMembers(occs[i].chain, t, x);
      GatheredMembers(occs, known, name, t, x);
      TranslatedMeans(occs[i].chain[k], prefix, env);
    }
  }

  lemma FailingIsTranslated(g: Guards, t: Type, prefix: string, env: Env)
    requires Fails(g, t, prefix, env)
    ensures Translate(g).Some? && Translate(g).value.typ == t
  {
  }

  lemma AddNothing(text: Text, prefix: string)
    ensures AddGroups(text, AllGroups([], prefix)) == text
  {
  }

  method AdjustParmConditionals(disableText: Text, hideText: Text, name: string, pc: ParmConditions,
                                enabled: seq<seq<E.CondDict>>, prefix: string)
    returns (disableWhen: Text, hideWhen: Text)
    requires E.Separate(enabled)
    modifies set i, j | 0 <= i < |enabled| && 0 <= j < |enabled[i]| :: enabled[i][j]
    ensures disableWhen == AdjustedDisable(disableText, Lookup(pc, name, Disable), old(E.Snapshot(enabled)), prefix)
    ensures hideWhen == AddGroups(hideText, AllGroups(Lookup(pc, name, Hide), prefix))
  {
    hide AddGroups, AllGroups, E.Compile;
    AddNothing(disableText, prefix);
    AddNothing(hideText, prefix);
    disableWhen, hideWhen := disableText, hideText;
    if name in pc {
      if pc[name].disable != [] {
        disableWhen := AddHouConditional(disableWhen, pc[name].disable, prefix);
      }
      if pc[name].hideWhen != [] {
        hideWhen := AddHouConditional(hideWhen, pc[name].hideWhen, prefix);
      }
    }
    if enabled != [] {
      disableWhen := E.AddHouConditional2(disableWhen, enabled, prefix);
    }
  }

  function AdjustedDisable(text: Text, ts: seq<Translated>, enabled: seq<seq<E.Literal>>, prefix: string): Text {
    var t := AddGroups(text, AllGroups(ts, prefix));
    if enabled != [] then E.Compile(t, enabled, prefix) else t
  }

  /**
   The compiled "disable when" of a parameter holds exactly when it did before, or some
   enclosing active condition fails, or the enabled condition of its own guide is false.
   */
  lemma DisableWhenMeans(gs: seq<seq<Comparison>>, known: set<string>, widgets: seq<Widget>, pc: ParmConditions,
                         name: string, enabled: seq<seq<E.Literal>>, prefix: string, env: Env)
    requires Holding(pc, Occurrences(widgets), known) && name != "" && name in known
    requires E.WellFormed(enabled)
    ensures Means(AdjustedDisable(Render(gs), Lookup(pc, name, Disable), enabled, prefix), env) <==>
            || Means(Render(gs), env)
            || EnclosingFails(widgets, name, Disable, prefix, env)
            || (enabled != [] && !E.Enabled(enabled, prefix, env))
  {
    var more := AllGroups(Lookup(pc, name, Disable), prefix);
    EnclosingIffSome(widgets, name, Disable, prefix, env);
    hide EnclosingFails, SomeGuardFails, Occurrences;
    GatheredMeans(Occurrences(widgets), known, name, Disable, prefix, env);
    assert Lookup(pc, name, Disable) == Gathered(Occurrences(widgets), known, name, Disable);
    AddGroupsMeans(gs, more, env);
    ReadOfRendered(gs);
    if enabled != [] {
      E.CompileMeans(gs + Missing(Render(gs), more), enabled, prefix, env);
    }
  }

  /**
   The compiled "hide when" holds exactly when it did before or some enclosing show condition in
   force fails. It therefore keeps its promise, to hold whenever any enclosing show condition
   fails, exactly unless the only failing ones are shadowed on their items.
   */
  lemma HideWhenMeans(gs: seq<seq<Comparison>>, known: set<string>, widgets: seq<Widget>, pc: ParmConditions,
                      name: string, prefix: string, env: Env)
    requires Holding(pc, Occurrences(widgets), known) && name != "" && name in known
    ensures var before := Means(Render(gs), env);
            var after := Means(AddGroups(Render(gs), AllGroups(Lookup(pc, name, Hide), prefix)), env);
            && (after <==> before || EnclosingFails(widgets, name, Hide, prefix, env))
            && ((after <==> before || EnclosingShowFails(widgets, name, prefix, env)) <==>
                  (EnclosingShadowedShowFails(widgets, name, prefix, env) ==>
                     before || EnclosingFails(widgets, name, Hide, prefix, env)))
  {
    EnclosingIffSome(widgets, name, Hide, prefix, env);
    EnclosingShowIffSome(widgets, name, prefix, env);
    SomeShowFailsInForceOrShadowed(Occurrences(widgets), name, prefix, env);
    hide EnclosingFails, EnclosingShowFails, EnclosingShadowedShowFails, Occurrences;
    hide SomeGuardFails, SomeShowFails, SomeShadowedShowFails;
    GatheredMeans(Occurrences(widgets), known, name, Hide, prefix, env);
    assert Lookup(pc, name, Hide) == Gathered(Occurrences(widgets), known, name, Hide);
    AddGroupsMeans(gs, AllGroups(Lookup(pc, name, Hide), prefix), env);
    ReadOfRendered(gs);
  }

  /** A show condition beside any active one is lost: it fails, and the parameter is not hidden. */
  lemma ShadowedShowIsLost(active: Cond, show: Cond, known: set<string>, pc: ParmConditions,
                           name: string, prefix: string, env: Env)
    requires name != "" && name in known && CondFails(Some(show), prefix, env)
    requires Holding(pc, Occurrences([ShowBesideActive(active, show, name)]), known)
    ensures EnclosingShowFails([ShowBesideActive(active, show, name)], name, prefix, env)
    ensures !Means(AddGroups(Render([]), AllGroups(Lookup(pc, name, Hide), prefix)), env)
  {
    var w := ShowBesideActive(active, show, name);
    var p: Guards -> bool := g => ShowFails(g, prefix, env);
    assert [w][0].attrs[0].name == name && p([w][0].guards);
    assert AroundOwn([w], name, p);
    assert !EnclosingFails([w], name, Hide, prefix, env);
    assert Render([]) == [] && !Means([], env);
    hide *;
    HideWhenMeans([], known, [w], pc, name, prefix, env);
  }

  function ShowBesideActive(active: Cond, show: Cond, name: string): Widget {
    Widget(Guards(Some(active), Some(show), None), [Attr(name, Guards(None, None, None))], [])
  }
}
