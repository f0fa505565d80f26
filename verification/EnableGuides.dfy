/**
 The parser of an "enable" guide: clauses between semicolons, comparisons between commas.
 What it recognises goes to the compiler in EnableConditions.dfy.
 */
module EnableGuides {
  import opened Wrappers
  import opened Conditionals
  import opened GuideTexts
  import E = EnableConditions
  import U = UiGuides

  /** Reads the text of a value, without blanks at its ends, as a number or else as a string. */
  type ValueReader = string -> Value

  // ------------------------------------------------------------- one comparison

  /** An alternative of the operator expression starts here. */
  predicate IsSignAt(s: string, i: nat)
    requires i < |s|
  {
    s[i] in {'=', '<', '>'} || (s[i] == '!' && i + 1 < |s| && s[i + 1] == '=')
  }

  function FindSign(s: string): (i: nat)
    ensures i <= |s| && (i < |s| ==> IsSignAt(s, i)) && forall j :: 0 <= j < i ==> !IsSignAt(s, j)
  {
    FindSignFrom(s, 0)
  }

  function FindSignFrom(s: string, from: nat): (i: nat)
    requires from <= |s|
    ensures from <= i <= |s| && (i < |s| ==> IsSignAt(s, i)) && forall j :: from <= j < i ==> !IsSignAt(s, j)
    decreases |s| - from
  {
    if from == |s| || IsSignAt(s, from) then from else FindSignFrom(s, from + 1)
  }

  /** The first alternative that matches: one character is tried before two. */
  function SignAt(s: string, i: nat): (sign: string)
    requires i < |s| && IsSignAt(s, i)
    ensures i + |sign| <= |s|
  {
    if s[i] == '!' then "!=" else [s[i]]
  }

  /** Failed is a failing assertion, NoCondition a text without an operator. */
  datatype Parsed = Failed | NoCondition | Condition(l: E.Literal)

  function Recognised(owner: string, text: string, read: ValueReader): Parsed {
    var i := FindSign(text);
    if i == |text| then NoCondition
    else
      var sign := SignAt(text, i);
      var op := if sign == "=" then "==" else sign;
      Condition(E.Literal(Strip(text[..i]), owner, op, GivenValue(read(Strip(text[i + |sign|..])))))
  }

  function ParseCondition(value: string, read: ValueReader): Parsed {
    var vlist := SplitDots(Strip(value));
    if |vlist| >= 3 then Failed
    else if |vlist| == 2 then Recognised(vlist[0], vlist[1], read)
    else Recognised("", vlist[0], read)
  }

  // ---------------------------------------------------------------- the guide

  /** The comparisons recognised in one clause. */
  function AndList(ands: seq<string>, read: ValueReader): Option<seq<E.Literal>> {
    if ands == [] then Some([])
    else
      var n := |ands| - 1;
      match (AndList(ands[..n], read), ParseCondition(ands[n], read))
      case (None, _) => None
      case (_, Failed) => None
      case (p, NoCondition) => p
      case (Some(ls), Condition(l)) => Some(ls + [l])
  }

  /** The clauses in which a comparison was recognised. */
  function OrList(ors: seq<string>, read: ValueReader): Option<seq<seq<E.Literal>>> {
    if ors == [] then Some([])
    else
      var n := |ors| - 1;
      match (OrList(ors[..n], read), AndList(Split(ors[n], ','), read))
      case (None, _) => None
      case (_, None) => None
      case (Some(cs), Some(c)) => Some(if c == [] then cs else cs + [c])
  }

  function Enable(value: string, read: ValueReader): Option<seq<seq<E.Literal>>> {
    OrList(Split(U.Remove(U.Remove(Strip(value), '('), ')'), ';'), read)
  }

  lemma {:induction false} AndFailureStays(ands: seq<string>, n: nat, read: ValueReader)
    requires n <= |ands| && AndList(ands[..n], read) == None
    ensures AndList(ands, read) == None
  {
    if n < |ands| {
      assert ands[..|ands| - 1][..n] == ands[..n];
      AndFailureStays(ands[..|ands| - 1], n, read);
    } else {
      assert ands[..n] == ands;
    }
  }

  lemma {:induction false} OrFailureStays(ors: seq<string>, n: nat, read: ValueReader)
    requires n <= |ors| && OrList(ors[..n], read) == None
    ensures OrList(ors, read) == None
  {
    if n < |ors| {
      assert ors[..|ors| - 1][..n] == ors[..n];
      OrFailureStays(ors[..|ors| - 1], n, read);
    } else {
      assert ors[..n] == ors;
    }
  }

  /** The inner loop: one clause. */
  method ParseClause(orval: string, read: ValueReader) returns (r: Option<seq<E.Literal>>)
    ensures r == AndList(Split(orval, ','), read)
  {
    hide ParseCondition;
    var ands := Split(orval, ',');
    var andcondlist: seq<E.Literal> := [];
    for i := 0 to |ands|
      invariant AndList(ands[..i], read) == Some(andcondlist)
    {
      assert ands[..i + 1][..i] == ands[..i];
      match ParseCondition(ands[i], read)
      case Failed =>
        AndFailureStays(ands, i + 1, read);
        return None;
      case NoCondition =>
      case Condition(l) =>
        andcondlist := andcondlist + [l];
    }
    assert ands[..|ands|] == ands;
    r := Some(andcondlist);
  }

  /** None when an assertion of the program fails. */
  method ParseEnable(value: string, read: ValueReader) returns (r: Option<seq<seq<E.Literal>>>)
    ensures r == Enable(value, read)
  {
    hide AndList;
    var text := Strip(value);
    text := U.Remove(text, '(');
    text := U.Remove(text, ')');
    var ors := Split(text, ';');
    var orcondlist: seq<seq<E.Literal>> := [];
    for i := 0 to |ors|
      invariant OrList(ors[..i], read) == Some(orcondlist)
    {
      assert ors[..i + 1][..i] == ors[..i];
      var clause := ParseClause(ors[i], read);
      if clause == None {
        OrFailureStays(ors, i + 1, read);
        return None;
      }
      if clause.value != [] {
        orcondlist := orcondlist + [clause.value];
      }
    }
    assert ors[..|ors|] == ors;
    r := Some(orcondlist);
  }

  // -------------------------------------------------- what every text gives

  /** No text ever yields "<=" or ">=": the one-character alternative matches first. */
  predicate Recognisable(l: E.Literal) {
    l.op in {"==", "!=", "<", ">"}
  }

  predicate RecognisableClause(clause: seq<E.Literal>) {
    forall j :: 0 <= j < |clause| ==> Recognisable(clause[j])
  }

  lemma ParsedIsRecognisable(value: string, read: ValueReader)
    ensures ParseCondition(value, read).Condition? ==> Recognisable(ParseCondition(value, read).l)
  {
  }

  lemma {:induction false} AndListIsRecognisable(ands: seq<string>, read: ValueReader)
    ensures var r := AndList(ands, read);
            r.Some? ==> RecognisableClause(r.value)
  {
    hide ParseCondition, Recognisable;
    if ands != [] {
      var n := |ands| - 1;
      AndListIsRecognisable(ands[..n], read);
      ParsedIsRecognisable(ands[n], read);
    }
  }

  /** Whatever the text, the parsed clauses are what the compiler asks for, and none is empty. */
  lemma {:induction false} OrListIsWellFormed(ors: seq<string>, read: ValueReader)
    ensures var r := OrList(ors, read);
            r.Some? ==> forall i :: 0 <= i < |r.value| ==> r.value[i] != [] && RecognisableClause(r.value[i])
  {
    hide AndList, RecognisableClause, Split;
    if ors != [] {
      var n := |ors| - 1;
      OrListIsWellFormed(ors[..n], read);
      AndListIsRecognisable(Split(ors[n], ','), read);
    }
  }

  /**
   From any text that parses, the compiled "disable when" holds exactly when it did before, or
   some comparison was recognised and the recognised condition is false.
   */
  lemma ParsedGuideMeans(value: string, read: ValueReader, gs: seq<seq<Comparison>>, prefix: string, env: Env)
    requires Enable(value, read).Some?
    ensures var conds := Enable(value, read).value;
            && E.WellFormed(conds)
            && (Means(E.Compile(Render(gs), conds, prefix), env) <==>
                  Means(Render(gs), env) || (conds != [] && !E.Enabled(conds, prefix, env)))
  {
    var conds := Enable(value, read).value;
    OrListIsWellFormed(Split(U.Remove(U.Remove(Strip(value), '('), ')'), ';'), read);
    hide Enable;
    forall i, j | 0 <= i < |conds| && 0 <= j < |conds[i]| ensures Recognisable(conds[i][j]) {
      assert RecognisableClause(conds[i]);
    }
    assert E.WellFormed(conds);
    E.CompileMeans(gs, conds, prefix, env);
    hide E.Compile, Means;
  }

  // --------------------------------------------------------------------- blanks

  lemma {:induction false} AndListAlike(p: seq<string>, q: seq<string>, read: ValueReader)
    requires Alike(p, q)
    ensures AndList(p, read) == AndList(q, read)
  {
    if p != [] {
      var n := |p| - 1;
      AndListAlike(p[..n], q[..n], read);
      hide Strip, SplitDots, Recognised;
    }
  }

  /** Blanks around a clause make no difference. */
  lemma ClauseIgnoresPadding(x: string, y: string, read: ValueReader)
    requires Strip(x) == Strip(y)
    ensures AndList(Split(x, ','), read) == AndList(Split(y, ','), read)
  {
    SplitStripped(x, ',');
    SplitStripped(y, ',');
    AndListAlike(Split(x, ','), Split(Strip(x), ','), read);
    AndListAlike(Split(y, ','), Split(Strip(y), ','), read);
  }

  lemma {:induction false} OrListAlike(p: seq<string>, q: seq<string>, read: ValueReader)
    requires Alike(p, q)
    ensures OrList(p, read) == OrList(q, read)
  {
    hide Strip, AndList, Split;
    if p != [] {
      var n := |p| - 1;
      OrListAlike(p[..n], q[..n], read);
      ClauseIgnoresPadding(p[n], q[n], read);
    }
  }

  lemma {:induction false} RemoveNothing(s: string, c: char)
    requires Without(s, c)
    ensures U.Remove(s, c) == s
  {
    if s != "" {
      RemoveNothing(s[1..], c);
      assert s == [s[0]] + s[1..];
    }
  }

  lemma {:induction false} RemoveAppends(a: string, b: string, c: char)
    ensures U.Remove(a + b, c) == U.Remove(a, c) + U.Remove(b, c)
  {
    if a == "" {
      assert a + b == b;
    } else {
      RemoveAppends(a[1..], b, c);
      assert (a + b)[0] == a[0] && (a + b)[1..] == a[1..] + b;
      ConcatAssociates(if a[0] == c then "" else [a[0]], U.Remove(a[1..], c), U.Remove(b, c));
    }
  }

  function Bare(s: string): string {
    U.Remove(U.Remove(s, '('), ')')
  }

  lemma BareAppends(a: string, b: string)
    ensures Bare(a + b) == Bare(a) + Bare(b)
  {
    RemoveAppends(a, b, '(');
    RemoveAppends(U.Remove(a, '('), U.Remove(b, '('), ')');
  }

  lemma BlankIsBare(s: string)
    requires Blank(s)
    ensures Bare(s) == s
  {
    RemoveNothing(s, '(');
    RemoveNothing(s, ')');
  }

  /** The value is stripped for nothing: the blanks at its ends are stripped off the clauses anyway. */
  lemma EnableOfBare(value: string, read: ValueReader)
    ensures Enable(value, read) == OrList(Split(Bare(value), ';'), read)
  {
    var inner := Strip(value);
    var before, after := StripParts(value);
    hide Strip, OrList, Split;
    BareAppends(before + inner, after);
    BareAppends(before, inner);
    BlankIsBare(before);
    BlankIsBare(after);
    hide Bare;
    PaddingIsStripped(before, Bare(inner), after);
    SplitStripped(Bare(value), ';');
    SplitStripped(Bare(inner), ';');
    OrListAlike(Split(Bare(value), ';'), Split(Strip(Bare(value)), ';'), read);
    OrListAlike(Split(Bare(inner), ';'), Split(Strip(Bare(inner)), ';'), read);
  }

  /** A bracket makes no difference, wherever it stands: nesting cannot be expressed. */
  lemma BracketIsIgnored(s: string, bracket: char, t: string, read: ValueReader)
    requires bracket in {'(', ')'}
    ensures Enable(s + [bracket] + t, read) == Enable(s + t, read)
  {
    hide Enable, OrList, Split;
    EnableOfBare(s + [bracket] + t, read);
    EnableOfBare(s + t, read);
    BareAppends(s + [bracket], t);
    BareAppends(s, [bracket]);
    BareAppends(s, t);
    assert Bare([bracket]) == "" by {
      assert U.Remove([bracket][1..], '(') == "" && U.Remove([bracket][1..], ')') == "";
    }
    assert Bare(s) + "" + Bare(t) == Bare(s) + Bare(t);
  }

  /** Without brackets the value is split as it stands. */
  lemma EnableOfPlain(value: string, read: ValueReader)
    requires Without(value, '(') && Without(value, ')')
    ensures Enable(value, read) == OrList(Split(value, ';'), read)
  {
    hide Enable, OrList, Split;
    EnableOfBare(value, read);
    RemoveNothing(value, '(');
    RemoveNothing(value, ')');
  }

  // ----------------------------------------------------------------- round trip

  /**
   A comparison as it is written, its owner in front of a run of colons or dots if it has one.
   The text before, lead, gap, mid and after is blank.
   */
  datatype Written = Written(
    before: string, owner: string, dots: string, lead: string, parm: string, gap: string,
    sign: string, mid: string, value: string, after: string)

  const SIGNS: set<string> := {"=", "!=", "<", ">", "<=", ">="}

  predicate IsLetter(c: char) {
    c !in {':', '.', '=', '<', '>', '!', ',', ';', '(', ')'}
  }

  predicate Letters(s: string) {
    forall i :: 0 <= i < |s| ==> IsLetter(s[i])
  }

  /** Blanks may stand inside a word, but not at its ends. */
  predicate IsWord(s: string) {
    s != "" && Letters(s) && !IsBlank(s[0]) && !IsBlank(s[|s| - 1])
  }

  predicate Dots(s: string) {
    forall i :: 0 <= i < |s| ==> s[i] == ':' || s[i] == '.'
  }

  /** Blanks between an owner and its dots are kept as part of the owner. */
  predicate WellWritten(w: Written) {
    && Blank(w.before) && Blank(w.lead) && Blank(w.gap) && Blank(w.mid) && Blank(w.after)
    && IsWord(w.parm) && IsWord(w.value) && w.sign in SIGNS
    && (if w.owner == "" then w.dots == ""
        else Letters(w.owner) && !IsBlank(w.owner[0]) && w.dots != "" && Dots(w.dots))
  }

  function Stem(w: Written): string {
    w.parm + w.gap + w.sign + w.mid + w.value
  }

  function Write(w: Written): string {
    w.before + w.owner + w.dots + w.lead + Stem(w) + w.after
  }

  /** The literal the written comparison stands for. */
  function Meant(w: Written, read: ValueReader): E.Literal {
    E.Literal(w.parm, w.owner, if w.sign == "=" then "==" else w.sign, GivenValue(read(w.value)))
  }

  /** The literal the parser makes of it. */
  function Got(w: Written, read: ValueReader): E.Literal {
    if w.sign in {"<=", ">="}
    then E.Literal(w.parm, w.owner, w.sign[..1], GivenValue(read("=" + (w.mid + w.value))))
    else Meant(w, read)
  }

  /** Only "<=" and ">=" are misread. */
  lemma GotIsMeantIff(w: Written, read: ValueReader)
    requires w.sign in SIGNS
    ensures Got(w, read) == Meant(w, read) <==> w.sign !in {"<=", ">="}
  {
    assert "<="[..1] == "<" && ">="[..1] == ">";
  }

  predicate SignFree(s: string) {
    forall i :: 0 <= i < |s| ==> s[i] !in {'=', '<', '>', '!'}
  }

  lemma BlankIsPlain(s: string)
    requires Blank(s)
    ensures Letters(s)
  {
  }

  lemma LettersArePlain(s: string)
    requires Letters(s)
    ensures SignFree(s) && NoDots(s)
    ensures Without(s, ',') && Without(s, ';') && Without(s, '(') && Without(s, ')')
  {
  }

  lemma SignIsPlain(sign: string)
    requires sign in SIGNS
    ensures sign != "" && NoDots(sign) && !IsBlank(sign[0])
    ensures Without(sign, ',') && Without(sign, ';') && Without(sign, '(') && Without(sign, ')')
  {
  }

  /** The operator is found behind the first text without operator characters. */
  lemma FindSignAfter(front: string, sign: string, rest: string)
    requires SignFree(front) && sign in SIGNS
    ensures FindSign(front + sign + rest) == |front| < |front + sign + rest|
    ensures SignAt(front + sign + rest, |front|) == if sign in {"<=", ">="} then sign[..1] else sign
  {
    var s, n := front + sign + rest, |front|;
    hide FindSign;
    assert s[n] == sign[0];
    assert sign[0] == '!' ==> s[n + 1] == sign[1] == '=';
    assert IsSignAt(s, n);
    forall j | 0 <= j < n ensures !IsSignAt(s, j) {
      assert s[j] == front[j];
    }
  }

  lemma RecognisedText(owner: string, front: string, sign: string, rest: string, read: ValueReader)
    requires SignFree(front) && sign in SIGNS
    ensures Recognised(owner, front + sign + rest, read) ==
            Condition(if sign in {"<=", ">="}
                      then E.Literal(Strip(front), owner, sign[..1], GivenValue(read(Strip("=" + rest))))
                      else E.Literal(Strip(front), owner, if sign == "=" then "==" else sign,
                                     GivenValue(read(Strip(rest)))))
  {
    FindSignAfter(front, sign, rest);
    var s, n := front + sign + rest, |front|;
    assert s[..n] == front;
    assert sign in {"<=", ">="} ==> s[n + 1..] == "=" + rest;
    assert sign !in {"<=", ">="} ==> s[n + |sign|..] == rest;
    hide Strip, FindSign, IsSignAt, SignFree;
  }

  lemma StripWord(before: string, s: string, after: string)
    requires Blank(before) && Blank(after) && IsWord(s)
    ensures Strip(before + s + after) == s
  {
    PaddingIsStripped(before, s, after);
    SolidIsKept(s);
  }

  lemma StemShape(w: Written, lead: string)
    ensures lead + Stem(w) == (lead + w.parm + w.gap) + w.sign + (w.mid + w.value)
  {
  }

  /** What is recognised in the text behind the owner, with the blanks lead in front or without. */
  lemma RecognisedStem(w: Written, lead: string, read: ValueReader)
    requires WellWritten(w) && Blank(lead)
    ensures Recognised(w.owner, lead + Stem(w), read) == Condition(Got(w, read))
  {
    hide Recognised, Strip, Stem, IsWord, Blank, SignFree, Letters, Dots;
    FrontIsPlain(lead, w.parm, w.gap);
    ValueIsStripped(w.mid, w.value);
    StemShape(w, lead);
    RecognisedText(w.owner, lead + w.parm + w.gap, w.sign, w.mid + w.value, read);
  }

  lemma FrontIsPlain(lead: string, parm: string, gap: string)
    requires Blank(lead) && IsWord(parm) && Blank(gap)
    ensures SignFree(lead + parm + gap) && Strip(lead + parm + gap) == parm
  {
    BlankIsPlain(lead);
    BlankIsPlain(gap);
    hide Strip, Blank;
    StripWord(lead, parm, gap);
    LettersArePlain(lead + parm + gap);
  }

  lemma ValueIsStripped(mid: string, value: string)
    requires Blank(mid) && IsWord(value)
    ensures Strip(mid + value) == value && Strip("=" + (mid + value)) == "=" + (mid + value)
  {
    hide Strip;
    StripWord(mid, value, "");
    assert mid + value + "" == mid + value;
    var v := "=" + (mid + value);
    assert v[|v| - 1] == value[|value| - 1];
    SolidIsKept(v);
  }

  /** The comparison without blanks at its ends. */
  function Trimmed(w: Written): string {
    if w.owner == "" then Stem(w) else w.owner + w.dots + (w.lead + Stem(w))
  }

  lemma StemIsPlain(w: Written)
    requires WellWritten(w)
    ensures Stem(w) != "" && NoDots(Stem(w)) && NoDots(w.lead + Stem(w))
    ensures !IsBlank(Stem(w)[0]) && !IsBlank(Stem(w)[|Stem(w)| - 1])
  {
    SignIsPlain(w.sign);
    BlankIsPlain(w.lead);
    BlankIsPlain(w.gap);
    BlankIsPlain(w.mid);
    LettersArePlain(w.lead);
    LettersArePlain(w.parm + w.gap);
    LettersArePlain(w.mid + w.value);
    var s := Stem(w);
    assert s == (w.parm + w.gap) + w.sign + (w.mid + w.value);
    assert s[0] == w.parm[0] && s[|s| - 1] == w.value[|w.value| - 1];
  }

  /** The blanks in front of the trimmed comparison. */
  function Front(w: Written): string {
    if w.owner == "" then w.before + w.lead else w.before
  }

  lemma WriteShape(w: Written)
    requires w.owner == "" ==> w.dots == ""
    ensures Write(w) == Front(w) + Trimmed(w) + w.after
  {
    hide Stem;
    if w.owner == "" {
      assert w.before + w.owner + w.dots == w.before;
    }
  }

  lemma TrimmedIsSolid(w: Written)
    requires WellWritten(w)
    ensures Trimmed(w) != "" && !IsBlank(Trimmed(w)[0]) && !IsBlank(Trimmed(w)[|Trimmed(w)| - 1])
  {
    StemIsPlain(w);
    hide Stem;
    var t := Trimmed(w);
    assert t[|t| - 1] == Stem(w)[|Stem(w)| - 1];
  }

  lemma StripTrims(w: Written)
    requires WellWritten(w)
    ensures Strip(Write(w)) == Trimmed(w)
  {
    TrimmedIsSolid(w);
    WriteShape(w);
    assert Blank(Front(w));
    hide Trimmed, Write, Front, Strip, Blank;
    PaddingIsStripped(Front(w), Trimmed(w), w.after);
    SolidIsKept(Trimmed(w));
  }

  lemma OwnerIsCut(owner: string, dots: string, rest: string)
    requires Letters(owner) && dots != "" && Dots(dots) && rest != "" && !IsDot(rest[0])
    ensures SplitDots(owner + dots + rest) == [owner] + SplitDots(rest)
  {
    LettersArePlain(owner);
    SplitDotsOnce(owner, dots, rest);
  }

  lemma TrimmedParts(w: Written)
    requires WellWritten(w)
    ensures SplitDots(Trimmed(w)) == if w.owner == "" then [Stem(w)] else [w.owner, w.lead + Stem(w)]
  {
    StemIsPlain(w);
    hide SplitDots, Stem;
    if w.owner == "" {
      SplitDotsNone(Stem(w));
    } else {
      var rest := w.lead + Stem(w);
      assert rest != "" && !IsDot(rest[0]);
      SplitDotsNone(rest);
      OwnerIsCut(w.owner, w.dots, rest);
    }
  }

  lemma CutWritten(w: Written, read: ValueReader)
    requires WellWritten(w)
    ensures ParseCondition(Write(w), read) == Condition(Got(w, read))
  {
    hide Recognised, SplitDots, Strip, Stem, Write, Trimmed, Got, Letters, Blank, IsWord, Dots;
    StripTrims(w);
    TrimmedParts(w);
    if w.owner == "" {
      NothingIsBlank();
      RecognisedStem(w, "", read);
      assert "" + Stem(w) == Stem(w);
    } else {
      RecognisedStem(w, w.lead, read);
    }
  }

  /**
   Parsing recovers a written comparison exactly when its operator is not "<=" or ">=".
   Those are taken for "<" and ">", the equals sign becoming part of the value.
   */
  lemma ParseOfWritten(w: Written, read: ValueReader)
    requires WellWritten(w)
    ensures ParseCondition(Write(w), read) == Condition(Got(w, read))
    ensures ParseCondition(Write(w), read) == Condition(Meant(w, read)) <==> w.sign !in {"<=", ">="}
  {
    CutWritten(w, read);
    GotIsMeantIff(w, read);
    hide ParseCondition, Write, Got, Meant;
  }

  lemma StripDecimal(w: Written, fraction: string)
    requires WellWritten(w) && IsWord(fraction)
    ensures Strip(Write(w) + "." + fraction) == Trimmed(w) + w.after + "." + fraction
  {
    TrimmedIsSolid(w);
    WriteShape(w);
    assert Blank(Front(w));
    hide Trimmed, Write, Front, Strip, Blank, Letters, WellWritten;
    var t := Trimmed(w) + w.after + "." + fraction;
    assert t[|t| - 1] == fraction[|fraction| - 1] && t[0] == Trimmed(w)[0];
    ConcatAssociates(Front(w), Trimmed(w), w.after);
    ConcatAssociates(Front(w), Trimmed(w) + w.after, ".");
    ConcatAssociates(Front(w), Trimmed(w) + w.after + ".", fraction);
    assert Front(w) + t + "" == Front(w) + t;
    NothingIsBlank();
    PaddingIsStripped(Front(w), t, "");
    SolidIsKept(t);
  }

  lemma DotBeforeFraction(clause: string, fraction: string)
    requires clause != "" && NoDots(clause) && fraction != "" && NoDots(fraction)
    ensures SplitDots(clause + "." + fraction) == [clause, fraction]
    ensures !IsDot((clause + "." + fraction)[0])
  {
    SplitDotsNone(fraction);
    assert (clause + "." + fraction)[0] == clause[0];
    assert Dots(".");
    hide SplitDots, FindDot, SkipDots;
    SplitDotsOnce(clause, ".", fraction);
  }

  /** What follows the owner, up to the dot of the number. */
  function Body(w: Written): string {
    (if w.owner == "" then "" else w.lead) + Stem(w) + w.after
  }

  lemma BodyHasNoDots(w: Written)
    requires WellWritten(w)
    ensures Body(w) != "" && NoDots(Body(w))
  {
    StemIsPlain(w);
    hide Stem;
    BlankIsPlain(w.after);
    LettersArePlain(w.after);
    BlankIsPlain(w.lead);
    LettersArePlain(w.lead);
  }

  lemma TrimmedIsBody(w: Written, fraction: string)
    ensures Trimmed(w) + w.after + "." + fraction ==
            if w.owner == "" then Body(w) + "." + fraction else w.owner + w.dots + (Body(w) + "." + fraction)
  {
    hide Stem;
    if w.owner == "" {
      assert "" + Stem(w) + w.after == Stem(w) + w.after;
    } else {
      assert w.owner + w.dots + (w.lead + Stem(w)) + w.after + "." + fraction
          == w.owner + w.dots + (w.lead + Stem(w) + w.after + "." + fraction);
    }
  }

  lemma DecimalParts(w: Written, fraction: string)
    requires WellWritten(w) && IsWord(fraction)
    ensures SplitDots(Trimmed(w) + w.after + "." + fraction) ==
            if w.owner == "" then [Body(w), fraction] else [w.owner, Body(w), fraction]
  {
    hide SplitDots, Body, Trimmed, NoDots, Letters;
    BodyHasNoDots(w);
    LettersArePlain(fraction);
    DotBeforeFraction(Body(w), fraction);
    TrimmedIsBody(w, fraction);
    if w.owner != "" {
      OwnerIsCut(w.owner, w.dots, Body(w) + "." + fraction);
    }
  }

  lemma NoSignToFind(s: string)
    requires SignFree(s)
    ensures FindSign(s) == |s|
  {
  }

  /**
   The dot of a decimal number is taken for the one behind an owner: the comparison is
   dropped, or fails when there is an owner as well.
   */
  lemma DecimalsAreLost(w: Written, fraction: string, read: ValueReader)
    requires WellWritten(w) && IsWord(fraction)
    ensures ParseCondition(Write(w) + "." + fraction, read) == if w.owner == "" then NoCondition else Failed
  {
    LettersArePlain(fraction);
    NoSignToFind(fraction);
    hide Body, Write, Trimmed, SplitDots, Strip, FindSign, WellWritten, IsWord;
    StripDecimal(w, fraction);
    DecimalParts(w, fraction);
  }

  // --------------------------------------------------------- a whole condition

  function WriteEach(ws: seq<Written>): (parts: seq<string>)
    ensures |parts| == |ws| && forall i :: 0 <= i < |ws| ==> parts[i] == Write(ws[i])
  {
    seq(|ws|, i requires 0 <= i < |ws| => Write(ws[i]))
  }

  predicate WrittenClause(ws: seq<Written>) {
    ws != [] && forall j :: 0 <= j < |ws| ==> WellWritten(ws[j])
  }

  /** Clauses with at least one comparison each. */
  predicate WrittenClauses(clauses: seq<seq<Written>>) {
    clauses != [] && forall i :: 0 <= i < |clauses| ==> WrittenClause(clauses[i])
  }

  function WriteClause(ws: seq<Written>): string
    requires WrittenClause(ws)
  {
    Join(WriteEach(ws), ',')
  }

  function WriteClauses(clauses: seq<seq<Written>>): (parts: seq<string>)
    requires forall i :: 0 <= i < |clauses| ==> WrittenClause(clauses[i])
    ensures |parts| == |clauses| && forall i :: 0 <= i < |clauses| ==> parts[i] == WriteClause(clauses[i])
  {
    seq(|clauses|, i requires 0 <= i < |clauses| => WriteClause(clauses[i]))
  }

  function WriteEnable(clauses: seq<seq<Written>>): string
    requires WrittenClauses(clauses)
  {
    Join(WriteClauses(clauses), ';')
  }

  /** No comparison uses an operator the parser misreads. */
  predicate Expressible(clauses: seq<seq<Written>>) {
    forall i, j :: 0 <= i < |clauses| && 0 <= j < |clauses[i]| ==> clauses[i][j].sign !in {"<=", ">="}
  }

  function MeantClause(ws: seq<Written>, read: ValueReader): (r: seq<E.Literal>)
    ensures |r| == |ws| && forall j :: 0 <= j < |r| ==> r[j] == Meant(ws[j], read)
  {
    seq(|ws|, j requires 0 <= j < |ws| => Meant(ws[j], read))
  }

  /** The condition the written text stands for. */
  function MeantEnable(clauses: seq<seq<Written>>, read: ValueReader): (r: seq<seq<E.Literal>>)
    ensures |r| == |clauses| && forall i :: 0 <= i < |r| ==> r[i] == MeantClause(clauses[i], read)
  {
    seq(|clauses|, i requires 0 <= i < |clauses| => MeantClause(clauses[i], read))
  }

  function GotClause(ws: seq<Written>, read: ValueReader): (r: seq<E.Literal>)
    ensures |r| == |ws| && forall j :: 0 <= j < |r| ==> r[j] == Got(ws[j], read)
  {
    seq(|ws|, j requires 0 <= j < |ws| => Got(ws[j], read))
  }

  function GotEnable(clauses: seq<seq<Written>>, read: ValueReader): (r: seq<seq<E.Literal>>)
    ensures |r| == |clauses| && forall i :: 0 <= i < |r| ==> r[i] == GotClause(clauses[i], read)
  {
    seq(|clauses|, i requires 0 <= i < |clauses| => GotClause(clauses[i], read))
  }

  lemma {:induction false} AndListOfWritten(ws: seq<Written>, read: ValueReader)
    requires forall j :: 0 <= j < |ws| ==> WellWritten(ws[j])
    ensures AndList(WriteEach(ws), read) == Some(GotClause(ws, read))
  {
    hide ParseCondition, WellWritten, Write, Got;
    if ws != [] {
      var n := |ws| - 1;
      AndListOfWritten(ws[..n], read);
      ParseOfWritten(ws[n], read);
      assert WriteEach(ws)[..n] == WriteEach(ws[..n]);
      assert GotClause(ws, read) == GotClause(ws[..n], read) + [Got(ws[n], read)];
    }
  }

  lemma WriteHasNo(w: Written, c: char)
    requires WellWritten(w) && c in {',', ';', '(', ')'}
    ensures Without(Write(w), c)
  {
    SignIsPlain(w.sign);
    BlankIsPlain(w.before + w.lead);
    BlankIsPlain(w.gap + w.mid + w.after);
    LettersArePlain(w.before);
    LettersArePlain(w.owner);
    LettersArePlain(w.lead + w.parm + w.gap);
    LettersArePlain(w.mid + w.value + w.after);
    assert Without(w.dots, c);
    assert Write(w) == w.before + w.owner + w.dots + (w.lead + w.parm + w.gap) + w.sign + (w.mid + w.value + w.after);
    hide Write, Letters, Blank;
  }

  lemma WriteClauseHasNo(ws: seq<Written>, c: char)
    requires WrittenClause(ws) && c in {';', '(', ')'}
    ensures Without(WriteClause(ws), c)
  {
    hide Write;
    forall i | 0 <= i < |ws| ensures Without(WriteEach(ws)[i], c) {
      WriteHasNo(ws[i], c);
    }
    JoinHasNo(WriteEach(ws), ',', c);
  }

  lemma WriteEnableHasNo(clauses: seq<seq<Written>>, c: char)
    requires WrittenClauses(clauses) && c in {'(', ')'}
    ensures Without(WriteEnable(clauses), c)
  {
    hide WriteClause;
    forall i | 0 <= i < |clauses| ensures Without(WriteClauses(clauses)[i], c) {
      WriteClauseHasNo(clauses[i], c);
    }
    JoinHasNo(WriteClauses(clauses), ';', c);
  }

  lemma ClauseOfWritten(ws: seq<Written>, read: ValueReader)
    requires WrittenClause(ws)
    ensures AndList(Split(WriteClause(ws), ','), read) == Some(GotClause(ws, read))
  {
    hide Write, AndList, Split;
    forall i | 0 <= i < |ws| ensures Without(WriteEach(ws)[i], ',') {
      WriteHasNo(ws[i], ',');
    }
    SplitOfJoin(WriteEach(ws), ',');
    AndListOfWritten(ws, read);
  }

  lemma {:induction false} OrListOfWritten(clauses: seq<seq<Written>>, read: ValueReader)
    requires forall i :: 0 <= i < |clauses| ==> WrittenClause(clauses[i])
    ensures OrList(WriteClauses(clauses), read) == Some(GotEnable(clauses, read))
  {
    hide AndList, Split, WriteClause, GotClause;
    if clauses != [] {
      var n := |clauses| - 1;
      OrListOfWritten(clauses[..n], read);
      ClauseOfWritten(clauses[n], read);
      assert WriteClauses(clauses)[..n] == WriteClauses(clauses[..n]);
      assert GotEnable(clauses, read) == GotEnable(clauses[..n], read) + [GotClause(clauses[n], read)];
    }
  }

  lemma GotEnableIsMeantIff(clauses: seq<seq<Written>>, read: ValueReader)
    requires WrittenClauses(clauses)
    ensures GotEnable(clauses, read) == MeantEnable(clauses, read) <==> Expressible(clauses)
  {
    hide Got, Meant;
    forall i, j | 0 <= i < |clauses| && 0 <= j < |clauses[i]|
      ensures Got(clauses[i][j], read) == Meant(clauses[i][j], read) <==> clauses[i][j].sign !in {"<=", ">="}
    {
      GotIsMeantIff(clauses[i][j], read);
    }
    if GotEnable(clauses, read) == MeantEnable(clauses, read) {
      forall i, j | 0 <= i < |clauses| && 0 <= j < |clauses[i]|
        ensures clauses[i][j].sign !in {"<=", ">="}
      {
        assert GotClause(clauses[i], read)[j] == MeantClause(clauses[i], read)[j];
      }
    }
    if Expressible(clauses) {
      forall i | 0 <= i < |clauses| ensures GotClause(clauses[i], read) == MeantClause(clauses[i], read) {
      }
    }
  }

  /** Parsing a written condition gives the condition back exactly when no operator is "<=" or ">=". */
  lemma EnableOfWritten(clauses: seq<seq<Written>>, read: ValueReader)
    requires WrittenClauses(clauses)
    ensures Enable(WriteEnable(clauses), read) == Some(GotEnable(clauses, read))
    ensures Enable(WriteEnable(clauses), read) == Some(MeantEnable(clauses, read)) <==> Expressible(clauses)
  {
    hide WriteClause, GotClause, MeantClause, Expressible, Enable, OrList, Split;
    WriteEnableHasNo(clauses, '(');
    WriteEnableHasNo(clauses, ')');
    EnableOfPlain(WriteEnable(clauses), read);
    forall i | 0 <= i < |clauses| ensures Without(WriteClauses(clauses)[i], ';') {
      WriteClauseHasNo(clauses[i], ';');
    }
    SplitOfJoin(WriteClauses(clauses), ';');
    OrListOfWritten(clauses, read);
    GotEnableIsMeantIff(clauses, read);
  }

  // ------------------------------------------------------------- a whole guide

  /** The dictionary keeps the body of the last entry with a key. */
  lemma {:induction false} LastEntryWins(entries: seq<(string, string)>, i: nat, key: string)
    requires i < |entries| && U.KeyOf(entries[i].0) == Some(key)
    requires forall j :: i < j < |entries| ==> U.KeyOf(entries[j].0) != Some(key)
    ensures key in U.Dictionary(entries) && U.Dictionary(entries)[key] == entries[i].1
  {
    hide U.KeyOf;
    if i < |entries| - 1 {
      LastEntryWins(entries[..|entries| - 1], i, key);
    }
  }

  lemma EnableKey(token: string)
    ensures U.KeyOf(token) == Some("enabled") <==> token == "enable"
  {
  }

  /**
   From the text of a guide to the compiled conditional: a parameter whose guide's last "enable"
   entry writes a condition is disabled exactly when it was before or the condition, as it is
   read, is false. Without "<=" and ">=" that is the written condition.
   */
  lemma WrittenGuideMeans(ws: seq<U.Written>, trailer: string, i: nat, clauses: seq<seq<Written>>, read: ValueReader,
                          gs: seq<seq<Comparison>>, prefix: string, env: Env)
    requires forall k :: 0 <= k < |ws| ==> U.WellWritten(ws[k])
    requires U.Plain(trailer) && U.Find(trailer, '=') == |trailer|
    requires i < |ws| && ws[i].name == "enable" && forall k :: i < k < |ws| ==> ws[k].name != "enable"
    requires WrittenClauses(clauses) && ws[i].body == WriteEnable(clauses)
    ensures var ui := U.Dictionary(U.Entries(U.BracketSubstr(U.WriteAll(ws, trailer))));
            && "enabled" in ui && Enable(ui["enabled"], read).Some?
            && (Means(E.Compile(Render(gs), Enable(ui["enabled"], read).value, prefix), env) <==>
                  Means(Render(gs), env) || !E.Enabled(GotEnable(clauses, read), prefix, env))
            && (Expressible(clauses) ==>
                  (Means(E.Compile(Render(gs), Enable(ui["enabled"], read).value, prefix), env) <==>
                     Means(Render(gs), env) || !E.Enabled(MeantEnable(clauses, read), prefix, env)))
  {
    hide U.KeyOf, U.Dictionary, U.Entries, U.BracketSubstr, U.WriteAll, U.WellWritten, U.Find;
    hide WriteEnable, Enable, Expressible, Means, E.Compile, E.Enabled;
    U.ParseRecoversEntries(ws, trailer);
    forall k | 0 <= k < |ws| ensures U.KeyOf(ws[k].name) == Some("enabled") <==> ws[k].name == "enable" {
      EnableKey(ws[k].name);
    }
    LastEntryWins(U.Pairs(ws), i, "enabled");
    EnableOfWritten(clauses, read);
    ParsedGuideMeans(ws[i].body, read, gs, prefix, env);
  }
}
