/**
 Cutting guide texts up: splitting at separators, stripping blanks, and splitting at runs of
 colons and dots.
 */
module GuideTexts {
  import opened Wrappers
  import U = UiGuides

  /** str.split at one character. */
  function Split(s: string, sep: char): (parts: seq<string>)
    ensures parts != []
    decreases |s|
  {
    var i := U.Find(s, sep);
    if i == |s| then [s] else [s[..i]] + Split(s[i + 1..], sep)
  }

  function Join(parts: seq<string>, sep: char): string
    requires parts != []
  {
    if |parts| == 1 then parts[0] else parts[0] + [sep] + Join(parts[1..], sep)
  }

  predicate Without(s: string, c: char) {
    forall i :: 0 <= i < |s| ==> s[i] != c
  }

  /** Splitting undoes joining parts that are free of the separator. */
  lemma {:induction false} SplitOfJoin(parts: seq<string>, sep: char)
    requires parts != [] && forall i :: 0 <= i < |parts| ==> Without(parts[i], sep)
    ensures Split(Join(parts, sep), sep) == parts
  {
    if |parts| > 1 {
      SplitOfJoin(parts[1..], sep);
      U.FindSkips(parts[0], sep, Join(parts[1..], sep));
      assert parts == [parts[0]] + parts[1..];
    }
  }

  lemma {:induction false} JoinHasNo(parts: seq<string>, sep: char, c: char)
    requires parts != [] && c != sep && forall i :: 0 <= i < |parts| ==> Without(parts[i], c)
    ensures Without(Join(parts, sep), c)
  {
    if |parts| > 1 {
      JoinHasNo(parts[1..], sep, c);
    }
  }

  // ------------------------------------------------------------------ blanks

  predicate IsBlank(c: char) {
    c as int in {9, 10, 11, 12, 13, 32}
  }

  function StripLeft(s: string): string {
    if s != "" && IsBlank(s[0]) then StripLeft(s[1..]) else s
  }

  function StripRight(s: string): string {
    if s != "" && IsBlank(s[|s| - 1]) then StripRight(s[..|s| - 1]) else s
  }

  function Strip(s: string): string {
    StripRight(StripLeft(s))
  }

  predicate Blank(s: string) {
    forall i :: 0 <= i < |s| ==> IsBlank(s[i])
  }

  lemma {:induction false} StripLeftSkips(before: string, s: string)
    requires Blank(before)
    ensures StripLeft(before + s) == StripLeft(s)
  {
    if before == "" {
      assert before + s == s;
    } else {
      StripLeftSkips(before[1..], s);
      assert (before + s)[1..] == before[1..] + s;
    }
  }

  lemma {:induction false} StripRightSkips(s: string, after: string)
    requires Blank(after)
    ensures StripRight(s + after) == StripRight(s)
  {
    if after == "" {
      assert s + after == s;
    } else {
      StripRightSkips(s, after[..|after| - 1]);
      assert (s + after)[..|s + after| - 1] == s + after[..|after| - 1];
    }
  }

  lemma {:induction false} StripLeftKeepsEnd(s: string, after: string)
    requires Blank(after)
    ensures StripRight(StripLeft(s + after)) == StripRight(StripLeft(s))
  {
    if s == "" {
      assert s + after == after + "";
      StripLeftSkips(after, "");
    } else if IsBlank(s[0]) {
      StripLeftKeepsEnd(s[1..], after);
      assert (s + after)[1..] == s[1..] + after;
    } else {
      StripRightSkips(s, after);
    }
  }

  /** Blanks around a text make no difference. */
  lemma PaddingIsStripped(before: string, s: string, after: string)
    requires Blank(before) && Blank(after)
    ensures Strip(before + s + after) == Strip(s)
  {
    assert before + s + after == before + (s + after);
    StripLeftSkips(before, s + after);
    StripLeftKeepsEnd(s, after);
  }

  lemma {:induction false} SolidIsKept(s: string)
    requires s != "" && !IsBlank(s[0]) && !IsBlank(s[|s| - 1])
    ensures Strip(s) == s
  {
    assert StripLeft(s) == s;
  }

  /** What is stripped off a text are blanks at its ends. */
  lemma StripParts(s: string) returns (before: string, after: string)
    ensures Blank(before) && Blank(after) && s == before + Strip(s) + after
  {
    before := StrippedLeft(s);
    var t := StripLeft(s);
    after := StrippedRight(t);
    assert before + (StripRight(t) + after) == before + StripRight(t) + after;
  }

  lemma {:induction false} StrippedLeft(s: string) returns (before: string)
    ensures Blank(before) && s == before + StripLeft(s)
  {
    if s != "" && IsBlank(s[0]) {
      var b := StrippedLeft(s[1..]);
      before := [s[0]] + b;
      assert s == [s[0]] + s[1..];
    } else {
      before := "";
    }
  }

  lemma {:induction false} StrippedRight(s: string) returns (after: string)
    ensures Blank(after) && s == StripRight(s) + after
  {
    if s != "" && IsBlank(s[|s| - 1]) {
      var n := |s| - 1;
      var a := StrippedRight(s[..n]);
      after := a + [s[n]];
      assert s == s[..n] + [s[n]];
    } else {
      after := "";
    }
  }

  /** The same texts but for blanks at their ends. */
  predicate Alike(p: seq<string>, q: seq<string>) {
    |p| == |q| && forall i :: 0 <= i < |p| ==> Strip(p[i]) == Strip(q[i])
  }

  lemma FindBehind(before: string, s: string, c: char)
    requires Without(before, c)
    ensures U.Find(before + s, c) == |before| + U.Find(s, c)
  {
    var t, i := before + s, U.Find(s, c);
    hide U.Find;
    assert forall j :: 0 <= j < |t| ==> t[j] == if j < |before| then before[j] else s[j - |before|];
    assert forall j :: 0 <= j < |before| + i ==> t[j] != c;
    if i < |s| {
      assert t[|before| + i] == s[i] == c;
    }
  }

  lemma SplitPrepend(before: string, s: string, sep: char)
    requires Blank(before) && !IsBlank(sep)
    ensures Split(before + s, sep) == [before + Split(s, sep)[0]] + Split(s, sep)[1..]
  {
    hide U.Find, Split;
    var t := before + s;
    var i := U.Find(s, sep);
    FindBehind(before, s, sep);
    SplitStep(s, sep);
    SplitStep(t, sep);
    assert t[..|before| + i] == before + s[..i];
    if i < |s| {
      assert t[|before| + i + 1..] == s[i + 1..];
      assert Split(s, sep)[1..] == Split(s[i + 1..], sep);
    }
  }

  lemma FindBefore(s: string, after: string, c: char)
    requires Without(after, c)
    ensures U.Find(s + after, c) == if U.Find(s, c) < |s| then U.Find(s, c) else |s + after|
  {
    var t, i := s + after, U.Find(s, c);
    hide U.Find;
    assert forall j :: 0 <= j < |t| ==> t[j] == if j < |s| then s[j] else after[j - |s|];
    if i < |s| {
      assert t[i] == c;
    }
  }

  lemma BlankHasNo(s: string, c: char)
    requires Blank(s) && !IsBlank(c)
    ensures Without(s, c)
  {
  }

  lemma LastOfLonger(first: string, more: seq<string>, last: string)
    requires more != []
    ensures var parts, n := [first] + more, |more| - 1;
            parts[n + 1] == more[n] && parts[..n + 1] + [last] == [first] + (more[..n] + [last])
  {
  }

  lemma {:induction false} SplitAppend(s: string, after: string, sep: char)
    requires Blank(after) && !IsBlank(sep)
    ensures var parts := Split(s, sep);
            Split(s + after, sep) == parts[..|parts| - 1] + [parts[|parts| - 1] + after]
    decreases |s|
  {
    hide U.Find, Split, Blank, IsBlank, Without;
    var i := U.Find(s, sep);
    BlankHasNo(after, sep);
    FindBefore(s, after, sep);
    SplitStep(s, sep);
    SplitStep(s + after, sep);
    if i < |s| {
      var rest := s[i + 1..];
      var more := Split(rest, sep);
      SplitAppend(rest, after, sep);
      assert (s + after)[..i] == s[..i] && (s + after)[i + 1..] == rest + after;
      LastOfLonger(s[..i], more, more[|more| - 1] + after);
    }
  }

  lemma SplitStep(s: string, sep: char)
    ensures var i := U.Find(s, sep);
            Split(s, sep) == if i == |s| then [s] else [s[..i]] + Split(s[i + 1..], sep)
  {
    hide U.Find;
  }

  lemma SplitPadded(before: string, s: string, after: string, sep: char)
    requires Blank(before) && Blank(after) && !IsBlank(sep)
    ensures Alike(Split(before + s + after, sep), Split(s, sep))
  {
    hide Split, Strip, Blank, IsBlank;
    SplitAppend(before + s, after, sep);
    SplitPrepend(before, s, sep);
    var parts, padded := Split(s, sep), Split(before + s + after, sep);
    var n := |parts| - 1;
    assert |padded| == |parts|;
    forall i | 0 <= i <= n ensures Strip(padded[i]) == Strip(parts[i]) {
      var b := if i == 0 then before else "";
      var a := if i == n then after else "";
      assert padded[i] == b + parts[i] + a;
      NothingIsBlank();
      PaddingIsStripped(b, parts[i], a);
    }
  }

  lemma NothingIsBlank()
    ensures Blank("")
  {
  }

  /** Stripping before splitting is stripping the first and the last part. */
  lemma SplitStripped(s: string, sep: char)
    requires !IsBlank(sep)
    ensures Alike(Split(s, sep), Split(Strip(s), sep))
  {
    var before, after := StripParts(s);
    SplitPadded(before, Strip(s), after, sep);
  }

  // ---------------------------------------------------------- colons and dots

  predicate IsDot(c: char) {
    c == ':' || c == '.'
  }

  function FindDot(s: string): (i: nat)
    ensures i <= |s| && (i < |s| ==> IsDot(s[i])) && forall j :: 0 <= j < i ==> !IsDot(s[j])
  {
    if s == "" || IsDot(s[0]) then 0 else 1 + FindDot(s[1..])
  }

  function SkipDots(s: string): (r: string)
    ensures |r| <= |s| && (s != "" && IsDot(s[0]) ==> |r| < |s|)
  {
    if s != "" && IsDot(s[0]) then SkipDots(s[1..]) else s
  }

  /** Split at every run of colons and dots. */
  function SplitDots(s: string): (parts: seq<string>)
    ensures parts != []
    decreases |s|
  {
    var i := FindDot(s);
    if i == |s| then [s] else [s[..i]] + SplitDots(SkipDots(s[i..]))
  }

  lemma {:induction false} SkipAllDots(dots: string, rest: string)
    requires forall i :: 0 <= i < |dots| ==> IsDot(dots[i])
    requires rest != "" ==> !IsDot(rest[0])
    ensures SkipDots(dots + rest) == rest
  {
    if dots == "" {
      assert dots + rest == rest;
    } else {
      SkipAllDots(dots[1..], rest);
      assert (dots + rest)[1..] == dots[1..] + rest;
    }
  }

  predicate NoDots(s: string) {
    forall i :: 0 <= i < |s| ==> !IsDot(s[i])
  }

  lemma SplitDotsStep(s: string)
    requires FindDot(s) < |s|
    ensures SplitDots(s) == [s[..FindDot(s)]] + SplitDots(SkipDots(s[FindDot(s)..]))
  {
    hide FindDot, SkipDots;
  }

  lemma FindDotAfter(a: string, rest: string)
    requires NoDots(a) && rest != "" && IsDot(rest[0])
    ensures FindDot(a + rest) == |a|
  {
    hide FindDot, IsDot;
    var s := a + rest;
    assert s[|a|] == rest[0];
    assert forall j :: 0 <= j < |a| ==> s[j] == a[j];
  }

  /** A text without dots, a run of dots, and more text. */
  lemma SplitDotsOnce(a: string, dots: string, b: string)
    requires NoDots(a) && (b != "" ==> !IsDot(b[0]))
    requires dots != "" && forall i :: 0 <= i < |dots| ==> IsDot(dots[i])
    ensures SplitDots(a + dots + b) == [a] + SplitDots(b)
  {
    hide FindDot, SkipDots, SplitDots, IsDot, NoDots;
    var s := a + dots + b;
    assert s == a + (dots + b) && (dots + b)[0] == dots[0];
    FindDotAfter(a, dots + b);
    SplitDotsStep(s);
    SkipAllDots(dots, b);
    assert s[..|a|] == a && s[|a|..] == dots + b;
  }

  lemma SplitDotsNone(a: string)
    requires NoDots(a)
    ensures SplitDots(a) == [a]
  {
  }

  /** The characters taken for blanks. */
  lemma BlankCharacters(c: char)
    ensures IsBlank(' ') && IsBlank('\t') && IsBlank('\n') && IsBlank('\r')
    ensures IsBlank(c) ==> c == ' ' || 9 <= c as int <= 13
  {
  }
}
