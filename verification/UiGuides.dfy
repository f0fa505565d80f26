/** The parser of plugin UI guides: a text of name=(body) entries with nested brackets in the bodies. */
module UiGuides {
  import opened Wrappers

  // ---------------------------------------------------------------- brackets

  function Delta(c: char): int {
    if c == '(' then 1 else if c == ')' then -1 else 0
  }

  /** Opening minus closing brackets. */
  function Level(s: string): int {
    if s == "" then 0 else Level(s[..|s| - 1]) + Delta(s[|s| - 1])
  }

  /** No closing bracket comes before its opening one. */
  predicate NeverNegative(s: string) {
    forall i :: 0 <= i <= |s| ==> Level(s[..i]) >= 0
  }

  predicate Balanced(s: string) {
    NeverNegative(s) && Level(s) == 0
  }

  /** The first position at or after i whose character is an unmatched closing bracket, or the end. */
  function CutFrom(s: string, i: nat): (k: nat)
    requires i <= |s|
    ensures i <= k <= |s|
    decreases |s| - i
  {
    if i == |s| then i else if Level(s[..i + 1]) < 0 then i else CutFrom(s, i + 1)
  }

  function BracketSubstr(s: string): (r: string)
    ensures |r| <= |s|
  {
    s[..CutFrom(s, 0)]
  }

  method GetBracketSubstr(mystr: string) returns (r: string)
    ensures r == BracketSubstr(mystr)
  {
    var br := 0;
    for i := 0 to |mystr|
      invariant br == Level(mystr[..i])
      invariant CutFrom(mystr, 0) == CutFrom(mystr, i)
    {
      assert mystr[..i + 1][..i] == mystr[..i];
      if mystr[i] == '(' {
        br := br + 1;
      }
      if mystr[i] == ')' {
        br := br - 1;
      }
      if br < 0 {
        return mystr[..i];
      }
    }
    r := mystr;
    assert mystr[..|mystr|] == mystr;
  }

  lemma {:induction false} LevelAppends(a: string, b: string)
    ensures Level(a + b) == Level(a) + Level(b)
  {
    if b == "" {
      assert a + b == a;
    } else {
      LevelAppends(a, b[..|b| - 1]);
      assert (a + b)[..|a + b| - 1] == a + b[..|b| - 1];
    }
  }

  lemma {:induction false} CutFromMeans(s: string, i: nat)
    requires i <= |s|
    ensures var k := CutFrom(s, i);
            && (forall j :: i < j <= k ==> Level(s[..j]) >= 0)
            && (k < |s| ==> Level(s[..k + 1]) < 0)
    decreases |s| - i
  {
    if i < |s| && Level(s[..i + 1]) >= 0 {
      CutFromMeans(s, i + 1);
    }
  }

  /**
   The substring is cut exactly at the first unmatched closing bracket: what precedes it is
   balanced, and a text without such a bracket is kept whole.
   */
  lemma BracketSubstrMeans(s: string)
    ensures var r := BracketSubstr(s);
            && r <= s && NeverNegative(r)
            && (r == s <==> NeverNegative(s))
            && (r != s ==> s[|r|] == ')' && Balanced(r))
  {
    CutFromMeans(s, 0);
    var k := CutFrom(s, 0);
    var r := s[..k];
    forall j | 0 <= j <= k ensures Level(r[..j]) >= 0 {
      assert r[..j] == s[..j];
    }
    if k < |s| {
      assert s[..k + 1][..k] == s[..k] && s[..k + 1][k] == s[k];
      assert r[..k] == r;
      assert Level(s[..k + 1]) == Level(r) + Delta(s[k]);
    } else {
      assert s[..k] == s;
    }
  }

  lemma NeverNegativeAppends(a: string, b: string)
    requires NeverNegative(a) && NeverNegative(b)
    ensures NeverNegative(a + b)
  {
    var s := a + b;
    forall i | 0 <= i <= |s| ensures Level(s[..i]) >= 0 {
      if i <= |a| {
        assert s[..i] == a[..i];
      } else {
        assert s[..i] == a + b[..i - |a|];
        LevelAppends(a, b[..i - |a|]);
        assert a[..|a|] == a;
      }
    }
  }

  /** A balanced body followed by a closing bracket is cut at that bracket. */
  lemma BracketSubstrOfBody(body: string, rest: string)
    requires Balanced(body)
    ensures BracketSubstr(body + ")" + rest) == body
  {
    var s := body + ")" + rest;
    var k := CutFrom(s, 0);
    CutFromMeans(s, 0);
    forall j | 0 <= j <= |body| ensures Level(s[..j]) >= 0 {
      assert s[..j] == body[..j];
    }
    assert s[..|body| + 1] == body + ")";
    LevelAppends(body, ")");
    assert Level(")") == -1 by {
      assert ")"[..0] == "";
    }
    assert s[..|body|] == body;
  }

  // --------------------------------------------------------------- entries

  /** str.find of one character, |s| standing for "not found". */
  function Find(s: string, c: char): (i: nat)
    ensures i <= |s|
    ensures i < |s| ==> s[i] == c
    ensures forall j :: 0 <= j < i ==> s[j] != c
  {
    if s == "" then 0 else if s[0] == c then 0 else 1 + Find(s[1..], c)
  }

  predicate IsSpecial(c: char) {
    c in {'(', ')', '=', ',', ';', ' '}
  }

  /** A token without the special symbols in it. */
  function Normalize(token: string): string {
    if token == "" then ""
    else Kept(token[0]) + Normalize(token[1..])
  }

  function Kept(c: char): string {
    if IsSpecial(c) then "" else [c]
  }

  function Remove(s: string, c: char): string {
    if s == "" then "" else (if s[0] == c then "" else [s[0]]) + Remove(s[1..], c)
  }

  /** The text after the opening bracket, or all of it when there is none. */
  function AfterOpen(value: string): (r: string)
    ensures |r| <= |value|
  {
    var j := Find(value, '(');
    if j == |value| then value else value[j + 1..]
  }

  function Entries(u: string): seq<(string, string)>
    decreases |u|
  {
    var i := Find(u, '=');
    if i == |u| then []
    else
      var value := AfterOpen(u[i + 1..]);
      if value == "" then []
      else
        var val := BracketSubstr(value);
        [(Normalize(u[..i]), val)] + Entries(value[Min(|val| + 1, |value|)..])
  }

  /** The attribute of the parameter description that a token sets. */
  function KeyOf(token: string): Option<string> {
    if token == "enum" then Some("enum")
    else if token == "string_enum" then Some("string_enum")
    else if token == "enable" then Some("enabled")
    else if token == "displayName" then Some("display_name")
    else if token == "minValue" then Some("min")
    else if token == "maxValue" then Some("max")
    else if token == "softMinValue" then Some("soft_min")
    else if token == "softMaxValue" then Some("soft_max")
    else if token == "spinStep" then Some("spin_step")
    else if token == "units" then Some("units")
    else if token == "fileAsset" then Some("file_extensions")
    else if token == "fileAssetNames" then Some("file_names")
    else if token == "fileAssetOp" then Some("file_op")
    else if token == "attributes" then Some("attributes")
    else if token == "startRollout" then Some("rollout")
    else if token == "startTab" then Some("tab")
    else None
  }

  /** The dictionary the entries leave: a later entry for the same key wins. */
  function Dictionary(entries: seq<(string, string)>): map<string, string> {
    if entries == [] then map[]
    else
      var d := Dictionary(entries[..|entries| - 1]);
      var e := entries[|entries| - 1];
      if KeyOf(e.0).Some? then d[KeyOf(e.0).value := e.1] else d
  }

  /** Six replacements, one special symbol at a time. */
  lemma {:induction false} NormalizeIsSixRemovals(t: string)
    ensures Normalize(t) ==
            Remove(Remove(Remove(Remove(Remove(Remove(t, '('), ')'), '='), ','), ';'), ' ')
  {
    if t != "" {
      NormalizeIsSixRemovals(t[1..]);
      assert Normalize(t) == Kept(t[0]) + Normalize(t[1..]);
      hide Remove, Normalize;
      var c := t[0];
      RemoveFirst(c, t[1..], '(');
      var a := Remove(t[1..], '(');
      RemoveFirst(c, a, ')');
      var b := Remove(a, ')');
      RemoveFirst(c, b, '=');
      var d := Remove(b, '=');
      RemoveFirst(c, d, ',');
      var e := Remove(d, ',');
      RemoveFirst(c, e, ';');
      var f := Remove(e, ';');
      RemoveFirst(c, f, ' ');
      assert t == [c] + t[1..];
    }
  }

  lemma RemoveFirst(c: char, s: string, x: char)
    ensures Remove([c] + s, x) == if c == x then Remove(s, x) else [c] + Remove(s, x)
  {
    assert ([c] + s)[1..] == s;
  }

  lemma EntriesStep(u: string)
    ensures var i := Find(u, '=');
            Entries(u) ==
            if i == |u| || AfterOpen(u[i + 1..]) == "" then []
            else
              var value := AfterOpen(u[i + 1..]);
              var val := BracketSubstr(value);
              [(Normalize(u[..i]), val)] + Entries(value[Min(|val| + 1, |value|)..])
  {
    hide Find, AfterOpen, BracketSubstr, Normalize;
  }

  lemma NothingToParse()
    ensures Dictionary(Entries(BracketSubstr(""))) == map[]
  {
  }

  lemma {:induction false} NormalizeKeeps(t: string)
    ensures forall c :: c in Normalize(t) ==> c !in {'(', ')', '=', ',', ';', ' '}
    ensures forall c :: c !in {'(', ')', '=', ',', ';', ' '} ==> multiset(Normalize(t))[c] == multiset(t)[c]
  {
    if t != "" {
      NormalizeKeeps(t[1..]);
      assert t == [t[0]] + t[1..];
    }
  }

  method NormalizedToken(text: string) returns (token: string)
    ensures token == Normalize(text)
    ensures forall c :: c in token ==> c !in {'(', ')', '=', ',', ';', ' '}
    ensures forall c :: c !in {'(', ')', '=', ',', ';', ' '} ==> multiset(token)[c] == multiset(text)[c]
  {
    NormalizeKeeps(text);
    token := Remove(text, '(');
    token := Remove(token, ')');
    token := Remove(token, '=');
    token := Remove(token, ',');
    token := Remove(token, ';');
    token := Remove(token, ' ');
    NormalizeIsSixRemovals(text);
  }

  method ParseUIGuides(guides: string) returns (ui: map<string, string>)
    ensures ui == Dictionary(Entries(BracketSubstr(guides)))
  {
    hide KeyOf, BracketSubstr, Normalize, Entries, Find, AfterOpen;
    ui := map[];
    if guides == "" {
      NothingToParse();
      return;
    }
    var u := GetBracketSubstr(guides);
    ghost var all := Entries(u);
    ghost var done: seq<(string, string)> := [];
    while true
      invariant done + Entries(u) == all
      invariant ui == Dictionary(done)
      decreases |u|
    {
      EntriesStep(u);
      var i := Find(u, '=');
      if i == |u| {
        break;
      }
      var token := u[..i];
      var value := u[i + 1..];
      token := NormalizedToken(token);
      value := AfterOpen(value);
      if value == "" {
        break;
      }
      var tokenval := GetBracketSubstr(value);
      u := value[Min(|tokenval| + 1, |value|)..];
      ConcatAssociates(done, [(token, tokenval)], Entries(u));
      assert (done + [(token, tokenval)])[..|done|] == done;
      done := done + [(token, tokenval)];
      var key := KeyOf(token);
      if key.Some? {
        ui := ui[key.value := tokenval];
      }
    }
    assert done + [] == done;
  }

  // --------------------------------------------------------------- round trip

  /** An entry as it is written: separators around the name, anything but brackets before the body. */
  datatype Written = Written(before: string, name: string, after: string, gap: string, body: string)

  predicate Plain(s: string) {
    forall i :: 0 <= i < |s| ==> s[i] != '(' && s[i] != ')'
  }

  predicate Separators(s: string) {
    forall i :: 0 <= i < |s| ==> s[i] in {',', ';', ' '}
  }

  predicate IsName(s: string) {
    forall i :: 0 <= i < |s| ==> !IsSpecial(s[i])
  }

  predicate WellWritten(w: Written) {
    Separators(w.before) && IsName(w.name) && Separators(w.after) && Plain(w.gap) && Balanced(w.body)
  }

  function Token(w: Written): string {
    w.before + w.name + w.after
  }

  function Write(w: Written, rest: string): string {
    Token(w) + "=" + w.gap + "(" + w.body + ")" + rest
  }

  function WriteAll(ws: seq<Written>, trailer: string): string {
    if ws == [] then trailer else Write(ws[0], WriteAll(ws[1..], trailer))
  }

  function Pairs(ws: seq<Written>): (r: seq<(string, string)>)
    ensures |r| == |ws| && forall i :: 0 <= i < |r| ==> r[i] == (ws[i].name, ws[i].body)
  {
    seq(|ws|, i requires 0 <= i < |ws| => (ws[i].name, ws[i].body))
  }

  lemma {:induction false} NormalizeAppends(a: string, b: string)
    ensures Normalize(a + b) == Normalize(a) + Normalize(b)
  {
    if a == "" {
      assert a + b == b;
    } else {
      hide Kept;
      NormalizeAppends(a[1..], b);
      assert (a + b)[1..] == a[1..] + b;
      ConcatAssociates(Kept(a[0]), Normalize(a[1..]), Normalize(b));
    }
  }

  lemma {:induction false} NormalizeSeparators(s: string)
    requires Separators(s)
    ensures Normalize(s) == ""
  {
    if s != "" {
      NormalizeSeparators(s[1..]);
    }
  }

  lemma {:induction false} NormalizeName(s: string)
    requires IsName(s)
    ensures Normalize(s) == s
  {
    if s != "" {
      NormalizeName(s[1..]);
      assert s == [s[0]] + s[1..];
    }
  }

  lemma NormalizeToken(w: Written)
    requires WellWritten(w)
    ensures Normalize(Token(w)) == w.name
  {
    NormalizeAppends(w.before + w.name, w.after);
    NormalizeAppends(w.before, w.name);
    NormalizeSeparators(w.before);
    NormalizeSeparators(w.after);
    NormalizeName(w.name);
  }

  lemma {:induction false} FindSkips(a: string, c: char, rest: string)
    requires forall i :: 0 <= i < |a| ==> a[i] != c
    ensures Find(a + [c] + rest, c) == |a|
    ensures (a + [c] + rest)[..|a|] == a && (a + [c] + rest)[|a| + 1..] == rest
  {
    var s := a + [c] + rest;
    assert s[|a|] == c;
    assert forall i :: 0 <= i < |a| ==> s[i] == a[i] != c;
  }

  /** Text without brackets changes no level. */
  lemma {:induction false} PlainLevel(s: string)
    requires Plain(s)
    ensures Level(s) == 0 && NeverNegative(s)
  {
    if s != "" {
      PlainLevel(s[..|s| - 1]);
      forall i | 0 <= i <= |s| ensures Level(s[..i]) >= 0 {
        if i < |s| {
          assert s[..i] == s[..|s| - 1][..i];
        } else {
          assert s[..i] == s;
        }
      }
    } else {
      assert s[..0] == "";
    }
  }

  lemma InBrackets(body: string)
    requires Balanced(body)
    ensures Balanced("(" + body + ")")
  {
    var s := "(" + body + ")";
    OneCharLevel('(');
    OneCharLevel(')');
    LevelAppends("(", body);
    LevelAppends("(" + body, ")");
    forall i | 0 <= i <= |s| ensures Level(s[..i]) >= 0 {
      if 1 <= i <= |body| + 1 {
        assert s[..i] == "(" + body[..i - 1];
        LevelAppends("(", body[..i - 1]);
      } else if i == 0 {
        assert s[..i] == "";
      } else {
        assert s[..i] == s;
      }
    }
  }

  lemma OneCharLevel(c: char)
    ensures Level([c]) == Delta(c)
  {
    assert [c][..0] == [];
  }

  /** A written guide never closes a bracket it has not opened, so none of it is cut off. */
  lemma {:induction false} WrittenNeverNegative(ws: seq<Written>, trailer: string)
    requires (forall i :: 0 <= i < |ws| ==> WellWritten(ws[i])) && Plain(trailer)
    ensures NeverNegative(WriteAll(ws, trailer))
  {
    if ws == [] {
      PlainLevel(trailer);
    } else {
      var w, rest := ws[0], WriteAll(ws[1..], trailer);
      WrittenNeverNegative(ws[1..], trailer);
      var head := Token(w) + "=" + w.gap;
      PlainLevel(head);
      InBrackets(w.body);
      NeverNegativeAppends(head, "(" + w.body + ")");
      NeverNegativeAppends(head + ("(" + w.body + ")"), rest);
      assert Write(w, rest) == head + ("(" + w.body + ")") + rest;
    }
  }

  lemma WriteShape(w: Written, rest: string)
    ensures Write(w, rest) == Token(w) + ['='] + (w.gap + ['('] + (w.body + ")" + rest))
  {
  }

  lemma PlainHasNo(s: string, c: char)
    requires Plain(s) && (c == '(' || c == ')')
    ensures forall i :: 0 <= i < |s| ==> s[i] != c
  {
  }

  lemma TokenHasNoEquals(w: Written)
    requires WellWritten(w)
    ensures forall i :: 0 <= i < |Token(w)| ==> Token(w)[i] != '='
  {
  }

  lemma FirstEntry(token: string, gap: string, body: string, rest: string)
    requires (forall i :: 0 <= i < |token| ==> token[i] != '=') && (forall i :: 0 <= i < |gap| ==> gap[i] != '(')
    requires Balanced(body)
    ensures Entries(token + ['='] + (gap + ['('] + (body + ")" + rest))) == [(Normalize(token), body)] + Entries(rest)
  {
    hide Balanced, Entries, Normalize, BracketSubstr, Find, AfterOpen;
    var inner := body + ")" + rest;
    var value := gap + ['('] + inner;
    FindSkips(token, '=', value);
    AfterGap(gap, inner);
    BracketSubstrOfBody(body, rest);
    assert inner[|body| + 1..] == rest;
    EntriesStep(token + ['='] + value);
  }

  lemma AfterGap(gap: string, inner: string)
    requires forall i :: 0 <= i < |gap| ==> gap[i] != '('
    ensures AfterOpen(gap + ['('] + inner) == inner
  {
    FindSkips(gap, '(', inner);
  }

  /** The loop takes one written entry off the text. */
  lemma EntriesOfWrite(w: Written, rest: string)
    requires WellWritten(w)
    ensures Entries(Write(w, rest)) == [(w.name, w.body)] + Entries(rest)
  {
    WriteShape(w, rest);
    TokenHasNoEquals(w);
    PlainHasNo(w.gap, '(');
    NormalizeToken(w);
    hide Write, Token, Entries, Normalize;
    FirstEntry(Token(w), w.gap, w.body, rest);
  }

  /** Parsing recovers exactly the written names and bodies, in order. */
  lemma ParseRecoversEntries(ws: seq<Written>, trailer: string)
    requires forall i :: 0 <= i < |ws| ==> WellWritten(ws[i])
    requires Plain(trailer) && Find(trailer, '=') == |trailer|
    ensures Entries(BracketSubstr(WriteAll(ws, trailer))) == Pairs(ws)
  {
    WrittenNeverNegative(ws, trailer);
    BracketSubstrMeans(WriteAll(ws, trailer));
    EntriesOfWritten(ws, trailer);
  }

  lemma PairsStep(ws: seq<Written>)
    requires ws != []
    ensures Pairs(ws) == [(ws[0].name, ws[0].body)] + Pairs(ws[1..])
  {
  }

  lemma {:induction false} EntriesOfWritten(ws: seq<Written>, trailer: string)
    requires forall i :: 0 <= i < |ws| ==> WellWritten(ws[i])
    requires Find(trailer, '=') == |trailer|
    ensures Entries(WriteAll(ws, trailer)) == Pairs(ws)
  {
    if ws != [] {
      hide Write, WellWritten, Entries;
      EntriesOfWritten(ws[1..], trailer);
      EntriesOfWrite(ws[0], WriteAll(ws[1..], trailer));
      PairsStep(ws);
    }
  }

  // --------------------------------------------------------------- tokens and keys

  /** The attribute of every token the parser knows. */
  lemma KeysOfTokens()
    ensures KeyOf("enum") == Some("enum") && KeyOf("string_enum") == Some("string_enum")
    ensures KeyOf("enable") == Some("enabled") && KeyOf("displayName") == Some("display_name")
    ensures KeyOf("minValue") == Some("min") && KeyOf("maxValue") == Some("max")
    ensures KeyOf("softMinValue") == Some("soft_min") && KeyOf("softMaxValue") == Some("soft_max")
    ensures KeyOf("spinStep") == Some("spin_step") && KeyOf("units") == Some("units")
    ensures KeyOf("fileAsset") == Some("file_extensions") && KeyOf("fileAssetNames") == Some("file_names")
    ensures KeyOf("fileAssetOp") == Some("file_op") && KeyOf("attributes") == Some("attributes")
    ensures KeyOf("startRollout") == Some("rollout") && KeyOf("startTab") == Some("tab")
  {
    KeysOfRanges();
    KeysOfFiles();
    KeysOfLayout();
    hide KeyOf;
  }

  lemma KeysOfRanges()
    ensures KeyOf("minValue") == Some("min") && KeyOf("maxValue") == Some("max")
    ensures KeyOf("softMinValue") == Some("soft_min") && KeyOf("softMaxValue") == Some("soft_max")
    ensures KeyOf("spinStep") == Some("spin_step")
  {
  }

  lemma KeysOfFiles()
    ensures KeyOf("units") == Some("units") && KeyOf("fileAsset") == Some("file_extensions")
    ensures KeyOf("fileAssetNames") == Some("file_names") && KeyOf("fileAssetOp") == Some("file_op")
  {
  }

  lemma KeysOfLayout()
    ensures KeyOf("enum") == Some("enum") && KeyOf("string_enum") == Some("string_enum")
    ensures KeyOf("enable") == Some("enabled") && KeyOf("displayName") == Some("display_name")
    ensures KeyOf("attributes") == Some("attributes")
    ensures KeyOf("startRollout") == Some("rollout") && KeyOf("startTab") == Some("tab")
  {
  }

  /** No two tokens set the same attribute. */
  lemma KeysAreApart(a: string, b: string)
    ensures KeyOf(a).Some? && KeyOf(a) == KeyOf(b) ==> a == b
  {
    if a in {"enum", "string_enum", "enable", "displayName"} {
      FirstKeysAreApart(a, b);
    } else if a in {"minValue", "maxValue", "softMinValue", "softMaxValue", "spinStep"} {
      RangeKeysAreApart(a, b);
    } else if a in {"units", "fileAsset", "fileAssetNames", "fileAssetOp"} {
      FileKeysAreApart(a, b);
    } else if KeyOf(a).Some? {
      LastKeysAreApart(a, b);
    }
  }

  lemma FirstKeysAreApart(a: string, b: string)
    requires a in {"enum", "string_enum", "enable", "displayName"}
    ensures KeyOf(a) == KeyOf(b) ==> a == b
  {
  }

  lemma RangeKeysAreApart(a: string, b: string)
    requires a in {"minValue", "maxValue", "softMinValue", "softMaxValue", "spinStep"}
    ensures KeyOf(a) == KeyOf(b) ==> a == b
  {
  }

  lemma FileKeysAreApart(a: string, b: string)
    requires a in {"units", "fileAsset", "fileAssetNames", "fileAssetOp"}
    ensures KeyOf(a) == KeyOf(b) ==> a == b
  {
  }

  lemma LastKeysAreApart(a: string, b: string)
    requires a in {"attributes", "startRollout", "startTab"}
    ensures KeyOf(a) == KeyOf(b) ==> a == b
  {
  }

  /** A body without brackets is the whole rest of the text. */
  lemma EntryWithoutBrackets(name: string, body: string)
    requires IsName(name) && body != "" && Plain(body)
    ensures Entries(name + "=" + body) == [(name, body)]
  {
    var u := name + ['='] + body;
    FindSkips(name, '=', body);
    NormalizeName(name);
    PlainHasNo(body, '(');
    assert AfterOpen(body) == body;
    PlainLevel(body);
    BracketSubstrMeans(body);
    EntriesStep(u);
    hide Find, AfterOpen, BracketSubstr, Normalize;
    assert Entries("") == [] by {
      assert Find("", '=') == 0;
    }
    assert body[Min(|body| + 1, |body|)..] == "";
  }
}
