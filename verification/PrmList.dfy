/** The parameter list builder: nested switcher and folder calls that write the flat array. */
module PrmLists {
  import opened Wrappers
  import opened PrmTrees

  // ------------------------------------------------------ what the calls describe

  datatype Call = DoAdd(token: string) | DoBegin(token: string) | DoFolder(title: string) | DoEnd

  /** A switcher that is still open, with the folders added to it so far. */
  datatype Frame = Frame(token: string, folders: seq<Folder>)

  /** A list under construction: the finished top-level trees, then the open switchers, outermost first. */
  datatype Partial = Partial(root: seq<Tree>, frames: seq<Frame>)

  /** A parameter can be added outside all switchers or to the innermost one's last folder. */
  predicate CanAdd(p: Partial) {
    p.frames == [] || p.frames[|p.frames| - 1].folders != []
  }

  predicate CanEnd(p: Partial) {
    p.frames != [] && p.frames[|p.frames| - 1].folders != []
  }

  /** What the program asserts of each call. */
  predicate Legal(p: Partial, c: Call) {
    match c
    case DoAdd(_) => CanAdd(p)
    case DoBegin(_) => CanAdd(p)
    case DoFolder(_) => p.frames != []
    case DoEnd => CanEnd(p)
  }

  function AppendItem(folders: seq<Folder>, t: Tree): (r: seq<Folder>)
    requires folders != []
    ensures |r| == |folders|
  {
    var n := |folders| - 1;
    folders[n := Folder(folders[n].title, folders[n].items + [t])]
  }

  function Put(p: Partial, t: Tree): Partial
    requires CanAdd(p)
  {
    if p.frames == [] then p.(root := p.root + [t])
    else
      var n := |p.frames| - 1;
      p.(frames := p.frames[n := p.frames[n].(folders := AppendItem(p.frames[n].folders, t))])
  }

  function Apply(p: Partial, c: Call): (r: Partial)
    requires Nested(p) && Legal(p, c)
    ensures Nested(r)
  {
    var n := |p.frames| - 1;
    match c
    case DoAdd(token) => Put(p, Leaf(token))
    case DoBegin(token) => p.(frames := p.frames + [Frame(token, [])])
    case DoFolder(title) =>
      p.(frames := p.frames[n := p.frames[n].(folders := p.frames[n].folders + [Folder(title, [])])])
    case DoEnd =>
      ReopenCanAdd(p);
      Put(Reopen(p), Switcher(p.frames[n].token, p.frames[n].folders))
  }

  /** The list without its innermost open switcher. */
  function Reopen(p: Partial): Partial
    requires p.frames != []
  {
    p.(frames := p.frames[..|p.frames| - 1])
  }

  /** Every open switcher around another one has a folder for it. */
  predicate Nested(p: Partial) {
    forall j :: 0 <= j < |p.frames| - 1 ==> p.frames[j].folders != []
  }

  lemma ReopenCanAdd(p: Partial)
    requires Nested(p) && p.frames != []
    ensures CanAdd(Reopen(p))
  {
  }

  // ------------------------------------------------------------ the flat array

  function EncodeFrames(frames: seq<Frame>): seq<Prm> {
    if frames == [] then []
    else
      var n := |frames| - 1;
      EncodeFrames(frames[..n]) + [SwitcherPrm(frames[n].token, [])] + EncodeFolders(frames[n].folders)
  }

  /** The array without its terminator. */
  function Flat(p: Partial): seq<Prm> {
    EncodeAll(p.root) + EncodeFrames(p.frames)
  }

  /** The counts kept for an open switcher; one around another open one counts that as well. */
  function OpenInfos(f: Frame, isInnermost: bool): (r: seq<FolderInfo>)
    ensures |r| == |f.folders|
  {
    var infos := Infos(f.folders);
    if isInnermost || infos == [] then infos
    else
      var n := |infos| - 1;
      infos[n := infos[n].(count := infos[n].count + 1)]
  }

  lemma AppendItemEncodes(folders: seq<Folder>, t: Tree)
    requires folders != []
    ensures EncodeFolders(AppendItem(folders, t)) == EncodeFolders(folders) + Encode(t)
  {
    var n := |folders| - 1;
    var r := AppendItem(folders, t);
    assert r[..n] == folders[..n];
    var items := folders[n].items;
    assert (items + [t])[..|items|] == items;
    ConcatAssociates(EncodeFolders(folders[..n]), EncodeAll(items), Encode(t));
  }

  /** Putting a tree appends its encoding to the array. */
  lemma PutAppends(p: Partial, t: Tree)
    requires CanAdd(p)
    ensures Flat(Put(p, t)) == Flat(p) + Encode(t)
  {
    var q := Put(p, t);
    if p.frames == [] {
      assert (p.root + [t])[..|p.root|] == p.root;
    } else {
      var n := |p.frames| - 1;
      var before := EncodeFrames(p.frames[..n]) + [SwitcherPrm(p.frames[n].token, [])];
      AppendItemEncodes(p.frames[n].folders, t);
      assert q.frames[..n] == p.frames[..n];
      ConcatAssociates(before, EncodeFolders(p.frames[n].folders), Encode(t));
      ConcatAssociates(EncodeAll(p.root), EncodeFrames(p.frames), Encode(t));
    }
  }

  lemma PutKeepsInfos(p: Partial, t: Tree)
    requires p.frames != [] && CanAdd(p)
    ensures var n := |p.frames| - 1;
            && |Put(p, t).frames| == |p.frames| && Put(p, t).frames[..n] == p.frames[..n]
            && Put(p, t).frames[n].token == p.frames[n].token
            && OpenInfos(Put(p, t).frames[n], true) == OpenInfos(p.frames[n], false)
  {
    var n := |p.frames| - 1;
    var a, b := OpenInfos(Put(p, t).frames[n], true), OpenInfos(p.frames[n], false);
    forall i | 0 <= i < |a| ensures a[i] == b[i] {
      if i < |a| - 1 {
        assert Put(p, t).frames[n].folders[i] == p.frames[n].folders[i];
      }
    }
  }

  datatype SwitcherInfo = SwitcherInfo(parmIdx: nat, folders: seq<FolderInfo>)

  class PRMList {
    var prmVec: seq<Prm>
    /** Every switcher ever begun. */
    var switcherList: seq<SwitcherInfo>
    /** The open ones, as positions in switcherList. */
    var switcherStack: seq<nat>

    /** What the calls so far describe. */
    ghost var partial: Partial

    ghost predicate Valid()
      reads this
    {
      && Nested(partial)
      && prmVec == Flat(partial) + [Terminator]
      && |switcherStack| == |partial.frames|
      && (forall j :: 0 <= j < |switcherStack| ==> switcherStack[j] < |switcherList|)
      && (forall i, j :: 0 <= i < j < |switcherStack| ==> switcherStack[i] != switcherStack[j])
      && (forall j :: 0 <= j < |switcherStack| ==> InfoMatches(partial, j, switcherList[switcherStack[j]]))
    }

    constructor ()
      ensures Valid() && partial == Partial([], [])
    {
      prmVec := [Terminator];
      switcherList := [];
      switcherStack := [];
      partial := Partial([], []);
    }

    function Size(): int
      reads this
    {
      Max(|prmVec| - 1, 0)
    }

    method Clear()
      modifies this
      ensures Valid() && partial == Partial([], [])
    {
      switcherList := [];
      switcherStack := [];
      prmVec := [Terminator];
      partial := Partial([], []);
    }

    /** One more parameter in the innermost open folder, if a switcher is open. */
    method IncCurrentFolderPrmCnt(cnt: int)
      requires forall j :: 0 <= j < |switcherStack| ==> switcherStack[j] < |switcherList|
      requires switcherStack != [] ==> switcherList[switcherStack[|switcherStack| - 1]].folders != []
      modifies this`switcherList
      ensures |switcherList| == |old(switcherList)|
      ensures forall i :: 0 <= i < |switcherList| ==>
                switcherList[i] ==
                if switcherStack != [] && i == switcherStack[|switcherStack| - 1]
                then Bumped(old(switcherList[i]), cnt) else old(switcherList[i])
      ensures switcherStack != [] ==>
                var last := switcherStack[|switcherStack| - 1];
                var before, after := old(switcherList)[last].folders, switcherList[last].folders;
                var n := |before| - 1;
                && |after| == |before| && after[..n] == before[..n] && after[n].title == before[n].title
                && after[n].count == (if before[n].count + cnt < 0 then 0 else before[n].count + cnt)
                && switcherList[last].parmIdx == old(switcherList)[last].parmIdx
    {
      if switcherStack == [] {
        return;
      }
      var cur := switcherStack[|switcherStack| - 1];
      var info := switcherList[cur];
      var n := |info.folders| - 1;
      var def := info.folders[n];
      var c := Max(-def.count, cnt);
      switcherList := switcherList[cur := info.(folders := info.folders[n := def.(count := def.count + c)])];
    }

    method AddElement(p: Prm)
      requires Valid() && CanAdd(partial)
      modifies this`prmVec, this`switcherList
      ensures prmVec == Flat(partial) + [p] + [Terminator]
      ensures |switcherList| == |old(switcherList)|
      ensures forall i :: 0 <= i < |switcherList| ==>
                switcherList[i] ==
                if switcherStack != [] && i == switcherStack[|switcherStack| - 1]
                then Bumped(old(switcherList[i]), 1) else old(switcherList[i])
    {
      assert switcherStack != [] ==>
               InfoMatches(partial, |switcherStack| - 1, switcherList[switcherStack[|switcherStack| - 1]]);
      prmVec := prmVec[|prmVec| - 1 := p];
      prmVec := prmVec + [Terminator];
      IncCurrentFolderPrmCnt(1);
    }

    method AddPrm(token: string)
      requires Valid() && Legal(partial, DoAdd(token))
      modifies this
      ensures Valid() && partial == Apply(old(partial), DoAdd(token))
    {
      AddElement(Plain(token));
      PutAppends(partial, Leaf(token));
      ghost var was := partial;
      partial := Put(partial, Leaf(token));
      if was.frames != [] {
        PutMatches(was, Leaf(token), old(switcherList), switcherList, switcherStack);
      }
    }

    method SwitcherBegin(token: string)
      requires Valid() && Legal(partial, DoBegin(token))
      modifies this
      ensures Valid() && partial == Apply(old(partial), DoBegin(token))
    {
      hide Flat, InfoMatches, Apply;
      ghost var before := switcherList;
      ghost var was := partial;
      switcherList := switcherList + [SwitcherInfo(Size(), [])];
      AddElement(SwitcherPrm(token, []));
      switcherStack := switcherStack + [|switcherList| - 1];
      partial := Apply(partial, DoBegin(token));
      BeginMatches(was, token, before, switcherList, switcherStack);
    }

    method AddFolder(title: string)
      requires Valid() && Legal(partial, DoFolder(title))
      modifies this
      ensures Valid() && partial == Apply(old(partial), DoFolder(title))
    {
      var cur := switcherStack[|switcherStack| - 1];
      var info := switcherList[cur];
      ghost var before := switcherList;
      ghost var was := partial;
      switcherList := switcherList[cur := info.(folders := info.folders + [FolderInfo(title, 0)])];
      partial := Apply(partial, DoFolder(title));
      FolderMatches(was, title, before, switcherList, switcherStack);
    }

    method SwitcherEnd()
      requires Valid() && Legal(partial, DoEnd)
      modifies this
      ensures Valid() && partial == Apply(old(partial), DoEnd)
    {
      var n := |switcherStack| - 1;
      var info := switcherList[switcherStack[n]];
      EndRewrites(partial, info);
      prmVec := prmVec[info.parmIdx := SwitcherPrm(prmVec[info.parmIdx].token, info.folders)];
      switcherStack := switcherStack[..n];
      ghost var was := partial;
      partial := Apply(partial, DoEnd);
      EndMatches(was, switcherList, old(switcherStack));
    }
  }

  /** A switcher's folders after cnt more parameters in its last folder. */
  function Bumped(info: SwitcherInfo, cnt: int): SwitcherInfo {
    if info.folders == [] then info
    else
      var n := |info.folders| - 1;
      var def := info.folders[n];
      info.(folders := info.folders[n := def.(count := def.count + Max(-def.count, cnt))])
  }

  /** The stored info of the j-th open switcher. */
  ghost predicate InfoMatches(p: Partial, j: nat, info: SwitcherInfo)
    requires j < |p.frames|
  {
    && info.parmIdx == |Flat(p.(frames := p.frames[..j]))|
    && info.folders == OpenInfos(p.frames[j], j == |p.frames| - 1)
  }

  lemma BumpedInfos(f: Frame, info: SwitcherInfo)
    requires info.folders == OpenInfos(f, true) && f.folders != []
    ensures Bumped(info, 1).folders == OpenInfos(f, false)
  {
  }

  lemma PutMatches(p: Partial, t: Tree, before: seq<SwitcherInfo>, after: seq<SwitcherInfo>, stack: seq<nat>)
    requires p.frames != [] && CanAdd(p) && |stack| == |p.frames| && |before| == |after|
    requires forall j :: 0 <= j < |stack| ==> stack[j] < |before|
    requires forall i, j :: 0 <= i < j < |stack| ==> stack[i] != stack[j]
    requires forall j :: 0 <= j < |stack| ==> InfoMatches(p, j, before[stack[j]])
    requires forall i :: 0 <= i < |after| ==>
               after[i] == if i == stack[|stack| - 1] then Bumped(before[i], 1) else before[i]
    ensures forall j :: 0 <= j < |stack| ==> InfoMatches(Put(p, t), j, after[stack[j]])
  {
    var q, n := Put(p, t), |p.frames| - 1;
    PutKeepsInfos(p, t);
    forall j | 0 <= j < |stack| ensures InfoMatches(q, j, after[stack[j]]) {
      assert InfoMatches(p, j, before[stack[j]]);
      assert q.frames[..j] == p.frames[..j];
      assert q.(frames := q.frames[..j]) == p.(frames := p.frames[..j]);
      if j == n {
        BumpedInfos(p.frames[n], before[stack[n]]);
      } else {
        assert q.frames[j] == p.frames[..n][j];
      }
    }
  }

  /** What is stored for an open switcher depends on the frames before it and on itself. */
  lemma SamePrefixMatches(p: Partial, q: Partial, j: nat, info: SwitcherInfo, info': SwitcherInfo)
    requires j < |p.frames| && j < |q.frames| && p.root == q.root && p.frames[..j] == q.frames[..j]
    requires InfoMatches(p, j, info) && info'.parmIdx == info.parmIdx
    requires info'.folders == OpenInfos(q.frames[j], j == |q.frames| - 1)
    ensures InfoMatches(q, j, info')
  {
    hide Flat, OpenInfos;
    assert p.(frames := p.frames[..j]) == q.(frames := q.frames[..j]);
  }

  lemma BeginMatchesOuter(p: Partial, token: string, j: nat, info: SwitcherInfo)
    requires CanAdd(p) && j < |p.frames| && InfoMatches(p, j, info)
    ensures var q := p.(frames := p.frames + [Frame(token, [])]);
            InfoMatches(q, j, if j == |p.frames| - 1 then Bumped(info, 1) else info)
  {
    var q := p.(frames := p.frames + [Frame(token, [])]);
    var after := if j == |p.frames| - 1 then Bumped(info, 1) else info;
    assert info.folders == OpenInfos(p.frames[j], j == |p.frames| - 1);
    if j == |p.frames| - 1 {
      BumpedInfos(p.frames[j], info);
    }
    assert q.frames[j] == p.frames[j];
    hide Flat, OpenInfos, InfoMatches;
    SamePrefixMatches(p, q, j, info, after);
  }

  lemma BeginFlat(p: Partial, token: string)
    requires Nested(p) && CanAdd(p)
    ensures var q := Apply(p, DoBegin(token));
            && Flat(q) == Flat(p) + [SwitcherPrm(token, [])]
            && InfoMatches(q, |p.frames|, SwitcherInfo(|Flat(p)|, []))
  {
    var q, n := Apply(p, DoBegin(token)), |p.frames|;
    assert q.frames == p.frames + [Frame(token, [])];
    hide Apply, EncodeAll, EncodeFrames;
    OpenedFrames(p.frames, token);
    assert q.frames[..n] == p.frames;
    assert q.(frames := q.frames[..n]) == p;
    ConcatAssociates(EncodeAll(p.root), EncodeFrames(p.frames), [SwitcherPrm(token, [])]);
  }

  lemma OpenedFrames(frames: seq<Frame>, token: string)
    ensures EncodeFrames(frames + [Frame(token, [])]) == EncodeFrames(frames) + [SwitcherPrm(token, [])]
  {
    assert (frames + [Frame(token, [])])[..|frames|] == frames;
    assert EncodeFolders([]) == [];
  }

  lemma BeginMatches(p: Partial, token: string, before: seq<SwitcherInfo>, after: seq<SwitcherInfo>, stack: seq<nat>)
    requires Nested(p) && CanAdd(p) && |stack| == |p.frames| + 1 && |after| == |before| + 1
    requires stack[|p.frames|] == |before|
    requires forall j :: 0 <= j < |p.frames| ==> stack[j] < |before|
    requires forall i, j :: 0 <= i < j < |p.frames| ==> stack[i] != stack[j]
    requires forall j :: 0 <= j < |p.frames| ==> InfoMatches(p, j, before[stack[j]])
    requires after[|before|] == SwitcherInfo(|Flat(p)|, [])
    requires forall i :: 0 <= i < |before| ==>
               after[i] == if p.frames != [] && i == stack[|p.frames| - 1] then Bumped(before[i], 1) else before[i]
    ensures var q := Apply(p, DoBegin(token));
            && |q.frames| == |stack|
            && Flat(q) == Flat(p) + [SwitcherPrm(token, [])]
            && forall j :: 0 <= j < |stack| ==> InfoMatches(q, j, after[stack[j]])
  {
    var q, n := Apply(p, DoBegin(token)), |p.frames|;
    BeginFlat(p, token);
    hide Flat, InfoMatches, OpenInfos, Nested, Bumped;
    assert q.frames == p.frames + [Frame(token, [])];
    forall j | 0 <= j < |stack| ensures InfoMatches(q, j, after[stack[j]]) {
      if j < n {
        assert after[stack[j]] == if j == n - 1 then Bumped(before[stack[j]], 1) else before[stack[j]];
        BeginMatchesOuter(p, token, j, before[stack[j]]);
      }
    }
  }

  lemma FolderMatches(p: Partial, title: string, before: seq<SwitcherInfo>, after: seq<SwitcherInfo>, stack: seq<nat>)
    requires Nested(p) && p.frames != [] && |stack| == |p.frames| && |after| == |before|
    requires forall j :: 0 <= j < |stack| ==> stack[j] < |before|
    requires forall i, j :: 0 <= i < j < |stack| ==> stack[i] != stack[j]
    requires forall j :: 0 <= j < |stack| ==> InfoMatches(p, j, before[stack[j]])
    requires forall i :: 0 <= i < |after| ==>
               after[i] == if i == stack[|stack| - 1]
                           then before[i].(folders := before[i].folders + [FolderInfo(title, 0)]) else before[i]
    ensures var q := Apply(p, DoFolder(title));
            && Flat(q) == Flat(p)
            && forall j :: 0 <= j < |stack| ==> InfoMatches(q, j, after[stack[j]])
  {
    var q, n := Apply(p, DoFolder(title)), |p.frames| - 1;
    var folders := p.frames[n].folders;
    assert q.frames[..n] == p.frames[..n];
    assert (folders + [Folder(title, [])])[..|folders|] == folders;
    assert EncodeFolders(folders + [Folder(title, [])]) == EncodeFolders(folders) + [] == EncodeFolders(folders);
    forall j | 0 <= j < |stack| ensures InfoMatches(q, j, after[stack[j]]) {
      assert InfoMatches(p, j, before[stack[j]]);
      assert q.frames[..j] == p.frames[..j];
      assert q.(frames := q.frames[..j]) == p.(frames := p.frames[..j]);
      if j == n {
        assert Infos(folders + [Folder(title, [])]) == Infos(folders) + [FolderInfo(title, 0)];
      }
    }
  }

  /** Filling in the folders of the innermost switcher turns its part of the array into its encoding. */
  lemma EndRewrites(p: Partial, info: SwitcherInfo)
    requires Nested(p) && CanEnd(p) && InfoMatches(p, |p.frames| - 1, info)
    ensures var n := |p.frames| - 1;
            && info.parmIdx < |Flat(p)|
            && Flat(p)[info.parmIdx] == SwitcherPrm(p.frames[n].token, [])
            && Flat(Apply(p, DoEnd)) == Flat(p)[info.parmIdx := SwitcherPrm(p.frames[n].token, info.folders)]
  {
    var n := |p.frames| - 1;
    var f := p.frames[n];
    var outer := Reopen(p);
    var a, c := Flat(outer), EncodeFolders(f.folders);
    ReopenCanAdd(p);
    PutAppends(outer, Switcher(f.token, f.folders));
    ConcatAssociates(EncodeAll(p.root), EncodeFrames(outer.frames), [SwitcherPrm(f.token, [])] + c);
    ConcatAssociates(EncodeFrames(outer.frames), [SwitcherPrm(f.token, [])], c);
    assert Flat(p) == a + ([SwitcherPrm(f.token, [])] + c);
    assert Flat(Apply(p, DoEnd)) == a + ([SwitcherPrm(f.token, info.folders)] + c);
  }

  lemma EndMatches(p: Partial, infos: seq<SwitcherInfo>, stack: seq<nat>)
    requires Nested(p) && CanEnd(p) && |stack| == |p.frames|
    requires forall j :: 0 <= j < |stack| ==> stack[j] < |infos|
    requires forall j :: 0 <= j < |stack| ==> InfoMatches(p, j, infos[stack[j]])
    ensures forall j :: 0 <= j < |stack| - 1 ==> InfoMatches(Apply(p, DoEnd), j, infos[stack[j]])
  {
    var n := |p.frames| - 1;
    var outer, t := Reopen(p), Switcher(p.frames[n].token, p.frames[n].folders);
    var q := Apply(p, DoEnd);
    ReopenCanAdd(p);
    if n > 0 {
      PutKeepsInfos(outer, t);
    }
    forall j | 0 <= j < n ensures InfoMatches(q, j, infos[stack[j]]) {
      assert InfoMatches(p, j, infos[stack[j]]);
      assert q.frames[..j] == p.frames[..j];
      if j < n - 1 {
        assert q.frames[j] == q.frames[..n - 1][j] == outer.frames[..n - 1][j];
      }
      SamePrefixMatches(p, q, j, infos[stack[j]], infos[stack[j]]);
    }
  }
}
