/** Call sequences of the parameter list builder and the trees they describe. */
module PrmListRuns {
  import opened Wrappers
  import opened PrmTrees
  import opened PrmLists

  /** The list after a sequence of calls; None when a call breaks an assertion of the program. */
  function RunAll(calls: seq<Call>): (r: Option<Partial>)
    ensures r.Some? ==> Nested(r.value)
  {
    if calls == [] then Some(Partial([], []))
    else
      var n := |calls| - 1;
      var prev := RunAll(calls[..n]);
      if prev.None? || !Legal(prev.value, calls[n]) then None else Some(Apply(prev.value, calls[n]))
  }

  /** The sequence is legal and closes every switcher it begins. */
  predicate BalancedCalls(calls: seq<Call>) {
    RunAll(calls).Some? && RunAll(calls).value.frames == []
  }

  // ------------------------------------------- the calls that write down a tree

  function CallsOf(t: Tree): seq<Call>
    decreases t, 0
  {
    match t
    case Leaf(token) => [DoAdd(token)]
    case Switcher(token, folders) => [DoBegin(token)] + CallsOfFolders(folders) + [DoEnd]
  }

  function CallsOfFolders(folders: seq<Folder>): seq<Call>
    decreases folders
  {
    if folders == [] then []
    else
      var n := |folders| - 1;
      CallsOfFolders(folders[..n]) + [DoFolder(folders[n].title)] + CallsOfAll(folders[n].items)
  }

  function CallsOfAll(ts: seq<Tree>): seq<Call>
    decreases ts
  {
    if ts == [] then [] else CallsOfAll(ts[..|ts| - 1]) + CallsOf(ts[|ts| - 1])
  }

  function CallsOfFrames(frames: seq<Frame>): seq<Call> {
    if frames == [] then []
    else
      var n := |frames| - 1;
      CallsOfFrames(frames[..n]) + [DoBegin(frames[n].token)] + CallsOfFolders(frames[n].folders)
  }

  function CallsOfPartial(p: Partial): seq<Call> {
    CallsOfAll(p.root) + CallsOfFrames(p.frames)
  }

  lemma AppendItemCalls(folders: seq<Folder>, t: Tree)
    requires folders != []
    ensures CallsOfFolders(AppendItem(folders, t)) == CallsOfFolders(folders) + CallsOf(t)
  {
    var n := |folders| - 1;
    var r := AppendItem(folders, t);
    assert r[..n] == folders[..n];
    var items := folders[n].items;
    assert (items + [t])[..|items|] == items;
    ConcatAssociates(CallsOfFolders(folders[..n]) + [DoFolder(folders[n].title)], CallsOfAll(items), CallsOf(t));
  }

  lemma PutCalls(p: Partial, t: Tree)
    requires CanAdd(p)
    ensures CallsOfPartial(Put(p, t)) == CallsOfPartial(p) + CallsOf(t)
  {
    var q := Put(p, t);
    if p.frames == [] {
      assert (p.root + [t])[..|p.root|] == p.root;
    } else {
      var n := |p.frames| - 1;
      AppendItemCalls(p.frames[n].folders, t);
      assert q.frames[..n] == p.frames[..n];
      ConcatAssociates(CallsOfFrames(p.frames[..n]) + [DoBegin(p.frames[n].token)],
                       CallsOfFolders(p.frames[n].folders), CallsOf(t));
      ConcatAssociates(CallsOfAll(p.root), CallsOfFrames(p.frames), CallsOf(t));
    }
  }

  /** One call extends the written-down calls by itself. */
  lemma ApplyCalls(p: Partial, c: Call)
    requires Nested(p) && Legal(p, c)
    ensures CallsOfPartial(Apply(p, c)) == CallsOfPartial(p) + [c]
  {
    var q, n := Apply(p, c), |p.frames| - 1;
    match c
    case DoAdd(token) => PutCalls(p, Leaf(token));
    case DoBegin(token) =>
      assert q.frames[..n + 1] == p.frames;
      assert CallsOfFrames(q.frames) == CallsOfFrames(p.frames) + [c];
    case DoFolder(title) =>
      FolderCalls(p, title);
    case DoEnd =>
      EndCalls(p);
  }

  lemma FolderCalls(p: Partial, title: string)
    requires Nested(p) && p.frames != []
    ensures CallsOfPartial(Apply(p, DoFolder(title))) == CallsOfPartial(p) + [DoFolder(title)]
  {
    var q, n := Apply(p, DoFolder(title)), |p.frames| - 1;
    var folders := p.frames[n].folders;
    assert q.frames[..n] == p.frames[..n];
    assert (folders + [Folder(title, [])])[..|folders|] == folders;
    assert CallsOfFolders(folders + [Folder(title, [])]) == CallsOfFolders(folders) + [DoFolder(title)];
    ConcatAssociates(CallsOfFrames(p.frames[..n]) + [DoBegin(p.frames[n].token)],
                     CallsOfFolders(folders), [DoFolder(title)]);
    ConcatAssociates(CallsOfAll(p.root), CallsOfFrames(p.frames), [DoFolder(title)]);
  }

  lemma EndCalls(p: Partial)
    requires Nested(p) && CanEnd(p)
    ensures CallsOfPartial(Apply(p, DoEnd)) == CallsOfPartial(p) + [DoEnd]
  {
    var n := |p.frames| - 1;
    var f, outer := p.frames[n], Reopen(p);
    var a, b, c := CallsOfPartial(outer), [DoBegin(f.token)], CallsOfFolders(f.folders);
    ReopenCanAdd(p);
    PutCalls(outer, Switcher(f.token, f.folders));
    ConcatAssociates(CallsOfAll(p.root), CallsOfFrames(outer.frames), b + c);
    ConcatAssociates(CallsOfFrames(outer.frames), b, c);
    assert CallsOfPartial(p) == a + (b + c);
    ConcatAssociates(a, b + c, [DoEnd]);
  }

  /** The list built so far determines the calls that built it. */
  lemma {:induction false} RunIsWrittenDown(calls: seq<Call>)
    requires RunAll(calls).Some?
    ensures CallsOfPartial(RunAll(calls).value) == calls
  {
    if calls != [] {
      var n := |calls| - 1;
      RunIsWrittenDown(calls[..n]);
      ApplyCalls(RunAll(calls[..n]).value, calls[n]);
      assert calls == calls[..n] + [calls[n]];
    } else {
      assert CallsOfPartial(Partial([], [])) == [];
    }
  }

  /**
   A balanced sequence of calls is the written form of exactly one forest, and the array it
   leaves, up to the terminator, reads back as that forest.
   */
  lemma BalancedCallsEncodeTheirForest(calls: seq<Call>)
    requires BalancedCalls(calls)
    ensures var forest := RunAll(calls).value.root;
            var flat := Flat(RunAll(calls).value) + [Terminator];
            && calls == CallsOfAll(forest)
            && flat == EncodeAll(forest) + [Terminator]
            && ReadItems(flat, |forest|) == Some((forest, [Terminator]))
  {
    var p := RunAll(calls).value;
    RunIsWrittenDown(calls);
    assert CallsOfFrames([]) == [] && EncodeFrames([]) == [];
    assert CallsOfAll(p.root) + [] == CallsOfAll(p.root);
    assert EncodeAll(p.root) + [] == EncodeAll(p.root);
    ReadItemsOfEncoded(p.root, [Terminator]);
  }

  // ------------------------------------------------- every forest can be built

  ghost predicate NoEmptySwitchers(t: Tree)
    decreases t, 0
  {
    match t
    case Leaf(_) => true
    case Switcher(_, folders) => folders != [] && forall f | f in folders :: AllBuildable(f.items)
  }

  ghost predicate AllBuildable(ts: seq<Tree>)
    decreases ts
  {
    forall t | t in ts :: NoEmptySwitchers(t)
  }

  function RunFrom(p: Partial, calls: seq<Call>): (r: Option<Partial>)
    requires Nested(p)
    ensures r.Some? ==> Nested(r.value)
  {
    if calls == [] then Some(p)
    else
      var n := |calls| - 1;
      var prev := RunFrom(p, calls[..n]);
      if prev.None? || !Legal(prev.value, calls[n]) then None else Some(Apply(prev.value, calls[n]))
  }

  lemma {:induction false} RunFromAppends(p: Partial, a: seq<Call>, b: seq<Call>)
    requires Nested(p) && RunFrom(p, a).Some?
    ensures RunFrom(p, a + b) == RunFrom(RunFrom(p, a).value, b)
  {
    if b == [] {
      assert a + b == a;
    } else {
      RunFromAppends(p, a, b[..|b| - 1]);
      assert (a + b)[..|a + b| - 1] == a + b[..|b| - 1];
    }
  }

  lemma RunFromOne(p: Partial, c: Call)
    requires Nested(p) && Legal(p, c)
    ensures RunFrom(p, [c]) == Some(Apply(p, c))
  {
    assert [c][..0] == [];
  }

  function PutAll(p: Partial, ts: seq<Tree>): (r: Partial)
    requires CanAdd(p)
    ensures CanAdd(r) && |r.frames| == |p.frames| && (Nested(p) ==> Nested(r))
  {
    if ts == [] then p else Put(PutAll(p, ts[..|ts| - 1]), ts[|ts| - 1])
  }

  lemma {:induction false} CallsBuildAll(p: Partial, ts: seq<Tree>)
    requires Nested(p) && CanAdd(p) && AllBuildable(ts)
    ensures RunFrom(p, CallsOfAll(ts)) == Some(PutAll(p, ts))
    decreases ts, 1
  {
    if ts != [] {
      var n := |ts| - 1;
      CallsBuildAll(p, ts[..n]);
      CallsBuild(PutAll(p, ts[..n]), ts[n]);
      RunFromAppends(p, CallsOfAll(ts[..n]), CallsOf(ts[n]));
    }
  }

  lemma {:induction false} CallsBuild(p: Partial, t: Tree)
    requires Nested(p) && CanAdd(p) && NoEmptySwitchers(t)
    ensures RunFrom(p, CallsOf(t)) == Some(Put(p, t))
    decreases t, 0
  {
    match t
    case Leaf(token) => RunFromOne(p, DoAdd(token));
    case Switcher(token, folders) =>
      var q := Apply(p, DoBegin(token));
      RunFromOne(p, DoBegin(token));
      CallsBuildFolders(p, token, folders);
      RunFromAppends(p, [DoBegin(token)], CallsOfFolders(folders));
      var r := p.(frames := p.frames + [Frame(token, folders)]);
      RunFromOne(r, DoEnd);
      RunFromAppends(p, [DoBegin(token)] + CallsOfFolders(folders), [DoEnd]);
      assert Reopen(r) == p;
  }

  /** The list with one more open switcher, whose last folder holds the items. */
  function Started(p: Partial, token: string, folders: seq<Folder>, title: string, items: seq<Tree>): (r: Partial)
    ensures CanAdd(r) && (Nested(p) && CanAdd(p) ==> Nested(r))
  {
    p.(frames := p.frames + [Frame(token, folders + [Folder(title, items)])])
  }

  lemma PutStarted(p: Partial, token: string, folders: seq<Folder>, title: string, items: seq<Tree>, t: Tree)
    ensures Put(Started(p, token, folders, title, items), t) == Started(p, token, folders, title, items + [t])
  {
    assert AppendItem(folders + [Folder(title, items)], t) == folders + [Folder(title, items + [t])];
  }

  lemma {:induction false} PutAllStarted(p: Partial, token: string, folders: seq<Folder>, title: string, ts: seq<Tree>)
    ensures PutAll(Started(p, token, folders, title, []), ts) == Started(p, token, folders, title, ts)
  {
    hide Started, Put, PutAll, CanAdd;
    var start := Started(p, token, folders, title, []);
    PutAllStep(start, ts);
    if ts != [] {
      var n := |ts| - 1;
      PutAllStarted(p, token, folders, title, ts[..n]);
      PutStarted(p, token, folders, title, ts[..n], ts[n]);
      assert ts == ts[..n] + [ts[n]];
    }
  }

  lemma PutAllStep(p: Partial, ts: seq<Tree>)
    requires CanAdd(p)
    ensures PutAll(p, ts) == if ts == [] then p else Put(PutAll(p, ts[..|ts| - 1]), ts[|ts| - 1])
  {
    hide Put, CanAdd;
  }

  lemma FolderStarts(p: Partial, token: string, folders: seq<Folder>, title: string)
    requires Nested(p) && CanAdd(p)
    ensures var q := p.(frames := p.frames + [Frame(token, folders)]);
            Nested(q) && Legal(q, DoFolder(title))
            && Apply(q, DoFolder(title)) == Started(p, token, folders, title, [])
  {
  }

  /** The calls of one more folder, after the calls of the folders before it. */
  lemma FolderStep(p: Partial, token: string, folders: seq<Folder>, f: Folder, before: seq<Call>, start: Partial)
    requires Nested(p) && CanAdd(p) && Nested(start)
    requires RunFrom(start, before) == Some(p.(frames := p.frames + [Frame(token, folders)]))
    requires RunFrom(Started(p, token, folders, f.title, []), CallsOfAll(f.items)) ==
             Some(Started(p, token, folders, f.title, f.items))
    ensures RunFrom(start, before + [DoFolder(f.title)] + CallsOfAll(f.items)) ==
            Some(Started(p, token, folders, f.title, f.items))
  {
    var mid := p.(frames := p.frames + [Frame(token, folders)]);
    FolderStarts(p, token, folders, f.title);
    RunFromOne(mid, DoFolder(f.title));
    hide Apply, RunFrom, Started, Legal;
    RunFromAppends(start, before, [DoFolder(f.title)]);
    RunFromAppends(start, before + [DoFolder(f.title)], CallsOfAll(f.items));
  }

  lemma NoFoldersYet(p: Partial, token: string)
    requires Nested(p) && CanAdd(p)
    ensures RunFrom(Apply(p, DoBegin(token)), CallsOfFolders([])) == Some(p.(frames := p.frames + [Frame(token, [])]))
  {
  }

  lemma {:induction false} CallsBuildFolders(p: Partial, token: string, folders: seq<Folder>)
    requires Nested(p) && CanAdd(p) && forall f :: f in folders ==> AllBuildable(f.items)
    ensures RunFrom(Apply(p, DoBegin(token)), CallsOfFolders(folders)) ==
            Some(p.(frames := p.frames + [Frame(token, folders)]))
    decreases folders
  {
    assert Legal(p, DoBegin(token));
    hide *;
    if folders == [] {
      NoFoldersYet(p, token);
    } else {
      var n := |folders| - 1;
      var first, f := folders[..n], folders[n];
      assert folders == first + [f];
      assert f in folders && forall g :: g in first ==> g in folders;
      CallsBuildFolders(p, token, first);
      CallsBuildAll(Started(p, token, first, f.title, []), f.items);
      PutAllStarted(p, token, first, f.title, f.items);
      FolderStep(p, token, first, f, CallsOfFolders(first), Apply(p, DoBegin(token)));
      StartedIsFrame(p, token, first, f);
      CallsOfLastFolder(first, f);
    }
  }

  lemma StartedIsFrame(p: Partial, token: string, folders: seq<Folder>, f: Folder)
    ensures Started(p, token, folders, f.title, f.items) == p.(frames := p.frames + [Frame(token, folders + [f])])
  {
  }

  lemma CallsOfLastFolder(folders: seq<Folder>, f: Folder)
    ensures CallsOfFolders(folders + [f]) == CallsOfFolders(folders) + [DoFolder(f.title)] + CallsOfAll(f.items)
  {
    assert (folders + [f])[..|folders|] == folders;
  }

  lemma {:induction false} RunFromStart(calls: seq<Call>)
    ensures RunAll(calls) == RunFrom(Partial([], []), calls)
  {
    if calls != [] {
      RunFromStart(calls[..|calls| - 1]);
    }
  }

  lemma {:induction false} PutAllAtTop(root: seq<Tree>, ts: seq<Tree>)
    ensures PutAll(Partial(root, []), ts) == Partial(root + ts, [])
  {
    if ts == [] {
      assert root + ts == root;
    } else {
      var n := |ts| - 1;
      PutAllAtTop(root, ts[..n]);
      assert root + ts == (root + ts[..n]) + [ts[n]];
    }
  }

  /** The calls that write a forest down build exactly that forest, whenever every switcher has a folder. */
  lemma WrittenCallsBuildForest(forest: seq<Tree>)
    requires AllBuildable(forest)
    ensures BalancedCalls(CallsOfAll(forest)) && RunAll(CallsOfAll(forest)).value.root == forest
  {
    CallsBuildAll(Partial([], []), forest);
    PutAllAtTop([], forest);
    RunFromStart(CallsOfAll(forest));
  }

  // -------------------------------------------------------------- counting

  function SumCounts(infos: seq<FolderInfo>): int {
    if infos == [] then 0 else SumCounts(infos[..|infos| - 1]) + infos[|infos| - 1].count
  }

  function FolderCounts(prms: seq<Prm>): int {
    if prms == [] then 0
    else
      var last := prms[|prms| - 1];
      FolderCounts(prms[..|prms| - 1]) + (if last.SwitcherPrm? then SumCounts(last.folders) else 0)
  }

  lemma {:induction false} FolderCountsAppends(a: seq<Prm>, b: seq<Prm>)
    ensures FolderCounts(a + b) == FolderCounts(a) + FolderCounts(b)
  {
    if b == [] {
      assert a + b == a;
    } else {
      FolderCountsAppends(a, b[..|b| - 1]);
      assert (a + b)[..|a + b| - 1] == a + b[..|b| - 1];
    }
  }

  lemma {:induction false} ForestCounts(ts: seq<Tree>)
    ensures FolderCounts(EncodeAll(ts)) + |ts| == |EncodeAll(ts)|
    decreases ts, 1
  {
    if ts != [] {
      var n := |ts| - 1;
      ForestCounts(ts[..n]);
      TreeCounts(ts[n]);
      FolderCountsAppends(EncodeAll(ts[..n]), Encode(ts[n]));
    }
  }

  lemma {:induction false} TreeCounts(t: Tree)
    ensures FolderCounts(Encode(t)) + 1 == |Encode(t)|
    decreases t, 0
  {
    match t
    case Leaf(token) =>
      assert [Plain(token)][..0] == [];
    case Switcher(token, folders) =>
      FoldersCounts(folders);
      FolderCountsAppends([SwitcherPrm(token, Infos(folders))], EncodeFolders(folders));
      assert [SwitcherPrm(token, Infos(folders))][..0] == [];
  }

  lemma {:induction false} FoldersCounts(folders: seq<Folder>)
    ensures FolderCounts(EncodeFolders(folders)) + SumCounts(Infos(folders)) == |EncodeFolders(folders)|
    decreases folders
  {
    if folders != [] {
      var n := |folders| - 1;
      FoldersCounts(folders[..n]);
      ForestCounts(folders[n].items);
      FolderCountsAppends(EncodeFolders(folders[..n]), EncodeAll(folders[n].items));
      assert Infos(folders)[..n] == Infos(folders[..n]);
    }
  }

  /** After a balanced sequence, folder counts plus top-level parameters sum to the number of parameters. */
  lemma CountsSumToSize(list: PRMList)
    requires list.Valid() && list.partial.frames == []
    ensures FolderCounts(list.prmVec[..list.Size()]) + |list.partial.root| == list.Size()
    ensures list.prmVec[list.Size()] == Terminator
  {
    var root := list.partial.root;
    assert EncodeFrames([]) == [];
    assert EncodeAll(root) + [] == EncodeAll(root);
    assert list.prmVec == EncodeAll(root) + [Terminator];
    assert list.prmVec[..list.Size()] == EncodeAll(root);
    ForestCounts(root);
  }
}
