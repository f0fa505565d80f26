/**
 Parameter trees and their flat encoding: a terminated array in which a switcher lists its
 folders with the number of parameters each holds, and the folders' contents follow.
 */
module PrmTrees {
  import opened Wrappers

  datatype Tree = Leaf(token: string) | Switcher(token: string, folders: seq<Folder>)

  datatype Folder = Folder(title: string, items: seq<Tree>)

  datatype FolderInfo = FolderInfo(title: string, count: int)

  /** An array element. A switcher's folders are filled in when it is closed. */
  datatype Prm = Terminator | Plain(token: string) | SwitcherPrm(token: string, folders: seq<FolderInfo>)

  function Infos(folders: seq<Folder>): (r: seq<FolderInfo>)
    ensures |r| == |folders|
    ensures forall i :: 0 <= i < |r| ==> r[i] == FolderInfo(folders[i].title, |folders[i].items|)
  {
    seq(|folders|, i requires 0 <= i < |folders| => FolderInfo(folders[i].title, |folders[i].items|))
  }

  /** The pre-order encoding. */
  function Encode(t: Tree): (r: seq<Prm>)
    ensures r != []
    decreases t, 0
  {
    match t
    case Leaf(token) => [Plain(token)]
    case Switcher(token, folders) => [SwitcherPrm(token, Infos(folders))] + EncodeFolders(folders)
  }

  function EncodeFolders(folders: seq<Folder>): seq<Prm>
    decreases folders
  {
    if folders == [] then []
    else
      var n := |folders| - 1;
      EncodeFolders(folders[..n]) + EncodeAll(folders[n].items)
  }

  function EncodeAll(ts: seq<Tree>): seq<Prm>
    decreases ts
  {
    if ts == [] then []
    else EncodeAll(ts[..|ts| - 1]) + Encode(ts[|ts| - 1])
  }

  // ------------------------------------------------------------ reading back

  /** Reads n parameters off the front; returns them and the rest of the array. */
  function ReadItems(prms: seq<Prm>, n: int): (r: Option<(seq<Tree>, seq<Prm>)>)
    ensures r.Some? ==> |r.value.1| <= |prms|
    decreases |prms|, 1, n
  {
    if n <= 0 then Some(([], prms))
    else if prms == [] then None
    else match prms[0]
      case Terminator => None
      case Plain(token) =>
        var rest := ReadItems(prms[1..], n - 1);
        if rest.None? then None else Some(([Leaf(token)] + rest.value.0, rest.value.1))
      case SwitcherPrm(token, infos) =>
        var inside := ReadFolders(prms[1..], infos);
        if inside.None? then None
        else
          var rest := ReadItems(inside.value.1, n - 1);
          if rest.None? then None
          else Some(([Switcher(token, inside.value.0)] + rest.value.0, rest.value.1))
  }

  function ReadFolders(prms: seq<Prm>, infos: seq<FolderInfo>): (r: Option<(seq<Folder>, seq<Prm>)>)
    ensures r.Some? ==> |r.value.1| <= |prms|
    decreases |prms|, 2, |infos|
  {
    if infos == [] then Some(([], prms))
    else
      var first := ReadItems(prms, infos[0].count);
      if first.None? then None
      else
        var rest := ReadFolders(first.value.1, infos[1..]);
        if rest.None? then None
        else Some(([Folder(infos[0].title, first.value.0)] + rest.value.0, rest.value.1))
  }

  // ------------------------------------------------------ reading undoes encoding

  lemma {:induction false} EncodeAllFirst(t: Tree, ts: seq<Tree>)
    ensures EncodeAll([t] + ts) == Encode(t) + EncodeAll(ts)
  {
    if ts == [] {
      assert [t] + ts == [t] && [t][..0] == [];
    } else {
      var n := |ts| - 1;
      hide Encode;
      EncodeAllFirst(t, ts[..n]);
      assert ([t] + ts)[..n + 1] == [t] + ts[..n];
      ConcatAssociates(Encode(t), EncodeAll(ts[..n]), Encode(ts[n]));
    }
  }

  lemma {:induction false} EncodeFoldersFirst(f: Folder, fs: seq<Folder>)
    ensures EncodeFolders([f] + fs) == EncodeAll(f.items) + EncodeFolders(fs)
  {
    if fs == [] {
      assert [f] + fs == [f] && [f][..0] == [];
    } else {
      var n := |fs| - 1;
      hide EncodeAll;
      EncodeFoldersFirst(f, fs[..n]);
      assert ([f] + fs)[..n + 1] == [f] + fs[..n];
      ConcatAssociates(EncodeAll(f.items), EncodeFolders(fs[..n]), EncodeAll(fs[n].items));
    }
  }

  lemma ReadLeaf(token: string, tail: seq<Prm>, more: seq<Tree>, rest: seq<Prm>)
    requires ReadItems(tail, |more|) == Some((more, rest))
    ensures ReadItems([Plain(token)] + tail, |more| + 1) == Some(([Leaf(token)] + more, rest))
  {
    assert ([Plain(token)] + tail)[1..] == tail;
  }

  lemma ReadSwitcher(token: string, folders: seq<Folder>, tail: seq<Prm>, more: seq<Tree>, rest: seq<Prm>)
    requires ReadFolders(EncodeFolders(folders) + tail, Infos(folders)) == Some((folders, tail))
    requires ReadItems(tail, |more|) == Some((more, rest))
    ensures ReadItems([SwitcherPrm(token, Infos(folders))] + EncodeFolders(folders) + tail, |more| + 1) ==
            Some(([Switcher(token, folders)] + more, rest))
  {
    hide EncodeFolders, ReadFolders;
    var prms := [SwitcherPrm(token, Infos(folders))] + EncodeFolders(folders) + tail;
    assert prms[1..] == EncodeFolders(folders) + tail;
  }

  /** Reading |ts| parameters off an encoded forest gives the forest back and leaves what follows. */
  lemma {:induction false} ReadItemsOfEncoded(ts: seq<Tree>, rest: seq<Prm>)
    ensures ReadItems(EncodeAll(ts) + rest, |ts|) == Some((ts, rest))
    decreases ts, 1
  {
    if ts == [] {
      assert EncodeAll(ts) + rest == rest;
    } else {
      hide ReadItems, ReadFolders, EncodeAll, EncodeFolders;
      var t, more := ts[0], ts[1..];
      assert ts == [t] + more;
      EncodeAllFirst(t, more);
      ReadItemsOfEncoded(more, rest);
      var tail := EncodeAll(more) + rest;
      ConcatAssociates(Encode(t), EncodeAll(more), rest);
      match t
      case Leaf(token) =>
        ReadLeaf(token, tail, more, rest);
      case Switcher(token, folders) =>
        ReadFoldersOfEncoded(folders, tail);
        ReadSwitcher(token, folders, tail, more, rest);
    }
  }

  lemma {:induction false} ReadFoldersOfEncoded(folders: seq<Folder>, rest: seq<Prm>)
    ensures ReadFolders(EncodeFolders(folders) + rest, Infos(folders)) == Some((folders, rest))
    decreases folders, 0
  {
    if folders == [] {
      assert EncodeFolders(folders) + rest == rest;
    } else {
      var f, more := folders[0], folders[1..];
      assert folders == [f] + more;
      EncodeFoldersFirst(f, more);
      ConcatAssociates(EncodeAll(f.items), EncodeFolders(more), rest);
      ReadItemsOfEncoded(f.items, EncodeFolders(more) + rest);
      ReadFoldersOfEncoded(more, rest);
      assert Infos(folders)[1..] == Infos(more);
    }
  }
}
