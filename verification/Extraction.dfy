/**
 Extraction of an inspected archive (rlvr/v3/archive.py, _extract_members).
 */
module Extraction {
  import opened Seqs
  import opened Unicode
  import opened Archive

  datatype Node = DirNode | FileNode(data: Bytes, executable: bool)

  type Tree = map<Path, Node>

  /** How the operating system reads a path: "" and "." stay, ".." goes up. */
  function Resolve(path: Path): Path {
    if path == [] then []
    else
      var before, last := Resolve(path[..|path| - 1]), path[|path| - 1];
      if last == [] || last == DOT then before
      else if last == DOT_DOT then (if before == [] then [] else before[..|before| - 1])
      else before + [last]
  }

  lemma {:induction false} PlainResolves(path: Path)
    requires AllPlain(path)
    ensures Resolve(path) == path
  {
    if path != [] {
      PlainResolves(path[..|path| - 1]);
      assert Plain(path[|path| - 1]);
    }
  }

  predicate IsFile(tree: Tree, p: Path) {
    p in tree && tree[p].FileNode?
  }

  /** Nothing on the way, or at the end of it, is a file. */
  ghost predicate Passable(tree: Tree, path: Path) {
    forall k :: 0 <= k <= |path| ==> !IsFile(tree, path[..k])
  }

  /** `mkdir -p` on a tree where nothing on the way is a file. */
  function WithDirs(tree: Tree, path: Path): Tree {
    map p | p in tree.Keys + (set k | 0 <= k <= |path| :: path[..k]) :: if p in tree then tree[p] else DirNode
  }

  class FileSystem {
    var tree: Tree

    method MakeDirs(name: Path) returns (ok: bool)
      modifies this
      ensures var path := Resolve(name);
              && (ok <==> Passable(old(tree), path))
              && (ok ==> tree == WithDirs(old(tree), path))
    {
      var path := Resolve(name);
      for k := 0 to |path| + 1
        invariant forall j :: 0 <= j < k ==> !IsFile(old(tree), path[..j])
        invariant tree.Keys == old(tree).Keys + (set j | 0 <= j < k :: path[..j])
        invariant forall p :: p in tree ==> tree[p] == if p in old(tree) then old(tree)[p] else DirNode
      {
        if path[..k] in tree {
          if tree[path[..k]].FileNode? {
            assert IsFile(old(tree), path[..k]);
            return false;
          }
        } else {
          tree := tree[path[..k] := DirNode];
        }
      }
      assert tree == WithDirs(old(tree), path);
      return true;
    }

    /** `O_CREAT | O_EXCL`, then the contents. */
    method CreateFile(name: Path, data: Bytes, executable: bool) returns (ok: bool)
      modifies this
      ensures ok <==> Resolve(name) !in old(tree)
      ensures tree == if ok then old(tree)[Resolve(name) := FileNode(data, executable)] else old(tree)
    {
      if Resolve(name) in tree {
        return false;
      }
      tree := tree[Resolve(name) := FileNode(data, executable)];
      return true;
    }

    method ExtractOne(m: Member, destination: Path, ghost before: Tree, ghost done: seq<Member>) returns (ok: bool)
      requires Fresh(before, destination) && Clear(done, m) && Extracted(before, destination, done, tree)
      modifies this
      ensures ok <==> Complete(m)
      ensures ok ==> Extracted(before, destination, done + [m], tree)
    {
      var output := destination + PathOf(m);
      OutputIs(m, destination, before, done);
      StepSucceeds(before, destination, done, m, tree);
      if m.kind.Directory? {
        DirectoryAdded(before, destination, done, m, tree);
      } else if m.data.Some? {
        FileAdded(before, destination, done, m, tree);
      }
      hide Fresh, Extracted, Clear, PathOf, Resolve, WithDirs, Passable;
      if m.kind.Directory? {
        var made := MakeDirs(output);
        return made;
      }
      var parent := output[..|output| - 1];
      var made := MakeDirs(parent);
      if !made || m.data.None? || |m.data.value| != m.size {
        return false;
      }
      ok := CreateFile(output, m.data.value, m.executable);
    }

    /** Any list of members that inspection found compatible, in any order: the only thing
        that can go wrong is a file whose contents are not what its header declared. */
    method ExtractMembers(members: seq<Member>, destination: Path) returns (ok: bool)
      requires Compatible(members) && Fresh(tree, destination)
      modifies this
      ensures ok <==> forall m :: m in members ==> Complete(m)
      ensures ok ==> Extracted(old(tree), destination, members, tree)
    {
      NothingYet(tree, destination);
      hide Compatible, Fresh, Extracted, Complete;
      assert members[..0] == [];
      for i := 0 to |members|
        invariant Extracted(old(tree), destination, members[..i], tree)
        invariant forall k :: 0 <= k < i ==> Complete(members[k])
      {
        assert members[i] in members && members[..i + 1] == members[..i] + [members[i]];
        NextIsClear(members, i);
        hide Clear;
        var one := ExtractOne(members[i], destination, old(tree), members[..i]);
        if !one {
          return false;
        }
      }
      assert members[..|members|] == members;
      return true;
    }
  }

  /** Reading the member yields exactly as many bytes as it declared. */
  predicate Complete(m: Member) {
    m.kind.File? ==> m.data.Some? && |m.data.value| == m.size
  }

  /** The destination is a new directory: it and everything above it are directories, and
      there is nothing below it. */
  ghost predicate Fresh(tree: Tree, d: Path) {
    && AllPlain(d)
    && (forall k :: 0 <= k <= |d| ==> d[..k] in tree && tree[d[..k]] == DirNode)
    && (forall p :: p in tree ==> !ProperPrefix(d, p))
  }

  /** `p` is the place of a member below d, or on the way to one. */
  ghost predicate Reached(d: Path, members: seq<Member>, p: Path) {
    exists m :: m in members && OnTheWay(d, m, p)
  }

  predicate OnTheWay(d: Path, m: Member, p: Path) {
    |d| < |p| <= |d| + |PathOf(m)| && (d + PathOf(m))[..|p|] == p
  }

  ghost predicate FileAt(d: Path, members: seq<Member>, p: Path) {
    exists m :: m in members && m.kind.File? && d + PathOf(m) == p
  }

  /** Exactly the members, as files with their contents, and the directories they need. */
  ghost predicate Extracted(before: Tree, d: Path, members: seq<Member>, after: Tree) {
    && (forall p :: p in before ==> p in after && after[p] == before[p])
    && (forall p :: p in after ==> p in before || Reached(d, members, p))
    && (forall p :: Reached(d, members, p) ==> p in after)
    && (forall m :: m in members && m.kind.File? && m.data.Some? ==>
          IsFile(after, d + PathOf(m)) && after[d + PathOf(m)] == FileNode(m.data.value, m.executable))
    && (forall p :: p in after && p !in before && !FileAt(d, members, p) ==> after[p] == DirNode)
  }

  /** What inspection guarantees about the next member and those already extracted. */
  ghost predicate Clear(done: seq<Member>, m: Member) {
    && PathOf(m) != [] && AllPlain(PathOf(m)) && !m.kind.Unsupported?
    && forall n :: n in done ==>
         && PathOf(n) != PathOf(m)
         && (n.kind.File? ==> !ProperPrefix(PathOf(n), PathOf(m)))
         && (m.kind.File? ==> !ProperPrefix(PathOf(m), PathOf(n)))
  }

  lemma NextIsClear(members: seq<Member>, i: nat)
    requires Compatible(members) && i < |members|
    ensures Clear(members[..i], members[i])
  {
    var m := members[i];
    assert m in members;
    forall n | n in members[..i] ensures n in members && PathOf(n) != PathOf(m) {
      var k :| 0 <= k < i && members[..i][k] == n;
      assert PathsOf(members)[k] != PathsOf(members)[i];
    }
  }

  lemma NothingYet(tree: Tree, d: Path)
    ensures Extracted(tree, d, [], tree)
  {
  }

  lemma OutputIs(m: Member, d: Path, before: Tree, done: seq<Member>)
    requires Clear(done, m) && Fresh(before, d)
    ensures var output := d + PathOf(m);
            && PathOf(m) != [] && !m.kind.Unsupported? && Resolve(output) == output
            && Resolve(output[..|output| - 1]) == output[..|output| - 1]
  {
    var output := d + PathOf(m);
    PlainResolves(output);
    PlainResolves(output[..|output| - 1]);
  }

  /** No part of the way to a clear member is a file, and its own place is free if it is one. */
  lemma StepSucceeds(before: Tree, d: Path, done: seq<Member>, m: Member, tree: Tree)
    requires Fresh(before, d) && Clear(done, m) && Extracted(before, d, done, tree)
    ensures var output := d + PathOf(m);
            && Passable(tree, output) && Passable(tree, output[..|output| - 1])
            && (m.kind.File? ==> output !in tree && output !in WithDirs(tree, output[..|output| - 1]))
  {
    var output := d + PathOf(m);
    hide IsFile;
    forall k | 0 <= k <= |output| ensures !IsFile(tree, output[..k]) {
      WayIsClear(before, d, done, m, tree, k);
    }
    assert output != [];
    if m.kind.File? {
      PlaceIsFree(before, d, done, m, tree);
      NotAParent(tree, output);
    }
    hide Fresh, Clear, Extracted, PathOf, WithDirs;
    var parent := output[..|output| - 1];
    assert forall k :: 0 <= k <= |parent| ==> parent[..k] == output[..k];
  }

  lemma NotAParent(tree: Tree, output: Path)
    requires output != [] && output !in tree
    ensures output !in WithDirs(tree, output[..|output| - 1])
  {
    var parent := output[..|output| - 1];
    forall k | 0 <= k <= |parent| ensures parent[..k] != output {
      var q := parent[..k];
      assert |q| == k;
    }
  }

  lemma FileOnTheWay(d: Path, n: Member, path: Path, k: nat)
    requires |d| < k <= |d + path| && d + PathOf(n) == (d + path)[..k]
    ensures PathOf(n) == path || ProperPrefix(PathOf(n), path)
  {
    hide PathOf;
    var p := (d + path)[..k];
    assert PathOf(n) == p[|d|..] == path[..k - |d|];
  }

  lemma InsideMember(d: Path, n: Member, path: Path)
    requires path != [] && OnTheWay(d, n, d + path)
    ensures PathOf(n) == path || ProperPrefix(path, PathOf(n))
  {
    hide PathOf;
    var p, q := d + path, d + PathOf(n);
    assert PathOf(n)[..|path|] == q[..|p|][|d|..] == path;
  }

  lemma NewPath(before: Tree, d: Path, p: Path)
    requires Fresh(before, d) && |d| < |p| && p[..|d|] == d
    ensures p !in before
  {
  }

  lemma WayIsClear(before: Tree, d: Path, done: seq<Member>, m: Member, tree: Tree, k: nat)
    requires Fresh(before, d) && Clear(done, m) && Extracted(before, d, done, tree)
    requires k <= |d + PathOf(m)|
    ensures !IsFile(tree, (d + PathOf(m))[..k])
  {
    var path := PathOf(m);
    var p := (d + path)[..k];
    hide PathOf, ProperPrefix;
    if k <= |d| {
      assert p == d[..k];
    } else {
      assert p[..|d|] == d;
      NewPath(before, d, p);
      if n :| n in done && n.kind.File? && d + PathOf(n) == p {
        FileOnTheWay(d, n, path, k);
      }
    }
  }

  lemma PlaceIsFree(before: Tree, d: Path, done: seq<Member>, m: Member, tree: Tree)
    requires Fresh(before, d) && Clear(done, m) && Extracted(before, d, done, tree) && m.kind.File?
    ensures d + PathOf(m) !in tree
  {
    var p := d + PathOf(m);
    hide PathOf, ProperPrefix, OnTheWay;
    assert p[..|d|] == d;
    NewPath(before, d, p);
    if n :| n in done && OnTheWay(d, n, p) {
      InsideMember(d, n, PathOf(m));
    }
  }

  lemma ReachedMore(d: Path, done: seq<Member>, m: Member, p: Path)
    ensures Reached(d, done + [m], p) <==> Reached(d, done, p) || OnTheWay(d, m, p)
    ensures FileAt(d, done + [m], p) <==> FileAt(d, done, p) || (m.kind.File? && d + PathOf(m) == p)
  {
    hide PathOf, OnTheWay;
    var all := done + [m];
    assert m in all;
    assert forall n :: n in all <==> n in done || n == m;
    if Reached(d, all, p) {
      var n :| n in all && OnTheWay(d, n, p);
    }
    if Reached(d, done, p) {
      var n :| n in done && OnTheWay(d, n, p);
      assert n in all;
    }
    if FileAt(d, all, p) {
      var n :| n in all && n.kind.File? && d + PathOf(n) == p;
    }
    if FileAt(d, done, p) {
      var n :| n in done && n.kind.File? && d + PathOf(n) == p;
      assert n in all;
    }
  }

  /** The paths `mkdir -p` adds on the way to a member, under the destination. */
  lemma DirsAdded(before: Tree, d: Path, m: Member, tree: Tree, length: nat, p: Path)
    requires Fresh(before, d) && (forall q :: q in before ==> q in tree)
    requires |d| <= length <= |d + PathOf(m)|
    ensures p in WithDirs(tree, (d + PathOf(m))[..length]) <==> p in tree || (OnTheWay(d, m, p) && |p| <= length)
  {
    var output := d + PathOf(m);
    var way := output[..length];
    hide PathOf;
    if k :| 0 <= k <= length && way[..k] == p {
      assert output[..k] == p;
      if k <= |d| {
        assert p == d[..k];
      }
    }
    if OnTheWay(d, m, p) && |p| <= length {
      assert way[..|p|] == output[..|p|] == p;
      assert p in (set k | 0 <= k <= |way| :: way[..k]);
    }
  }

  /** `after` is `tree` with one more member and the directories on the way to it. */
  ghost predicate AddsMember(tree: Tree, d: Path, m: Member, after: Tree) {
    && (m.kind.File? ==> m.data.Some? && d + PathOf(m) !in tree && d + PathOf(m) in after)
    && (forall p :: p in tree ==> p in after && after[p] == tree[p])
    && (forall p :: p in after <==> p in tree || OnTheWay(d, m, p))
    && (forall p :: p in after && p !in tree ==>
          after[p] == if m.kind.File? && p == d + PathOf(m) then FileNode(m.data.value, m.executable) else DirNode)
  }

  lemma AddedOne(before: Tree, d: Path, done: seq<Member>, m: Member, tree: Tree, after: Tree)
    requires Extracted(before, d, done, tree) && AddsMember(tree, d, m, after)
    ensures Extracted(before, d, done + [m], after)
  {
    var all := done + [m];
    forall p
      ensures Reached(d, all, p) <==> Reached(d, done, p) || OnTheWay(d, m, p)
      ensures FileAt(d, all, p) <==> FileAt(d, done, p) || (m.kind.File? && d + PathOf(m) == p)
    {
      ReachedMore(d, done, m, p);
    }
    hide Reached, FileAt, OnTheWay;
    forall n | n in all && n.kind.File? && n.data.Some?
      ensures IsFile(after, d + PathOf(n)) && after[d + PathOf(n)] == FileNode(n.data.value, n.executable)
    {
      assert n in done || n == m;
      hide PathOf;
    }
    hide PathOf;
    forall p | p in after && p !in before && !FileAt(d, all, p) ensures after[p] == DirNode {
      assert p in tree ==> tree[p] == DirNode;
    }
  }

  lemma DirectoryAdded(before: Tree, d: Path, done: seq<Member>, m: Member, tree: Tree)
    requires Fresh(before, d) && Clear(done, m) && Extracted(before, d, done, tree) && m.kind.Directory?
    ensures Extracted(before, d, done + [m], WithDirs(tree, d + PathOf(m)))
  {
    var output := d + PathOf(m);
    var after := WithDirs(tree, output);
    assert output[..|output|] == output;
    forall p ensures p in after <==> p in tree || OnTheWay(d, m, p) {
      DirsAdded(before, d, m, tree, |output|, p);
    }
    hide OnTheWay, PathOf, Fresh, Clear, Extracted;
    AddedOne(before, d, done, m, tree, after);
  }

  lemma FileReached(before: Tree, d: Path, m: Member, tree: Tree, p: Path)
    requires Fresh(before, d) && (forall q :: q in before ==> q in tree) && PathOf(m) != []
    ensures var output := d + PathOf(m);
            p in WithDirs(tree, output[..|output| - 1]) || p == output <==> p in tree || OnTheWay(d, m, p)
  {
    var output := d + PathOf(m);
    DirsAdded(before, d, m, tree, |output| - 1, p);
    hide PathOf, WithDirs, Fresh;
    assert output[..|output|] == output;
  }

  lemma FileAdds(before: Tree, d: Path, m: Member, tree: Tree)
    requires Fresh(before, d) && (forall q :: q in before ==> q in tree) && PathOf(m) != []
    requires m.kind.File? && m.data.Some? && d + PathOf(m) !in tree
    ensures var output := d + PathOf(m);
            AddsMember(tree, d, m,
                WithDirs(tree, output[..|output| - 1])[output := FileNode(m.data.value, m.executable)])
  {
    var output := d + PathOf(m);
    forall p ensures p in WithDirs(tree, output[..|output| - 1]) || p == output <==> p in tree || OnTheWay(d, m, p) {
      FileReached(before, d, m, tree, p);
    }
    hide OnTheWay, Fresh, PathOf;
  }

  lemma FileAdded(before: Tree, d: Path, done: seq<Member>, m: Member, tree: Tree)
    requires Fresh(before, d) && Clear(done, m) && Extracted(before, d, done, tree) && m.kind.File? && m.data.Some?
    ensures var output := d + PathOf(m);
            Extracted(before, d, done + [m],
                WithDirs(tree, output[..|output| - 1])[output := FileNode(m.data.value, m.executable)])
  {
    var output := d + PathOf(m);
    var after := WithDirs(tree, output[..|output| - 1])[output := FileNode(m.data.value, m.executable)];
    PlaceIsFree(before, d, done, m, tree);
    assert PathOf(m) != [] && forall q :: q in before ==> q in tree;
    hide Clear, Extracted, PathOf, AddsMember, WithDirs, Fresh;
    FileAdds(before, d, m, tree);
    AddedOne(before, d, done, m, tree, after);
  }

  // ---- What acceptance buys ---------------------------------------------------------------------

  /** An accepted archive stays compatible in whatever order its members are extracted. */
  lemma AnyOrderWillDo(members: seq<Member>, other: seq<Member>, limits: Limits, nfc: Text -> bool)
    requires Accepted(members, limits, nfc) && multiset(other) == multiset(members)
    ensures Compatible(other)
  {
    assert NoDup(members) by {
      forall i, j | 0 <= i < j < |members| ensures members[i] != members[j] {
        assert PathsOf(members)[i] != PathsOf(members)[j];
      }
    }
    ShuffleKeeps(members, other);
    forall m ensures m in other <==> m in members {
      assert m in ToSet(other) <==> m in ToSet(members);
    }
    hide MemberOk, ToSet;
    forall i, j | 0 <= i < j < |other| ensures PathsOf(other)[i] != PathsOf(other)[j] {
      assert other[i] in members && other[j] in members && other[i] != other[j];
      PathsDiffer(members, other[i], other[j]);
    }
  }

  lemma PathsDiffer(members: seq<Member>, m: Member, n: Member)
    requires NoDup(PathsOf(members)) && m in members && n in members && m != n
    ensures PathOf(m) != PathOf(n)
  {
    hide PathOf;
    var i :| 0 <= i < |members| && members[i] == m;
    var j :| 0 <= j < |members| && members[j] == n;
    assert PathsOf(members)[i] == PathOf(m) && PathsOf(members)[j] == PathOf(n);
  }

  function DataBytes(members: seq<Member>): nat {
    if members == [] then 0
    else
      var n := |members| - 1;
      DataBytes(members[..n]) + if members[n].kind.File? && members[n].data.Some? then |members[n].data.value| else 0
  }

  lemma {:induction false} DataIsDeclared(members: seq<Member>)
    requires forall m :: m in members ==> Complete(m)
    ensures DataBytes(members) == FileBytes(members)
  {
    if members != [] {
      var n := |members| - 1;
      assert members[n] in members;
      DataIsDeclared(members[..n]);
    }
  }

  /** Only paths below the destination are new, the new files are exactly the members, with
      their contents, and together they stay within the limit. */
  lemma OnlyTheMembers(before: Tree, d: Path, members: seq<Member>, after: Tree, limits: Limits, nfc: Text -> bool)
    requires Accepted(members, limits, nfc) && (forall m :: m in members ==> Complete(m))
    requires Fresh(before, d) && Extracted(before, d, members, after)
    ensures forall p :: p in after && p !in before ==> ProperPrefix(d, p)
    ensures forall p :: p in before ==> p in after && after[p] == before[p]
    ensures forall p :: IsFile(after, p) && p !in before <==> FileAt(d, members, p)
    ensures DataBytes(members) <= limits.maxExpandedBytes && |members| <= limits.maxEntries
  {
    DataIsDeclared(members);
    hide Accepted, PathOf, Complete;
    forall p | p in after && p !in before ensures ProperPrefix(d, p) {
      var m :| m in members && OnTheWay(d, m, p);
      assert p[..|d|] == (d + PathOf(m))[..|p|][..|d|] == d;
    }
    forall p | FileAt(d, members, p) ensures IsFile(after, p) && p !in before {
      var m :| m in members && m.kind.File? && d + PathOf(m) == p;
      MemberPlaced(before, d, members, after, m);
    }
  }

  lemma MemberPlaced(before: Tree, d: Path, members: seq<Member>, after: Tree, m: Member)
    requires Fresh(before, d) && Extracted(before, d, members, after)
    requires m in members && m.kind.File? && Complete(m)
    ensures IsFile(after, d + PathOf(m)) && d + PathOf(m) !in before
  {
    var p := d + PathOf(m);
    assert p[..|d|] == d;
    NewPath(before, d, p);
  }
}
