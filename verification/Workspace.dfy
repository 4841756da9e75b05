/**
 The miner's view of a workspace (rlvr/v3/miner_workspace.py): the stack-driven file walk and
 the paging of `find_files`.
 */
module Workspace {
  import opened Seqs
  import opened Sorting
  import opened Unicode

  type Path = seq<Text>

  /** What `lstat` and `iterdir` show. Entries come in no particular order. */
  datatype Node = Regular | Special | Unreadable | Dir(children: seq<Entry>)

  datatype Entry = Entry(name: Text, node: Node)

  predicate IsDir(n: Node) {
    n.Dir? || n.Unreadable?
  }

  predicate NameLeq(a: Entry, b: Entry) {
    LexLeq(a.name, b.name)
  }

  // ---- The recursive listing --------------------------------------------------------------------

  /** The regular files among the entries, by their paths. */
  function Files(entries: seq<Entry>, at: Path): seq<Path> {
    if entries == [] then []
    else
      var n := |entries| - 1;
      Files(entries[..n], at) + if entries[n].node.Regular? then [at + [entries[n].name]] else []
  }

  /** An entry and what is below it. */
  datatype Piece = Piece(entry: Entry, below: seq<Path>)

  predicate PieceLeq(a: Piece, b: Piece) {
    NameLeq(a.entry, b.entry)
  }

  function EntryOf(p: Piece): Entry { p.entry }
  function BelowOf(p: Piece): seq<Path> { p.below }

  /** A directory's files, then its subdirectories in name order. */
  function Listing(n: Node, at: Path): seq<Path> {
    match n
    case Dir(children) =>
      var pieces := seq(|children|, i requires 0 <= i < |children| =>
        Piece(children[i], Listing(children[i].node, at + [children[i].name])));
      var sorted := Sort(pieces, PieceLeq);
      Files(Map(sorted, EntryOf), at) + Flatten(Map(sorted, BelowOf))
    case _ => []
  }

  function InOrder(children: seq<Entry>): (r: seq<Entry>)
    ensures |r| == |children|
  {
    Sort(children, NameLeq)
  }

  function Below(e: Entry, at: Path): seq<Path> {
    Listing(e.node, at + [e.name])
  }

  function BelowAll(entries: seq<Entry>, at: Path): seq<Path> {
    if entries == [] then [] else BelowAll(entries[..|entries| - 1], at) + Below(entries[|entries| - 1], at)
  }

  lemma {:induction false} FlattenBelow(pieces: seq<Piece>, at: Path)
    requires forall i :: 0 <= i < |pieces| ==> pieces[i].below == Below(pieces[i].entry, at)
    ensures Flatten(Map(pieces, BelowOf)) == BelowAll(Map(pieces, EntryOf), at)
  {
    if pieces != [] {
      var n := |pieces| - 1;
      FlattenBelow(pieces[..n], at);
      hide Below;
      MapFront(pieces, BelowOf, n);
      MapFront(pieces, EntryOf, n);
      assert EntryOf(pieces[n]) == pieces[n].entry && BelowOf(pieces[n]) == pieces[n].below;
    }
  }

  function PieceAt(at: Path): Entry -> Piece {
    (e: Entry) => Piece(e, Below(e, at))
  }

  lemma ListingPieces(children: seq<Entry>, at: Path)
    ensures var sorted := Map(InOrder(children), PieceAt(at));
            Listing(Dir(children), at) == Files(Map(sorted, EntryOf), at) + Flatten(Map(sorted, BelowOf))
  {
    var pieces := seq(|children|, i requires 0 <= i < |children| =>
      Piece(children[i], Listing(children[i].node, at + [children[i].name])));
    assert Listing(Dir(children), at)
           == Files(Map(Sort(pieces, PieceLeq), EntryOf), at) + Flatten(Map(Sort(pieces, PieceLeq), BelowOf));
    forall i | 0 <= i < |children| ensures pieces[i] == PieceAt(at)(children[i]) {
    }
    hide Listing, Files, Flatten;
    MapIs(children, PieceAt(at), pieces);
    SortCommutes(children, PieceAt(at), NameLeq, PieceLeq);
  }

  lemma ListingForm(children: seq<Entry>, at: Path)
    ensures Listing(Dir(children), at) == Files(InOrder(children), at) + BelowAll(InOrder(children), at)
  {
    ListingPieces(children, at);
    hide Listing, Files, Flatten, Below, InOrder;
    var entries := InOrder(children);
    var sorted := Map(entries, PieceAt(at));
    forall i | 0 <= i < |entries| ensures EntryOf(sorted[i]) == entries[i] && sorted[i].below == Below(entries[i], at) {
      assert sorted[i] == PieceAt(at)(entries[i]);
    }
    hide PieceAt;
    MapIs(sorted, EntryOf, entries);
    FlattenBelow(sorted, at);
  }

  // ---- The stack --------------------------------------------------------------------------------

  datatype Frame = Frame(path: Path, node: Node)

  /** What is still to be listed, from the top of the stack down. */
  function Rest(pending: seq<Frame>): seq<Path> {
    if pending == [] then []
    else
      var n := |pending| - 1;
      Listing(pending[n].node, pending[n].path) + Rest(pending[..n])
  }

  function FrameOf(e: Entry, at: Path): Frame {
    Frame(at + [e.name], e.node)
  }

  /** The subdirectories among the entries. */
  function Later(entries: seq<Entry>, at: Path): seq<Frame> {
    if entries == [] then []
    else
      var n := |entries| - 1;
      Later(entries[..n], at) + if IsDir(entries[n].node) then [FrameOf(entries[n], at)] else []
  }

  function Reversed<T>(s: seq<T>): (r: seq<T>)
    ensures |r| == |s|
  {
    if s == [] then [] else [s[|s| - 1]] + Reversed(s[..|s| - 1])
  }

  /** Pushing the subdirectories in reverse pushes the last one first. */
  lemma PushLast(pending: seq<Frame>, entries: seq<Entry>, at: Path)
    requires entries != []
    ensures var n := |entries| - 1;
            var some, frame := entries[..n], FrameOf(entries[n], at);
            pending + Reversed(Later(entries, at))
            == (if IsDir(entries[n].node) then pending + [frame] else pending) + Reversed(Later(some, at))
  {
    var n := |entries| - 1;
    var later, frame := Later(entries[..n], at), FrameOf(entries[n], at);
    if IsDir(entries[n].node) {
      assert (later + [frame])[..|later|] == later;
      assert Reversed(later + [frame]) == [frame] + Reversed(later);
      assert pending + ([frame] + Reversed(later)) == (pending + [frame]) + Reversed(later);
    } else {
      assert later + [] == later;
    }
  }

  lemma RestOfPush(pending: seq<Frame>, e: Entry, at: Path)
    ensures Rest(pending + [FrameOf(e, at)]) == Below(e, at) + Rest(pending)
    ensures Load(pending + [FrameOf(e, at)]) == Load(pending) + Weight(e.node)
  {
    assert (pending + [FrameOf(e, at)])[..|pending|] == pending;
    hide Listing, Weight;
  }

  lemma Associative<T>(a: seq<T>, b: seq<T>, c: seq<T>)
    ensures (a + b) + c == a + (b + c)
  {
  }

  lemma {:induction false} RestOfReversed(pending: seq<Frame>, entries: seq<Entry>, at: Path)
    ensures Rest(pending + Reversed(Later(entries, at))) == BelowAll(entries, at) + Rest(pending)
    decreases |entries|
  {
    if entries == [] {
      assert pending + Reversed(Later(entries, at)) == pending;
    } else {
      var n := |entries| - 1;
      var e, some := entries[n], entries[..n];
      PushLast(pending, entries, at);
      assert BelowAll(entries, at) == BelowAll(some, at) + Below(e, at);
      if IsDir(e.node) {
        RestOfReversed(pending + [FrameOf(e, at)], some, at);
        RestOfPush(pending, e, at);
        hide Rest, BelowAll, Below, Later, Reversed, FrameOf;
        Associative(BelowAll(some, at), Below(e, at), Rest(pending));
      } else {
        RestOfReversed(pending, some, at);
        assert BelowAll(entries, at) == BelowAll(some, at);
        hide Rest, BelowAll, Below, Later, Reversed, FrameOf;
      }
    }
  }

  // ---- Termination ------------------------------------------------------------------------------

  datatype Weighed = Weighed(entry: Entry, weight: nat)

  predicate WeighedLeq(a: Weighed, b: Weighed) {
    NameLeq(a.entry, b.entry)
  }

  function TotalWeight(weighed: seq<Weighed>): nat {
    if weighed == [] then 0 else TotalWeight(weighed[..|weighed| - 1]) + weighed[|weighed| - 1].weight
  }

  /** One for the directory and the weight of everything below it. */
  function Weight(n: Node): (w: nat)
    ensures w >= 1
  {
    match n
    case Dir(children) =>
      1 + TotalWeight(Sort(seq(|children|,
          i requires 0 <= i < |children| => Weighed(children[i], Weight(children[i].node))), WeighedLeq))
    case _ => 1
  }

  function Weigh(e: Entry): Weighed { Weighed(e, Weight(e.node)) }

  lemma WeightForm(children: seq<Entry>)
    ensures Weight(Dir(children)) == 1 + TotalWeight(Map(InOrder(children), Weigh))
  {
    assert Map(children, Weigh)
        == seq(|children|, i requires 0 <= i < |children| => Weighed(children[i], Weight(children[i].node)));
    SortCommutes(children, Weigh, NameLeq, WeighedLeq);
  }

  function Load(pending: seq<Frame>): nat {
    if pending == [] then 0 else Load(pending[..|pending| - 1]) + Weight(pending[|pending| - 1].node)
  }

  lemma TotalLast(entries: seq<Entry>)
    requires entries != []
    ensures var n := |entries| - 1;
            TotalWeight(Map(entries, Weigh)) == TotalWeight(Map(entries[..n], Weigh)) + Weight(entries[n].node)
  {
    var n := |entries| - 1;
    hide Weight;
    MapFront(entries, Weigh, n);
    assert Weigh(entries[n]).weight == Weight(entries[n].node);
  }

  lemma {:induction false} LoadOfReversed(pending: seq<Frame>, entries: seq<Entry>, at: Path)
    ensures Load(pending + Reversed(Later(entries, at))) <= Load(pending) + TotalWeight(Map(entries, Weigh))
    decreases |entries|
  {
    if entries == [] {
      assert pending + Reversed(Later(entries, at)) == pending;
    } else {
      var n := |entries| - 1;
      var e, some := entries[n], entries[..n];
      PushLast(pending, entries, at);
      TotalLast(entries);
      RestOfPush(pending, e, at);
      hide Load, Later, Reversed, FrameOf, Weight, TotalWeight;
      LoadOfReversed(if IsDir(e.node) then pending + [FrameOf(e, at)] else pending, some, at);
    }
  }

  lemma {:induction false} TotalGrows(entries: seq<Entry>, n: nat)
    requires n <= |entries|
    ensures TotalWeight(Map(entries[..n], Weigh)) <= TotalWeight(Map(entries, Weigh))
    decreases |entries|
  {
    if n == |entries| {
      assert entries[..n] == entries;
    } else {
      var last := |entries| - 1;
      TotalGrows(entries[..last], n);
      assert entries[..last][..n] == entries[..n];
      TotalLast(entries);
    }
  }

  // ---- The walk ---------------------------------------------------------------------------------

  lemma {:induction false} FilesStart(entries: seq<Entry>, n: nat, at: Path)
    requires n <= |entries|
    ensures Starts(Files(entries[..n], at), Files(entries, at))
    decreases |entries|
  {
    if n == |entries| {
      assert entries[..n] == entries;
    } else {
      var last := |entries| - 1;
      FilesStart(entries[..last], n, at);
      assert entries[..last][..n] == entries[..n];
    }
  }

  lemma StartsWithMore(a: seq<Path>, b: seq<Path>, c: seq<Path>, d: seq<Path>, all: seq<Path>)
    requires Starts(b, c) && a + (c + d) == all
    ensures Starts(a + b, all)
  {
    assert c == b + c[|b|..];
    assert all == (a + b) + (c[|b|..] + d);
  }

  /** One directory: its files are appended up to the limit, its subdirectories collected. */
  method ScanEntries(entries: seq<Entry>, at: Path, before: seq<Path>, limit: nat)
    returns (found: seq<Path>, later: seq<Frame>, ghost n: nat)
    requires |before| < limit
    ensures n <= |entries| && |found| <= limit
    ensures found == before + Files(entries[..n], at) && later == Later(entries[..n], at)
    ensures |found| < limit ==> n == |entries|
  {
    found, later := before, [];
    n := 0;
    for i := 0 to |entries|
      invariant n == i && |found| < limit
      invariant found == before + Files(entries[..i], at) && later == Later(entries[..i], at)
    {
      assert entries[..i + 1][..i] == entries[..i];
      n := i + 1;
      if IsDir(entries[i].node) {
        later := later + [FrameOf(entries[i], at)];
      } else if entries[i].node.Regular? {
        found := found + [at + [entries[i].name]];
        if |found| >= limit {
          break;
        }
      }
    }
  }

  /** What one turn of the loop does to the walk. */
  lemma TurnKeeps(before: seq<Path>, found: seq<Path>, pending: seq<Frame>, at: Path, children: seq<Entry>, n: nat,
      all: seq<Path>)
    requires n <= |children|
    requires before + (Listing(Dir(children), at) + Rest(pending)) == all
    requires found == before + Files(InOrder(children)[..n], at)
    ensures Starts(found, all)
    ensures n == |children| ==> found + Rest(pending + Reversed(Later(InOrder(children)[..n], at))) == all
    ensures Load(pending + Reversed(Later(InOrder(children)[..n], at))) < Load(pending) + Weight(Dir(children))
  {
    var entries := InOrder(children);
    var some := entries[..n];
    ListingForm(children, at);
    WeightForm(children);
    TotalGrows(entries, n);
    LoadOfReversed(pending, some, at);
    FilesStart(entries, n, at);
    RestOfReversed(pending, some, at);
    hide Listing, Weight, Load, Rest, Files, Later, Reversed, BelowAll, InOrder, TotalWeight;
    var files, below, rest := Files(entries, at), BelowAll(entries, at), Rest(pending);
    Associative(files, below, rest);
    StartsWithMore(before, Files(some, at), files, below + rest, all);
    if n == |children| {
      assert some == entries;
      Associative(before, files, below + rest);
    }
  }

  /** The walk so far: a front of the listing and, until the limit, the rest on the stack. */
  ghost predicate Walking(found: seq<Path>, pending: seq<Frame>, limit: nat, all: seq<Path>) {
    && |found| <= limit && Starts(found, all)
    && (|found| < limit ==> found + Rest(pending) == all)
  }

  lemma WalkStarts(at: Path, root: Node, limit: nat)
    ensures Walking([], [Frame(at, root)], limit, Listing(root, at))
  {
    Pop([Frame(at, root)]);
    assert [Frame(at, root)][..0] == [] && Rest([]) == [];
  }

  lemma WalkSkips(found: seq<Path>, pending: seq<Frame>, limit: nat, all: seq<Path>)
    requires pending != [] && !pending[|pending| - 1].node.Dir? && Walking(found, pending, limit, all)
    ensures Walking(found, pending[..|pending| - 1], limit, all)
    ensures Load(pending[..|pending| - 1]) < Load(pending)
  {
    var rest := pending[..|pending| - 1];
    assert Rest(pending) == Rest(rest) && Load(rest) < Load(pending) by {
      Pop(pending);
      NothingBelow(pending[|pending| - 1]);
      hide Rest, Load, Listing;
      assert [] + Rest(rest) == Rest(rest);
    }
    hide Rest, Load, Starts;
  }

  lemma WalkTurns(before: seq<Path>, pending: seq<Frame>, limit: nat, all: seq<Path>, found: seq<Path>, n: nat)
    requires |before| < limit && pending != [] && Walking(before, pending, limit, all)
    requires var top := pending[|pending| - 1];
             && top.node.Dir? && n <= |top.node.children| && |found| <= limit
             && found == before + Files(InOrder(top.node.children)[..n], top.path)
             && (|found| < limit ==> n == |top.node.children|)
    ensures var top := pending[|pending| - 1];
            var next := pending[..|pending| - 1] + Reversed(Later(InOrder(top.node.children)[..n], top.path));
            Walking(found, next, limit, all) && Load(next) < Load(pending)
  {
    var top, rest := pending[|pending| - 1], pending[..|pending| - 1];
    Pop(pending);
    hide Rest, Load, Listing, Weight, Files, Later, Reversed, InOrder;
    TurnKeeps(before, found, rest, top.path, top.node.children, n, all);
  }

  /** `_files_under`: the walk with a limit is the front of the recursive listing. */
  method FilesUnder(root: Node, at: Path, limit: nat) returns (found: seq<Path>)
    ensures found == Take(Listing(root, at), limit)
  {
    found := [];
    var pending := [Frame(at, root)];
    ghost var all := Listing(root, at);
    WalkStarts(at, root, limit);
    hide Walking, Rest, Load, Listing;
    while pending != [] && |found| < limit
      invariant Walking(found, pending, limit, all)
      decreases Load(pending)
    {
      var top := pending[|pending| - 1];
      if !top.node.Dir? {
        WalkSkips(found, pending, limit, all);
        pending := pending[..|pending| - 1];
        continue;
      }
      var entries := InOrder(top.node.children);
      var later;
      ghost var before, k := found, 0;
      hide InOrder, Files, Later, Reversed;
      found, later, k := ScanEntries(entries, top.path, found, limit);
      WalkTurns(before, pending, limit, all, found, k);
      pending := pending[..|pending| - 1] + Reversed(later);
    }
    WalkEnds(found, pending, limit, all);
    found := Take(found, limit);
  }

  lemma WalkEnds(found: seq<Path>, pending: seq<Frame>, limit: nat, all: seq<Path>)
    requires Walking(found, pending, limit, all) && (pending == [] || |found| >= limit)
    ensures Take(found, limit) == Take(all, limit)
  {
  }

  lemma Pop(pending: seq<Frame>)
    requires pending != []
    ensures var n := |pending| - 1;
            && Rest(pending) == Listing(pending[n].node, pending[n].path) + Rest(pending[..n])
            && Load(pending) == Load(pending[..n]) + Weight(pending[n].node)
  {
    hide Listing, Weight;
  }

  lemma NothingBelow(f: Frame)
    requires !f.node.Dir?
    ensures Listing(f.node, f.path) == [] && Weight(f.node) == 1
  {
  }

  // ---- Paging -----------------------------------------------------------------------------------

  const LIST_ENTRIES: nat := 200

  datatype Page = Page(files: seq<Path>, nextOffset: Option<nat>)

  /** What a page of `all` should be. */
  function PageOf(all: seq<Path>, offset: nat): (p: Page)
    ensures p.nextOffset.Some? ==> offset < p.nextOffset.value < |all|
    ensures |p.files| == if offset >= |all| then 0 else Min(200, |all| - offset)
  {
    var from, to := Min(offset, |all|), Min(offset + LIST_ENTRIES, |all|);
    Page(all[from..to], if to < |all| then Some(to) else None)
  }

  /** One entry beyond the page is enough to know whether more follow. */
  lemma FrontIsEnough(all: seq<Path>, offset: nat, found: seq<Path>)
    requires found == Take(all, offset + LIST_ENTRIES + 1)
    ensures var files := found[Min(offset, |found|)..Min(offset + LIST_ENTRIES, |found|)];
            && files == PageOf(all, offset).files
            && PageOf(all, offset).nextOffset == (if |found| > offset + |files| then Some(offset + |files|) else None)
  {
    if |all| <= offset + LIST_ENTRIES {
      assert found == all;
    } else {
      assert found[offset..offset + LIST_ENTRIES] == all[offset..offset + LIST_ENTRIES];
    }
  }

  /** `find_files`. */
  method FindFiles(root: Node, at: Path, offset: nat) returns (page: Page)
    ensures page == PageOf(Listing(root, at), offset)
  {
    var found := FilesUnder(root, at, offset + LIST_ENTRIES + 1);
    ghost var all := Listing(root, at);
    hide Listing;
    FrontIsEnough(all, offset, found);
    hide Take, PageOf;
    var files := found[Min(offset, |found|)..Min(offset + LIST_ENTRIES, |found|)];
    page := Page(files, if |found| > offset + |files| then Some(offset + |files|) else None);
  }

  /** All pages from `offset` on, following `next_offset`. */
  function Follow(all: seq<Path>, offset: nat): seq<Path>
    requires offset <= |all|
    decreases |all| - offset
  {
    var page := PageOf(all, offset);
    page.files + if page.nextOffset.Some? then Follow(all, page.nextOffset.value) else []
  }

  /** Following the pages from the start gives the whole listing, in order. */
  lemma {:induction false} PagesCoverListing(all: seq<Path>, offset: nat)
    requires offset <= |all|
    ensures Follow(all, offset) == all[offset..]
    decreases |all| - offset
  {
    var page := PageOf(all, offset);
    if page.nextOffset.Some? {
      PagesCoverListing(all, page.nextOffset.value);
      assert all[offset..] == all[offset..page.nextOffset.value] + all[page.nextOffset.value..];
    }
  }

  // ---- Every file exactly once ------------------------------------------------------------------

  /** Entries of a directory have different names. */
  ghost predicate Named(n: Node) {
    n.Dir? ==>
      && (forall i, j :: 0 <= i < j < |n.children| ==> n.children[i].name != n.children[j].name)
      && (forall i :: 0 <= i < |n.children| ==> Named(n.children[i].node))
  }

  /** There is a regular file at this path below the node. */
  ghost predicate FileAt(n: Node, path: Path)
    decreases |path|
  {
    path != [] && n.Dir?
    && exists e :: e in n.children && e.name == path[0]
                   && if |path| == 1 then e.node.Regular? else FileAt(e.node, path[1..])
  }

  lemma {:induction false} FilesMember(entries: seq<Entry>, at: Path, p: Path)
    ensures p in Files(entries, at) <==> exists e :: e in entries && e.node.Regular? && p == at + [e.name]
  {
    if entries != [] {
      var n := |entries| - 1;
      FilesMember(entries[..n], at, p);
      assert forall e :: e in entries <==> e in entries[..n] || e == entries[n];
    }
  }

  lemma {:induction false} BelowMember(entries: seq<Entry>, at: Path, p: Path)
    ensures p in BelowAll(entries, at) <==> exists e :: e in entries && p in Below(e, at)
  {
    hide Below;
    if entries != [] {
      var n := |entries| - 1;
      BelowMember(entries[..n], at, p);
      assert forall e :: e in entries <==> e in entries[..n] || e == entries[n];
    }
  }

  predicate Under(at: Path, p: Path) {
    |at| < |p| && p[..|at|] == at
  }

  lemma DirMember(children: seq<Entry>, at: Path, p: Path)
    ensures p in Listing(Dir(children), at) <==>
            (exists e :: e in children && e.node.Regular? && p == at + [e.name])
                || (exists e :: e in children && p in Below(e, at))
  {
    hide Listing, Below;
    var entries := InOrder(children);
    ListingForm(children, at);
    SortMembers(children, NameLeq);
    assert forall e :: e in entries <==> e in children;
    FilesMember(entries, at, p);
    BelowMember(entries, at, p);
    hide InOrder, Files, BelowAll;
  }

  ghost predicate Holds(e: Entry, at: Path, p: Path) {
    Under(at + [e.name], p) && FileAt(e.node, p[|at + [e.name]|..])
  }

  /** The listing holds exactly the regular files. */
  lemma {:induction false} ListingMember(n: Node, at: Path, p: Path)
    ensures p in Listing(n, at) <==> Under(at, p) && FileAt(n, p[|at|..])
    decreases n
  {
    if n.Dir? {
      hide Listing, FileAt, Under;
      forall e | e in n.children ensures p in Below(e, at) <==> Holds(e, at, p) {
        var i :| 0 <= i < |n.children| && n.children[i] == e;
        ListingMember(n.children[i].node, at + [e.name], p);
      }
      hide Below, Holds;
      DirMember(n.children, at, p);
      ChildDecides(n, at, p);
    }
  }

  lemma ChildDecides(n: Node, at: Path, p: Path)
    requires n.Dir?
    requires forall e :: e in n.children ==>
               (p in Below(e, at) <==> Holds(e, at, p))
    ensures (exists e :: e in n.children && e.node.Regular? && p == at + [e.name])
            || (exists e :: e in n.children && p in Below(e, at))
            <==> Under(at, p) && FileAt(n, p[|at|..])
  {
    hide Below;
    if e :| e in n.children && e.node.Regular? && p == at + [e.name] {
      assert p[|at|..] == [e.name];
    }
    if e :| e in n.children && p in Below(e, at) {
      var path := p[|at|..];
      assert p[..|at| + 1] == at + [e.name];
      assert p[..|at|] == p[..|at| + 1][..|at|] == at && path[0] == p[..|at| + 1][|at|] == e.name;
      assert path[1..] == p[|at| + 1..];
    }
    if Under(at, p) && FileAt(n, p[|at|..]) {
      var path := p[|at|..];
      var e :| e in n.children && e.name == path[0] && if |path| == 1 then e.node.Regular?
          else FileAt(e.node, path[1..]);
      if |path| == 1 {
        assert p == at + [e.name];
      } else {
        assert p[..|at| + 1] == at + [e.name];
        assert path[1..] == p[|at| + 1..];
        assert p in Below(e, at);
      }
    }
  }

  // ---- The order of the listing -----------------------------------------------------------------

  /** Below `at`, p may come before q: files of the directory itself first, by name, and then what
      is in its subdirectories, by the name of the subdirectory. */
  predicate ComesFirst(at: Path, p: Path, q: Path) {
    && Under(at, p) && Under(at, q)
    && if |p| == |at| + 1 then |q| > |at| + 1 || LexLeq(p[|at|], q[|at|])
       else |q| > |at| + 1 && LexLeq(p[|at|], q[|at|])
  }

  ghost predicate Ordered(at: Path, paths: seq<Path>) {
    forall i, j :: 0 <= i < j < |paths| ==> ComesFirst(at, paths[i], paths[j])
  }

  lemma {:induction false} FilesByName(entries: seq<Entry>, at: Path)
    requires Ascending(entries, NameLeq)
    ensures Ordered(at, Files(entries, at))
    ensures forall p :: p in Files(entries, at) ==> |p| == |at| + 1 && Under(at, p)
  {
    if entries != [] {
      var n := |entries| - 1;
      FilesByName(entries[..n], at);
      forall p | p in Files(entries[..n], at) ensures LexLeq(p[|at|], entries[n].name) {
        FilesMember(entries[..n], at, p);
        var e :| e in entries[..n] && e.node.Regular? && p == at + [e.name];
        var i :| 0 <= i < n && entries[i] == e;
        assert NameLeq(entries[i], entries[n]);
      }
    }
  }

  /** What is below an entry starts with the entry's name. */
  lemma BelowStarts(e: Entry, at: Path)
    ensures forall p :: p in Below(e, at) ==> Under(at, p) && |p| > |at| + 1 && p[|at|] == e.name
  {
    hide Listing, FileAt, Under;
    forall p | p in Below(e, at) ensures Under(at, p) && |p| > |at| + 1 && p[|at|] == e.name {
      ListingMember(e.node, at + [e.name], p);
      UnderEntry(at, e.name, p);
    }
  }

  lemma UnderEntry(at: Path, name: Text, p: Path)
    requires Under(at + [name], p)
    ensures Under(at, p) && |p| > |at| + 1 && p[|at|] == name
  {
    assert p[..|at| + 1] == at + [name];
    assert p[..|at|] == p[..|at| + 1][..|at|];
  }

  lemma {:induction false} BelowByName(entries: seq<Entry>, at: Path)
    requires Ascending(entries, NameLeq)
    ensures Ordered(at, BelowAll(entries, at))
    ensures forall p :: p in BelowAll(entries, at) ==> |p| > |at| + 1 && Under(at, p)
  {
    hide Below, Under;
    if entries != [] {
      var n := |entries| - 1;
      BelowByName(entries[..n], at);
      BelowStarts(entries[n], at);
      LexReflexive(entries[n].name);
      forall p | p in BelowAll(entries[..n], at) ensures LexLeq(p[|at|], entries[n].name) {
        BelowMember(entries[..n], at, p);
        var e :| e in entries[..n] && p in Below(e, at);
        BelowStarts(e, at);
        var i :| 0 <= i < n && entries[i] == e;
        assert NameLeq(entries[i], entries[n]);
      }
      hide LexLeq;
    }
  }

  lemma {:induction false} LexReflexive(a: seq<nat>)
    ensures LexLeq(a, a)
  {
    if a != [] { LexReflexive(a[1..]); }
  }

  lemma NamesAreTotal()
    ensures Total(NameLeq)
  {
    forall a: Entry, b: Entry ensures NameLeq(a, b) || NameLeq(b, a) {
      LexTotal(a.name, b.name);
    }
    forall a: Entry, b: Entry, c: Entry | NameLeq(a, b) && NameLeq(b, c) ensures NameLeq(a, c) {
      LexTransitive(a.name, b.name, c.name);
    }
  }

  /** Every directory shows its own files first and everything by name. */
  lemma ListingIsOrdered(n: Node, at: Path)
    ensures Ordered(at, Listing(n, at))
  {
    if n.Dir? {
      var entries := InOrder(n.children);
      NamesAreTotal();
      SortAscends(n.children, NameLeq);
      ListingForm(n.children, at);
      FilesByName(entries, at);
      BelowByName(entries, at);
      hide *;
      FilesBeforeBelow(at, Files(entries, at), BelowAll(entries, at));
    } else {
      assert Listing(n, at) == [];
    }
  }

  lemma FilesBeforeBelow(at: Path, a: seq<Path>, b: seq<Path>)
    requires Ordered(at, a) && forall p :: p in a ==> |p| == |at| + 1 && Under(at, p)
    requires Ordered(at, b) && forall p :: p in b ==> |p| > |at| + 1 && Under(at, p)
    ensures Ordered(at, a + b)
  {
    hide LexLeq, Under;
    var all := a + b;
    forall i, j | 0 <= i < j < |all| ensures ComesFirst(at, all[i], all[j]) {
      if j < |a| {
        assert ComesFirst(at, a[i], a[j]);
      } else if i < |a| {
        assert all[i] in a && all[j] in b;
      } else {
        assert ComesFirst(at, b[i - |a|], b[j - |a|]);
      }
    }
  }

  ghost predicate Different(entries: seq<Entry>) {
    forall i, j :: 0 <= i < j < |entries| ==> entries[i].name != entries[j].name
  }

  lemma {:induction false} FilesOnce(entries: seq<Entry>, at: Path)
    requires Different(entries)
    ensures NoDup(Files(entries, at))
  {
    if entries != [] {
      var n := |entries| - 1;
      FilesOnce(entries[..n], at);
      var p := at + [entries[n].name];
      FilesMember(entries[..n], at, p);
      forall e | e in entries[..n] ensures p != at + [e.name] {
        assert p[|at|] != (at + [e.name])[|at|];
      }
      AddLast(Files(entries[..n], at), p);
    }
  }

  lemma {:induction false} BelowOnce(entries: seq<Entry>, at: Path)
    requires Different(entries)
    requires forall e :: e in entries ==> NoDup(Below(e, at)) && forall p :: p in Below(e, at) ==>
        Under(at + [e.name], p)
    ensures NoDup(BelowAll(entries, at))
  {
    hide Below;
    if entries != [] {
      var n := |entries| - 1;
      BelowOnce(entries[..n], at);
      assert entries[n] in entries;
      forall p | p in BelowAll(entries[..n], at) ensures p !in Below(entries[n], at) {
        BelowMember(entries[..n], at, p);
        var e :| e in entries[..n] && p in Below(e, at);
        assert p[..|at| + 1][|at|] == (at + [e.name])[|at|];
        assert e.name != entries[n].name;
      }
      NoDupConcat(BelowAll(entries[..n], at), Below(entries[n], at));
    }
  }

  /** No file is listed twice. */
  lemma {:induction false} ListedOnce(n: Node, at: Path)
    requires Named(n)
    ensures NoDup(Listing(n, at))
    decreases n
  {
    if n.Dir? {
      forall e | e in n.children ensures NoDup(Below(e, at)) && forall p :: p in Below(e, at) ==>
          Under(at + [e.name], p) {
        var i :| 0 <= i < |n.children| && n.children[i] == e;
        ListedOnce(n.children[i].node, at + [e.name]);
        forall p | p in Below(e, at) ensures Under(at + [e.name], p) {
          ListingMember(e.node, at + [e.name], p);
        }
      }
      ChildrenOnce(n.children, at);
    }
  }

  lemma ChildrenOnce(children: seq<Entry>, at: Path)
    requires Different(children)
    requires forall e :: e in children ==> NoDup(Below(e, at)) && forall p :: p in Below(e, at) ==>
        Under(at + [e.name], p)
    ensures NoDup(Listing(Dir(children), at))
  {
    hide Below, Listing;
    ListingForm(children, at);
    SortedDifferent(children);
    SortMembers(children, NameLeq);
    var entries := InOrder(children);
    assert forall e :: e in entries <==> e in children;
    hide InOrder, Different;
    FilesOnce(entries, at);
    BelowOnce(entries, at);
    forall p | p in Files(entries, at) ensures p !in BelowAll(entries, at) {
      FilesMember(entries, at, p);
      BelowMember(entries, at, p);
      assert |p| == |at| + 1;
    }
    NoDupConcat(Files(entries, at), BelowAll(entries, at));
  }

  lemma SortedDifferent(children: seq<Entry>)
    requires Different(children)
    ensures Different(InOrder(children))
  {
    var names := (e: Entry) => e.name;
    SortCommutes(children, names, NameLeq, LexLeq);
    SortPermutes(Map(children, names), LexLeq);
    assert NoDup(Map(children, names));
    ShuffleKeeps(Map(children, names), Map(InOrder(children), names));
    var entries := InOrder(children);
    forall i, j | 0 <= i < j < |entries| ensures entries[i].name != entries[j].name {
      assert Map(entries, names)[i] != Map(entries, names)[j];
    }
  }

  /** Following `next_offset` from 0 shows every regular file exactly once, and ends. */
  lemma PagesShowEveryFile(root: Node, at: Path)
    requires Named(root)
    ensures var shown := Follow(Listing(root, at), 0);
            NoDup(shown) && forall p :: p in shown <==> Under(at, p) && FileAt(root, p[|at|..])
  {
    var all := Listing(root, at);
    PagesCoverListing(all, 0);
    assert all[0..] == all;
    ListedOnce(root, at);
    forall p ensures p in all <==> Under(at, p) && FileAt(root, p[|at|..]) {
      ListingMember(root, at, p);
    }
  }
}
