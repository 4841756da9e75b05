/**
 The order of the walk against the order its description gives
 (rlvr/v3/miner_workspace.py, _files_under): where they differ, and exactly when they agree.
 */
module WalkOrder {
  import opened Seqs
  import opened Sorting
  import opened Unicode
  import opened Workspace

  // ---- The order the description gives ----------------------------------------------------------

  /** Entries by name, each directory listed at its place. */
  function Described(n: Node, at: Path): seq<Path> {
    match n
    case Dir(children) =>
      var pieces := seq(|children|, i requires 0 <= i < |children| =>
        Piece(children[i], Described(children[i].node, at + [children[i].name])));
      InPlace(Sort(pieces, PieceLeq), at)
    case _ => []
  }

  function InPlace(pieces: seq<Piece>, at: Path): seq<Path> {
    if pieces == [] then []
    else
      var n := |pieces| - 1;
      InPlace(pieces[..n], at)
      + if pieces[n].entry.node.Regular? then [at + [pieces[n].entry.name]] else pieces[n].below
  }

  function DescribedPiece(e: Entry, at: Path): Piece {
    Piece(e, Described(e.node, at + [e.name]))
  }

  /** The pieces of the described order, in name order. */
  function DescribedPieces(children: seq<Entry>, at: Path): (r: seq<Piece>)
    ensures |r| == |children|
  {
    Map(InOrder(children), (e: Entry) => DescribedPiece(e, at))
  }

  lemma DescribedForm(children: seq<Entry>, at: Path)
    ensures Described(Dir(children), at) == InPlace(DescribedPieces(children, at), at)
  {
    var cut := (e: Entry) => DescribedPiece(e, at);
    assert seq(|children|, i requires 0 <= i < |children| =>
      Piece(children[i], Described(children[i].node, at + [children[i].name]))) == Map(children, cut);
    SortCommutes(children, cut, NameLeq, PieceLeq);
  }

  /** There is a regular file somewhere below. */
  predicate HoldsFile(n: Node) {
    n.Dir? && exists i :: 0 <= i < |n.children| && (n.children[i].node.Regular? || HoldsFile(n.children[i].node))
  }

  /** In every directory, no subdirectory with files in it sorts before a regular file. */
  ghost predicate FilesFirst(n: Node) {
    n.Dir? ==>
      && (forall a, b :: a in n.children && b in n.children && HoldsFile(a.node) && b.node.Regular? ==> !NameLeq(a, b))
      && (forall i :: 0 <= i < |n.children| ==> FilesFirst(n.children[i].node))
  }

  // Emptiness of the two orders.

  lemma {:induction false} FilesEmpty(entries: seq<Entry>, at: Path)
    ensures Files(entries, at) == [] <==> forall i :: 0 <= i < |entries| ==> !entries[i].node.Regular?
  {
    if entries != [] {
      var n := |entries| - 1;
      var some := entries[..n];
      FilesEmpty(some, at);
      assert Files(entries, at) == Files(some, at) + if entries[n].node.Regular? then [at + [entries[n].name]] else [];
      hide Files;
      assert forall i :: 0 <= i < n ==> some[i] == entries[i];
    }
  }

  lemma {:induction false} BelowEmpty(entries: seq<Entry>, at: Path)
    ensures BelowAll(entries, at) == [] <==> forall e :: e in entries ==> Below(e, at) == []
  {
    hide Below;
    if entries != [] {
      var n := |entries| - 1;
      BelowEmpty(entries[..n], at);
      assert forall e :: e in entries <==> e in entries[..n] || e == entries[n];
    }
  }

  lemma {:induction false} ListingEmpty(n: Node, at: Path)
    ensures Listing(n, at) == [] <==> !HoldsFile(n)
    decreases n
  {
    if n.Dir? {
      var entries := InOrder(n.children);
      forall e | e in n.children ensures Below(e, at) == [] <==> !HoldsFile(e.node) {
        var i :| 0 <= i < |n.children| && n.children[i] == e;
        ListingEmpty(n.children[i].node, at + [e.name]);
      }
      ListingForm(n.children, at);
      SortMembers(n.children, NameLeq);
      assert forall e :: e in entries <==> e in n.children;
      hide Listing, Below, InOrder;
      FilesEmpty(entries, at);
      assert Files(entries, at) == [] <==> forall e :: e in entries ==> !e.node.Regular?;
      BelowEmpty(entries, at);
      hide Files, BelowAll;
      assert HoldsFile(n) <==> exists e :: e in n.children && (e.node.Regular? || HoldsFile(e.node)) by {
        HoldsByMember(n);
      }
    }
  }

  lemma HoldsByMember(n: Node)
    requires n.Dir?
    ensures HoldsFile(n) <==> exists e :: e in n.children && (e.node.Regular? || HoldsFile(e.node))
  {
    if e :| e in n.children && (e.node.Regular? || HoldsFile(e.node)) {
      var i :| 0 <= i < |n.children| && n.children[i] == e;
      assert n.children[i].node.Regular? || HoldsFile(n.children[i].node);
    }
  }

  // Where the orders agree.

  function Nested(pieces: seq<Piece>): seq<Path> {
    if pieces == [] then [] else Nested(pieces[..|pieces| - 1]) + pieces[|pieces| - 1].below
  }

  /** Nothing is below a file; everything else below a piece lies deeper than the directory. */
  ghost predicate Layered(pieces: seq<Piece>, at: Path) {
    forall i :: 0 <= i < |pieces| ==>
      && (pieces[i].entry.node.Regular? ==> pieces[i].below == [])
      && forall p :: p in pieces[i].below ==> |p| > |at| + 1
  }

  /** No piece with something below it comes before a file. */
  ghost predicate EmptyBeforeFiles(pieces: seq<Piece>) {
    forall i, j :: 0 <= i < j < |pieces| && pieces[j].entry.node.Regular? ==> pieces[i].below == []
  }

  lemma {:induction false} NestedEmpty(pieces: seq<Piece>)
    ensures Nested(pieces) == [] <==> forall i :: 0 <= i < |pieces| ==> pieces[i].below == []
  {
    if pieces != [] {
      NestedEmpty(pieces[..|pieces| - 1]);
    }
  }

  lemma FilesLast(pieces: seq<Piece>, at: Path)
    requires pieces != []
    ensures var n := |pieces| - 1;
            Files(Map(pieces, EntryOf), at) == Files(Map(pieces[..n], EntryOf), at)
              + if pieces[n].entry.node.Regular? then [at + [pieces[n].entry.name]] else []
  {
    var n := |pieces| - 1;
    MapFront(pieces, EntryOf, n);
    assert EntryOf(pieces[n]) == pieces[n].entry;
  }

  lemma {:induction false} InPlaceRearranged(pieces: seq<Piece>, at: Path)
    requires Layered(pieces, at) && EmptyBeforeFiles(pieces)
    ensures InPlace(pieces, at) == Files(Map(pieces, EntryOf), at) + Nested(pieces)
  {
    if pieces != [] {
      var n := |pieces| - 1;
      var some, last := pieces[..n], pieces[n];
      var files, nested := Files(Map(some, EntryOf), at), Nested(some);
      InPlaceRearranged(some, at);
      FilesLast(pieces, at);
      assert InPlace(pieces, at) == (files + nested) + if last.entry.node.Regular? then [at + [last.entry.name]]
          else last.below;
      assert Nested(pieces) == nested + last.below;
      if last.entry.node.Regular? {
        NestedEmpty(some);
        hide InPlace, Files, Nested, Map;
        assert files + nested == files;
        assert nested + last.below == [];
      } else {
        hide InPlace, Files, Nested, Map;
        Associative(files, nested, last.below);
        assert files + [] == files;
      }
    }
  }

  /** Once a path lies deeper than the directory, all later ones do. */
  ghost predicate ShortFirst(paths: seq<Path>, at: Path) {
    forall u, v :: 0 <= u < v < |paths| && |paths[u]| > |at| + 1 ==> |paths[v]| > |at| + 1
  }

  lemma {:induction false} BelowInPlace(pieces: seq<Piece>, at: Path, i: nat, p: Path)
    requires i < |pieces| && p in pieces[i].below && Layered(pieces, at)
    ensures p in InPlace(pieces, at)
  {
    if i < |pieces| - 1 {
      BelowInPlace(pieces[..|pieces| - 1], at, i, p);
    }
  }

  lemma NothingDeep(pieces: seq<Piece>, at: Path)
    requires Layered(pieces, at) && forall p :: p in InPlace(pieces, at) ==> |p| <= |at| + 1
    ensures forall i :: 0 <= i < |pieces| ==> pieces[i].below == []
  {
    forall i | 0 <= i < |pieces| ensures pieces[i].below == [] {
      if pieces[i].below != [] {
        BelowInPlace(pieces, at, i, pieces[i].below[0]);
      }
    }
  }

  lemma {:induction false} ShortFirstDecides(pieces: seq<Piece>, at: Path)
    requires Layered(pieces, at) && ShortFirst(InPlace(pieces, at), at)
    ensures EmptyBeforeFiles(pieces)
  {
    if pieces != [] {
      var n := |pieces| - 1;
      var some, last := pieces[..n], pieces[n];
      var before, all := InPlace(some, at), InPlace(pieces, at);
      InPlaceLast(pieces, at);
      hide InPlace;
      ShortFirstBefore(before, all, at);
      assert Layered(some, at);
      hide ShortFirst, Layered;
      ShortFirstDecides(some, at);
      if last.entry.node.Regular? {
        NothingDeep(some, at);
      }
      assert forall i :: 0 <= i < n ==> pieces[i] == some[i];
    }
  }

  lemma InPlaceLast(pieces: seq<Piece>, at: Path)
    requires pieces != []
    ensures var n := |pieces| - 1;
            var before, all := InPlace(pieces[..n], at), InPlace(pieces, at);
            && |before| <= |all| && all[..|before|] == before
            && (pieces[n].entry.node.Regular? ==> |before| < |all| && |all[|before|]| == |at| + 1)
  {
  }

  /** A front of such a list is such a list, and before a short path there are only short ones. */
  lemma ShortFirstBefore(before: seq<Path>, all: seq<Path>, at: Path)
    requires |before| <= |all| && all[..|before|] == before && ShortFirst(all, at)
    ensures ShortFirst(before, at)
    ensures |before| < |all| && |all[|before|]| <= |at| + 1 ==> forall p :: p in before ==> |p| <= |at| + 1
  {
    assert forall u :: 0 <= u < |before| ==> all[u] == before[u];
  }

  // The two orders list equally many files.

  /** Each piece has as many paths below it as the walk lists there. */
  ghost predicate SameCounts(pieces: seq<Piece>, at: Path) {
    forall i :: 0 <= i < |pieces| ==> |pieces[i].below| == |Below(pieces[i].entry, at)|
  }

  lemma BelowLast(pieces: seq<Piece>, at: Path)
    requires pieces != []
    ensures var n := |pieces| - 1;
            BelowAll(Map(pieces, EntryOf), at) == BelowAll(Map(pieces[..n], EntryOf), at) + Below(pieces[n].entry, at)
  {
    hide Below;
    var n := |pieces| - 1;
    MapFront(pieces, EntryOf, n);
    assert EntryOf(pieces[n]) == pieces[n].entry;
  }

  lemma {:induction false} InPlaceLength(pieces: seq<Piece>, at: Path)
    requires Layered(pieces, at) && SameCounts(pieces, at)
    ensures |InPlace(pieces, at)| == |Files(Map(pieces, EntryOf), at)| + |BelowAll(Map(pieces, EntryOf), at)|
    ensures |Nested(pieces)| == |BelowAll(Map(pieces, EntryOf), at)|
  {
    hide Below;
    if pieces != [] {
      var n := |pieces| - 1;
      InPlaceLength(pieces[..n], at);
      FilesLast(pieces, at);
      BelowLast(pieces, at);
    }
  }

  lemma LastDecides(pieces: seq<Piece>, at: Path)
    requires pieces != [] && SameCounts(pieces, at) && Layered(pieces, at)
    requires Nested(pieces) == BelowAll(Map(pieces, EntryOf), at)
    ensures var n := |pieces| - 1;
            && Nested(pieces[..n]) == BelowAll(Map(pieces[..n], EntryOf), at)
            && pieces[n].below == Below(pieces[n].entry, at)
  {
    hide Below;
    var n := |pieces| - 1;
    var some, last := pieces[..n], pieces[n];
    BelowLast(pieces, at);
    InPlaceLength(some, at);
    assert Nested(pieces) == Nested(some) + last.below;
    hide Map, BelowAll, InPlace, Files, Nested, Layered, SameCounts;
    SplitEqual(Nested(some), last.below, BelowAll(Map(some, EntryOf), at), Below(last.entry, at));
  }

  /** Equal concatenations of pieces of equal lengths are equal piece by piece. */
  lemma {:induction false} NestedDecides(pieces: seq<Piece>, at: Path)
    requires SameCounts(pieces, at) && Layered(pieces, at)
    requires Nested(pieces) == BelowAll(Map(pieces, EntryOf), at)
    ensures forall i :: 0 <= i < |pieces| ==> pieces[i].below == Below(pieces[i].entry, at)
  {
    hide Below, Nested, BelowAll, Map;
    if pieces != [] {
      LastDecides(pieces, at);
      NestedDecides(pieces[..|pieces| - 1], at);
      assert forall i :: 0 <= i < |pieces| - 1 ==> pieces[i] == pieces[..|pieces| - 1][i];
    }
  }

  lemma SplitEqual(a: seq<Path>, b: seq<Path>, c: seq<Path>, d: seq<Path>)
    requires a + b == c + d && |a| == |c|
    ensures a == c && b == d
  {
    assert a == (a + b)[..|a|] && c == (c + d)[..|a|];
    assert b == (a + b)[|a|..] && d == (c + d)[|a|..];
  }

  lemma {:induction false} NestedSame(pieces: seq<Piece>, at: Path)
    requires forall i :: 0 <= i < |pieces| ==> pieces[i].below == Below(pieces[i].entry, at)
    ensures Nested(pieces) == BelowAll(Map(pieces, EntryOf), at)
  {
    hide Below;
    if pieces != [] {
      NestedSame(pieces[..|pieces| - 1], at);
      BelowLast(pieces, at);
    }
  }

  // The directory as a whole.

  lemma PiecesAre(children: seq<Entry>, at: Path)
    ensures Map(DescribedPieces(children, at), EntryOf) == InOrder(children)
    ensures forall i :: 0 <= i < |children| ==>
              DescribedPieces(children, at)[i] == DescribedPiece(InOrder(children)[i], at)
  {
    hide InOrder, Described;
    var pieces := DescribedPieces(children, at);
    forall i | 0 <= i < |children| ensures Map(pieces, EntryOf)[i] == InOrder(children)[i] {
      assert Map(pieces, EntryOf)[i] == EntryOf(pieces[i]);
    }
  }

  lemma {:induction false} DescribedUnder(n: Node, at: Path)
    ensures forall p :: p in Described(n, at) ==> |p| > |at|
    decreases n
  {
    if n.Dir? {
      forall e | e in n.children ensures forall p :: p in DescribedPiece(e, at).below ==> |p| > |at| + 1 {
        var i :| 0 <= i < |n.children| && n.children[i] == e;
        DescribedUnder(n.children[i].node, at + [e.name]);
      }
      DescribedForm(n.children, at);
      PiecesAre(n.children, at);
      SortMembers(n.children, NameLeq);
      var pieces := DescribedPieces(n.children, at);
      hide Described, DescribedPieces;
      forall i | 0 <= i < |pieces| ensures forall p :: p in pieces[i].below ==> |p| > |at| {
        assert InOrder(n.children)[i] in n.children;
      }
      InPlaceUnder(pieces, at);
    }
  }

  lemma {:induction false} InPlaceUnder(pieces: seq<Piece>, at: Path)
    requires forall i :: 0 <= i < |pieces| ==> forall p :: p in pieces[i].below ==> |p| > |at|
    ensures forall p :: p in InPlace(pieces, at) ==> |p| > |at|
  {
    if pieces != [] {
      InPlaceUnder(pieces[..|pieces| - 1], at);
    }
  }

  lemma PiecesAreLayered(children: seq<Entry>, at: Path)
    ensures Layered(DescribedPieces(children, at), at)
  {
    PiecesAre(children, at);
    var pieces := DescribedPieces(children, at);
    hide DescribedPieces, InOrder;
    forall i | 0 <= i < |pieces|
      ensures pieces[i].entry.node.Regular? ==> pieces[i].below == []
      ensures forall p :: p in pieces[i].below ==> |p| > |at| + 1
    {
      var e := pieces[i].entry;
      DescribedUnder(e.node, at + [e.name]);
    }
  }

  /** The two orders always list equally many files. */
  lemma {:induction false} SameLength(n: Node, at: Path)
    ensures |Described(n, at)| == |Listing(n, at)|
    decreases n
  {
    if n.Dir? {
      forall e | e in n.children ensures |DescribedPiece(e, at).below| == |Below(e, at)| {
        var i :| 0 <= i < |n.children| && n.children[i] == e;
        SameLength(n.children[i].node, at + [e.name]);
      }
      ChildrenSameLength(n.children, at);
    }
  }

  lemma ChildrenSameLength(children: seq<Entry>, at: Path)
    requires forall e :: e in children ==> |DescribedPiece(e, at).below| == |Below(e, at)|
    ensures |Described(Dir(children), at)| == |Listing(Dir(children), at)|
    ensures SameCounts(DescribedPieces(children, at), at)
  {
    hide Described, Listing, Below;
    DescribedForm(children, at);
    ListingForm(children, at);
    PiecesAre(children, at);
    PiecesAreLayered(children, at);
    SortMembers(children, NameLeq);
    var pieces := DescribedPieces(children, at);
    hide DescribedPieces;
    forall i | 0 <= i < |pieces| ensures |pieces[i].below| == |Below(pieces[i].entry, at)| {
      assert InOrder(children)[i] in children;
    }
    InPlaceLength(pieces, at);
  }

  lemma {:induction false} FilesAreShort(entries: seq<Entry>, at: Path)
    ensures forall p :: p in Files(entries, at) ==> |p| == |at| + 1
  {
    if entries != [] {
      FilesAreShort(entries[..|entries| - 1], at);
    }
  }

  lemma {:induction false} BelowIsDeep(entries: seq<Entry>, at: Path)
    ensures forall p :: p in BelowAll(entries, at) ==> |p| > |at| + 1
  {
    forall p | p in BelowAll(entries, at) ensures |p| > |at| + 1 {
      BelowMember(entries, at, p);
      var e :| e in entries && p in Below(e, at);
      ListingMember(e.node, at + [e.name], p);
    }
  }

  lemma ListingIsShortFirst(children: seq<Entry>, at: Path)
    ensures ShortFirst(Listing(Dir(children), at), at)
  {
    ListingForm(children, at);
    FilesAreShort(InOrder(children), at);
    BelowIsDeep(InOrder(children), at);
    var files, below := Files(InOrder(children), at), BelowAll(InOrder(children), at);
    hide Files, BelowAll, InOrder, Listing;
    forall u | 0 <= u < |files| ensures |(files + below)[u]| == |at| + 1 {
      assert (files + below)[u] in files;
    }
    forall u | |files| <= u < |files + below| ensures |(files + below)[u]| > |at| + 1 {
      assert (files + below)[u] in below;
    }
  }

  /** One directory: the orders agree iff nothing non-empty comes before a file and they agree
      below every entry. */
  lemma OneDirectory(children: seq<Entry>, at: Path)
    ensures Listing(Dir(children), at) == Described(Dir(children), at) <==>
            EmptyBeforeFiles(DescribedPieces(children, at))
            && forall e :: e in children ==> Below(e, at) == DescribedPiece(e, at).below
  {
    forall e | e in children ensures |DescribedPiece(e, at).below| == |Below(e, at)| {
      SameLength(e.node, at + [e.name]);
    }
    hide Described, Listing, Below, DescribedPiece;
    ChildrenSameLength(children, at);
    DescribedForm(children, at);
    ListingForm(children, at);
    ListingIsShortFirst(children, at);
    PiecesAre(children, at);
    PiecesAreLayered(children, at);
    var pieces := DescribedPieces(children, at);
    assert forall i :: 0 <= i < |pieces| ==>
        pieces[i].entry == InOrder(children)[i] && pieces[i].below == DescribedPiece(InOrder(children)[i], at).below
    by {
      PieceEntries(children, at);
    }
    SortMembers(children, NameLeq);
    hide DescribedPieces, Layered, SameCounts;
    OrdersAgree(children, pieces, at);
  }

  lemma PieceEntries(children: seq<Entry>, at: Path)
    ensures forall i :: 0 <= i < |children| ==> DescribedPieces(children, at)[i].entry == InOrder(children)[i]
  {
    PiecesAre(children, at);
  }

  lemma OrdersAgree(children: seq<Entry>, pieces: seq<Piece>, at: Path)
    requires |pieces| == |children| && Layered(pieces, at) && SameCounts(pieces, at)
    requires Map(pieces, EntryOf) == InOrder(children)
    requires forall i :: 0 <= i < |pieces| ==>
               pieces[i].entry == InOrder(children)[i]
               && pieces[i].below == DescribedPiece(InOrder(children)[i], at).below
    requires forall e :: e in InOrder(children) <==> e in children
    requires ShortFirst(Files(InOrder(children), at) + BelowAll(InOrder(children), at), at)
    ensures Files(InOrder(children), at) + BelowAll(InOrder(children), at) == InPlace(pieces, at) <==>
            EmptyBeforeFiles(pieces) && forall e :: e in children ==> Below(e, at) == DescribedPiece(e, at).below
  {
    hide Below, DescribedPiece, Layered, SameCounts;
    var files, below := Files(InOrder(children), at), BelowAll(InOrder(children), at);
    if files + below == InPlace(pieces, at) {
      ShortFirstDecides(pieces, at);
      InPlaceRearranged(pieces, at);
      SplitEqual(files, below, files, Nested(pieces));
      NestedDecides(pieces, at);
      forall e | e in children ensures Below(e, at) == DescribedPiece(e, at).below {
        var i :| 0 <= i < |pieces| && InOrder(children)[i] == e;
      }
    }
    if EmptyBeforeFiles(pieces) && forall e :: e in children ==> Below(e, at) == DescribedPiece(e, at).below {
      forall i | 0 <= i < |pieces| ensures pieces[i].below == Below(pieces[i].entry, at) {
        assert InOrder(children)[i] in children;
      }
      InPlaceRearranged(pieces, at);
      NestedSame(pieces, at);
    }
  }

  lemma SortedByName(children: seq<Entry>, i: nat, j: nat)
    requires Different(children) && i < |children| && j < |children| && i != j
    ensures NameLeq(InOrder(children)[i], InOrder(children)[j]) <==> i < j
  {
    NamesTotal();
    SortAscends(children, NameLeq);
    SortedDifferent(children);
    var entries := InOrder(children);
    hide InOrder;
    LexTotal(entries[i].name, entries[j].name);
    assert entries[i].name != entries[j].name;
  }

  lemma NamesTotal()
    ensures Total(NameLeq)
  {
    forall a, b ensures NameLeq(a, b) || NameLeq(b, a) {
      LexTotal(a.name, b.name);
    }
    forall a, b, c | NameLeq(a, b) && NameLeq(b, c) ensures NameLeq(a, c) {
      LexTransitive(a.name, b.name, c.name);
    }
  }

  /** By position or by name: the same condition. */
  lemma FilesFirstHere(children: seq<Entry>, at: Path)
    requires Different(children)
    ensures EmptyBeforeFiles(DescribedPieces(children, at)) <==>
            forall a, b :: a in children && b in children && HoldsFile(a.node) && b.node.Regular? ==> !NameLeq(a, b)
  {
    var entries, pieces := InOrder(children), DescribedPieces(children, at);
    PiecesAre(children, at);
    SortMembers(children, NameLeq);
    assert forall e :: e in entries <==> e in children;
    hide InOrder, DescribedPieces, NameLeq;
    forall i | 0 <= i < |pieces| ensures pieces[i].below == [] <==> !HoldsFile(entries[i].node) {
      SameLength(entries[i].node, at + [entries[i].name]);
      ListingEmpty(entries[i].node, at + [entries[i].name]);
    }
    hide Described, DescribedPiece;
    assert forall i :: 0 <= i < |pieces| ==> pieces[i].entry == entries[i] by { PieceEntries(children, at); }
    if EmptyBeforeFiles(pieces) {
      forall a, b | a in children && b in children && HoldsFile(a.node) && b.node.Regular? ensures !NameLeq(a, b) {
        assert a in entries && b in entries;
        var i :| 0 <= i < |entries| && entries[i] == a;
        var j :| 0 <= j < |entries| && entries[j] == b;
        SortedByName(children, i, j);
      }
    }
    if forall a, b :: a in children && b in children && HoldsFile(a.node) && b.node.Regular? ==> !NameLeq(a, b) {
      forall i, j | 0 <= i < j < |pieces| && pieces[j].entry.node.Regular? ensures pieces[i].below == [] {
        assert entries[i] in children && entries[j] in children;
        SortedByName(children, i, j);
      }
    }
  }

  /** The walk gives the described order iff, in every directory, no subdirectory with files in
      it sorts before a regular file. */
  lemma {:induction false} DescribedOrderExactly(n: Node, at: Path)
    requires Named(n)
    ensures Listing(n, at) == Described(n, at) <==> FilesFirst(n)
    decreases n
  {
    if n.Dir? {
      var children := n.children;
      forall e | e in children ensures Below(e, at) == DescribedPiece(e, at).below <==> FilesFirst(e.node) {
        var i :| 0 <= i < |children| && children[i] == e;
        DescribedOrderExactly(children[i].node, at + [e.name]);
      }
      assert Different(children);
      hide Listing, Described, Below, DescribedPiece, EmptyBeforeFiles, NameLeq, HoldsFile, Named, Different;
      OneDirectory(children, at);
      FilesFirstHere(children, at);
      EveryChild(children);
    }
  }

  lemma EveryChild(children: seq<Entry>)
    ensures (forall e :: e in children ==> FilesFirst(e.node)) <==> forall i :: 0 <= i < |children| ==>
        FilesFirst(children[i].node)
  {
    hide FilesFirst;
  }

  /** They do differ: directory "a" with a file in it, beside a file "b". */
  lemma DescribedOrderDiffers()
    ensures var tree := Dir([Entry([97], Dir([Entry([102], Regular)])), Entry([98], Regular)]);
            && Named(tree) && !FilesFirst(tree)
            && Listing(tree, []) != Described(tree, [])
  {
    var inner := Dir([Entry([102], Regular)]);
    var tree := Dir([Entry([97], inner), Entry([98], Regular)]);
    assert HoldsFile(inner) by { assert inner.children[0].node.Regular?; }
    assert tree.children[0] in tree.children && tree.children[1] in tree.children;
    assert NameLeq(tree.children[0], tree.children[1]);
    assert Named(inner) && Named(Regular);
    hide HoldsFile, NameLeq;
    DescribedOrderExactly(tree, []);
  }
}
