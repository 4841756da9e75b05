/**
 `sorted(items, key=...)`: a stable insertion sort over any total order.
 */
module Sorting {
  import opened Seqs

  ghost predicate Total<T(!new)>(leq: (T, T) -> bool) {
    && (forall a, b :: leq(a, b) || leq(b, a))
    && (forall a, b, c :: leq(a, b) && leq(b, c) ==> leq(a, c))
  }

  ghost predicate Ascending<T(!new)>(s: seq<T>, leq: (T, T) -> bool) {
    forall i, j :: 0 <= i < j < |s| ==> leq(s[i], s[j])
  }

  /** The first place from which every entry is strictly above x. */
  function Position<T>(s: seq<T>, x: T, leq: (T, T) -> bool): (p: nat)
    ensures p <= |s|
    ensures forall i :: p <= i < |s| ==> !leq(s[i], x)
    ensures p > 0 ==> leq(s[p - 1], x)
  {
    if s == [] then 0
    else if leq(s[|s| - 1], x) then |s|
    else Position(s[..|s| - 1], x, leq)
  }

  function Sort<T>(s: seq<T>, leq: (T, T) -> bool): (r: seq<T>)
    ensures |r| == |s|
  {
    if s == [] then []
    else
      var r, x := Sort(s[..|s| - 1], leq), s[|s| - 1];
      var p := Position(r, x, leq);
      r[..p] + [x] + r[p..]
  }

  lemma {:induction false} SortPermutes<T(!new)>(s: seq<T>, leq: (T, T) -> bool)
    ensures multiset(Sort(s, leq)) == multiset(s)
  {
    if s != [] {
      var n := |s| - 1;
      var r := Sort(s[..n], leq);
      SortPermutes(s[..n], leq);
      InsertPermutes(r, s[n], Position(r, s[n], leq));
      assert s == s[..n] + [s[n]];
    }
  }

  lemma InsertPermutes<T(!new)>(r: seq<T>, x: T, p: nat)
    requires p <= |r|
    ensures multiset(r[..p] + [x] + r[p..]) == multiset(r + [x])
  {
    assert r == r[..p] + r[p..];
  }

  lemma InsertAscends<T(!new)>(r: seq<T>, x: T, leq: (T, T) -> bool)
    requires Total(leq) && Ascending(r, leq)
    ensures var p := Position(r, x, leq); Ascending(r[..p] + [x] + r[p..], leq)
  {
    var p := Position(r, x, leq);
    var t := r[..p] + [x] + r[p..];
    forall i, j | 0 <= i < j < |t| ensures leq(t[i], t[j]) {
      if j == p {
        assert i == p - 1 || leq(r[i], r[p - 1]);
      } else if i == p {
        assert !leq(r[j - 1], x);
      }
    }
  }

  lemma {:induction false} SortAscends<T(!new)>(s: seq<T>, leq: (T, T) -> bool)
    requires Total(leq)
    ensures Ascending(Sort(s, leq), leq)
  {
    if s != [] {
      SortAscends(s[..|s| - 1], leq);
      InsertAscends(Sort(s[..|s| - 1], leq), s[|s| - 1], leq);
    }
  }

  lemma DropFirst<T(!new)>(s: seq<T>)
    requires s != [] && NoDup(s)
    ensures NoDup(s[1..])
    ensures forall x :: x in s[1..] <==> x in s && x != s[0]
  {
    assert s == [s[0]] + s[1..];
  }

  /** An order is determined by its members once no two of them are equivalent. */
  lemma {:induction false} AscendingIsUnique<T(!new)>(a: seq<T>, b: seq<T>, leq: (T, T) -> bool)
    requires Ascending(a, leq) && Ascending(b, leq)
    requires NoDup(a) && NoDup(b)
    requires forall x :: x in a <==> x in b
    requires forall x, y :: x in a && y in a && leq(x, y) && leq(y, x) ==> x == y
    ensures a == b
  {
    assert ToSet(a) == ToSet(b);
    CardNoDup(a);
    CardNoDup(b);
    if a != [] {
      assert a[0] in b;
      assert b[0] in a;
      var i :| 0 <= i < |b| && b[i] == a[0];
      var j :| 0 <= j < |a| && a[j] == b[0];
      assert a[0] == b[0];
      DropFirst(a);
      DropFirst(b);
      AscendingIsUnique(a[1..], b[1..], leq);
      assert a == [a[0]] + a[1..] && b == [b[0]] + b[1..];
    }
  }

  /** Sorting only looks at what the order looks at: it commutes with any map that keeps it. */
  lemma {:induction false} SortCommutes<S(!new), T(!new)>(
      s: seq<S>, f: S -> T, leq: (S, S) -> bool, leq': (T, T) -> bool)
    requires forall a, b :: leq(a, b) == leq'(f(a), f(b))
    ensures Sort(Map(s, f), leq') == Map(Sort(s, leq), f)
  {
    if s != [] {
      var n := |s| - 1;
      SortCommutes(s[..n], f, leq, leq');
      MapFront(s, f, n);
      var r := Sort(s[..n], leq);
      PositionCommutes(r, s[n], f, leq, leq');
      MapInsert(r, s[n], Position(r, s[n], leq), f);
    }
  }

  lemma MapInsert<S, T>(r: seq<S>, x: S, p: nat, f: S -> T)
    requires p <= |r|
    ensures Map(r[..p] + [x] + r[p..], f) == Map(r, f)[..p] + [f(x)] + Map(r, f)[p..]
  {
  }

  lemma {:induction false} PositionCommutes<S(!new), T(!new)>(
      s: seq<S>, x: S, f: S -> T, leq: (S, S) -> bool, leq': (T, T) -> bool)
    requires forall a, b :: leq(a, b) == leq'(f(a), f(b))
    ensures Position(Map(s, f), f(x), leq') == Position(s, x, leq)
  {
    if s != [] {
      var n := |s| - 1;
      MapFront(s, f, n);
      PositionCommutes(s[..n], x, f, leq, leq');
    }
  }

  /** Sorting what is sorted changes nothing. */
  lemma {:induction false} SortOfAscending<T(!new)>(s: seq<T>, leq: (T, T) -> bool)
    requires Ascending(s, leq)
    ensures Sort(s, leq) == s
  {
    if s != [] {
      var n := |s| - 1;
      SortOfAscending(s[..n], leq);
      assert n > 0 ==> leq(s[n - 1], s[n]);
    }
  }

  lemma SortMembers<T(!new)>(s: seq<T>, leq: (T, T) -> bool)
    ensures forall x :: x in Sort(s, leq) <==> x in s
  {
    SortPermutes(s, leq);
    forall x ensures x in Sort(s, leq) <==> x in s {
      assert x in s <==> x in multiset(s);
      assert x in Sort(s, leq) <==> x in multiset(Sort(s, leq));
    }
  }
}
