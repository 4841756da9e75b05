/**
 Facts about sequences that several modules share.
 */
module Seqs {

  datatype Option<+T> = None | Some(value: T)

  /** Bytes, by their values. */
  type Bytes = seq<nat>

  ghost predicate NoDup<T(!new)>(s: seq<T>) {
    forall i, j :: 0 <= i < j < |s| ==> s[i] != s[j]
  }

  function ToSet<T>(s: seq<T>): set<T> {
    set x | x in s
  }

  function Min(a: int, b: int): int { if a <= b then a else b }

  function Max(a: int, b: int): int { if a >= b then a else b }

  /** The entries of `s` that lie in `keep`, in their order: `[x for x in s if x in keep]`. */
  function Filter<T(!new)>(s: seq<T>, keep: set<T>): (r: seq<T>)
    ensures |r| <= |s|
    ensures forall x :: x in r <==> x in s && x in keep
  {
    if s == [] then []
    else
      var rest := Filter(s[..|s| - 1], keep);
      if s[|s| - 1] in keep then rest + [s[|s| - 1]] else rest
  }

  lemma {:induction false} FilterNoDup<T(!new)>(s: seq<T>, keep: set<T>)
    requires NoDup(s)
    ensures NoDup(Filter(s, keep))
  {
    if s != [] {
      FilterNoDup(s[..|s| - 1], keep);
      assert s[|s| - 1] !in s[..|s| - 1];
    }
  }

  lemma {:induction false} FilterAll<T(!new)>(s: seq<T>, keep: set<T>)
    requires ToSet(s) <= keep
    ensures Filter(s, keep) == s
  {
    if s != [] {
      assert ToSet(s[..|s| - 1]) <= ToSet(s);
      assert s[|s| - 1] in ToSet(s);
      FilterAll(s[..|s| - 1], keep);
    }
  }

  lemma {:induction false} FilterConcat<T(!new)>(a: seq<T>, b: seq<T>, keep: set<T>)
    ensures Filter(a + b, keep) == Filter(a, keep) + Filter(b, keep)
  {
    if b == [] {
      assert a + b == a;
    } else {
      assert (a + b)[..|a + b| - 1] == a + b[..|b| - 1];
      FilterConcat(a, b[..|b| - 1], keep);
    }
  }

  lemma {:induction false} FilterKeepsOrder<T(!new)>(s: seq<T>, keep: set<T>, i: nat, j: nat) returns (k: nat, l: nat)
    requires i < j < |Filter(s, keep)|
    ensures k < l < |s| && s[k] == Filter(s, keep)[i] && s[l] == Filter(s, keep)[j]
  {
    var n := |s| - 1;
    var rest := Filter(s[..n], keep);
    if j < |rest| {
      k, l := FilterKeepsOrder(s[..n], keep, i, j);
    } else {
      assert rest[i] in s[..n];
      k :| 0 <= k < n && s[..n][k] == rest[i];
      l := n;
    }
  }

  lemma {:induction false} FilterTwice<T(!new)>(s: seq<T>, p: set<T>, q: set<T>)
    ensures Filter(Filter(s, p), q) == Filter(s, p * q)
  {
    if s != [] {
      FilterTwice(s[..|s| - 1], p, q);
      FilterConcat(Filter(s[..|s| - 1], p), [s[|s| - 1]], q);
    }
  }

  /** One more element: what it does to the set of members and to freedom from repeats. */
  lemma AddLast<T(!new)>(s: seq<T>, x: T)
    ensures |ToSet(s + [x])| == |ToSet(s)| + if x in s then 0 else 1
    ensures NoDup(s + [x]) <==> NoDup(s) && x !in s
  {
    assert ToSet(s + [x]) == ToSet(s) + {x};
    var t := s + [x];
    assert forall i :: 0 <= i < |s| ==> t[i] == s[i];
    if NoDup(t) {
      assert t[|s|] == x;
    }
  }

  lemma {:induction false} CardNoDup<T(!new)>(s: seq<T>)
    requires NoDup(s)
    ensures |ToSet(s)| == |s|
  {
    CardIffNoDup(s);
  }

  /** `len(s) == len(set(s))` is freedom from repeats. */
  lemma {:induction false} CardIffNoDup<T(!new)>(s: seq<T>)
    ensures |ToSet(s)| <= |s|
    ensures |ToSet(s)| == |s| <==> NoDup(s)
  {
    if s != [] {
      var n := |s| - 1;
      CardIffNoDup(s[..n]);
      AddLast(s[..n], s[n]);
      assert s == s[..n] + [s[n]];
    }
  }

  lemma NoDupConcat<T(!new)>(a: seq<T>, b: seq<T>)
    requires NoDup(a) && NoDup(b)
    requires forall x :: x in a ==> x !in b
    ensures NoDup(a + b)
  {
    forall i, j | 0 <= i < j < |a + b| ensures (a + b)[i] != (a + b)[j] {
      if i < |a| <= j {
        assert (a + b)[i] in a && (a + b)[j] in b;
      }
    }
  }

  /** A permutation has the same members and keeps freedom from repeats. */
  lemma ShuffleKeeps<T(!new)>(s: seq<T>, t: seq<T>)
    requires multiset(s) == multiset(t)
    ensures |s| == |t| && ToSet(s) == ToSet(t)
    ensures NoDup(s) ==> NoDup(t)
  {
    assert |s| == |multiset(s)| == |multiset(t)| == |t|;
    forall x ensures x in s <==> x in t {
      assert x in s <==> x in multiset(s);
      assert x in t <==> x in multiset(t);
    }
    if NoDup(s) {
      forall i, j | 0 <= i < j < |t| ensures t[i] != t[j] {
        if t[i] == t[j] {
          var x := t[i];
          assert t == t[..i] + [x] + t[i + 1..j] + [x] + t[j + 1..];
          assert multiset(t)[x] >= 2;
          OnceIfNoDup(s, x);
        }
      }
    }
  }

  lemma {:induction false} OnceIfNoDup<T(!new)>(s: seq<T>, x: T)
    requires NoDup(s)
    ensures multiset(s)[x] <= 1
  {
    if s != [] {
      OnceIfNoDup(s[..|s| - 1], x);
      assert s == s[..|s| - 1] + [s[|s| - 1]];
      assert x == s[|s| - 1] ==> x !in s[..|s| - 1];
    }
  }

  function Flatten<T>(lists: seq<seq<T>>): seq<T> {
    if lists == [] then [] else Flatten(lists[..|lists| - 1]) + lists[|lists| - 1]
  }

  lemma {:induction false} FlattenMembers<T(!new)>(lists: seq<seq<T>>)
    ensures forall x :: x in Flatten(lists) <==> exists i :: 0 <= i < |lists| && x in lists[i]
  {
    if lists != [] {
      var n := |lists| - 1;
      FlattenMembers(lists[..n]);
      assert forall i :: 0 <= i < n ==> lists[..n][i] == lists[i];
      forall x ensures x in Flatten(lists) <==> exists i :: 0 <= i < |lists| && x in lists[i] {
        assert x in Flatten(lists) <==> (exists i :: 0 <= i < n && x in lists[..n][i]) || x in lists[n];
        if i :| 0 <= i < n && x in lists[..n][i] {
          assert x in lists[i];
        }
        if i :| 0 <= i < |lists| && x in lists[i] {
          assert i < n ==> x in lists[..n][i];
        }
      }
    }
  }

  /** Lists of equal lengths flatten to equal lengths; one longer list adds the difference. */
  lemma {:induction false} FlattenLength<T, U>(a: seq<seq<T>>, b: seq<seq<U>>, i: nat, extra: nat)
    requires |a| == |b| && (extra == 0 || i < |a|)
    requires forall j :: 0 <= j < |a| ==> |b[j]| == |a[j]| + if j == i then extra else 0
    ensures |Flatten(b)| == |Flatten(a)| + if i < |a| then extra else 0
  {
    if a != [] {
      var n := |a| - 1;
      if i == n {
        FlattenLength(a[..n], b[..n], 0, 0);
      } else {
        FlattenLength(a[..n], b[..n], i, extra);
      }
    }
  }

  /** `random.shuffle`: some permutation, chosen swap by swap. */
  method Shuffle<T(==)>(items: seq<T>) returns (deck: seq<T>)
    ensures multiset(deck) == multiset(items)
  {
    deck := items;
    var i := |deck|;
    while i > 1
      invariant i <= |deck| == |items|
      invariant multiset(deck) == multiset(items)
    {
      i := i - 1;
      var j: int :| 0 <= j <= i;
      deck := deck[i := deck[j]][j := deck[i]];
    }
  }

  function Map<S, T>(s: seq<S>, f: S -> T): (r: seq<T>)
    ensures |r| == |s|
  {
    seq(|s|, i requires 0 <= i < |s| => f(s[i]))
  }

  lemma MapHead<S, T>(s: seq<S>, f: S -> T)
    requires s != []
    ensures Map(s, f) == [f(s[0])] + Map(s[1..], f)
  {
  }

  lemma MapFront<S, T>(s: seq<S>, f: S -> T, n: nat)
    requires n <= |s|
    ensures Map(s, f)[..n] == Map(s[..n], f)
    ensures n < |s| ==> Map(s, f)[n] == f(s[n])
  {
  }

  /** Whatever agrees with the map place by place is the map. */
  lemma MapIs<S, T>(s: seq<S>, f: S -> T, t: seq<T>)
    requires |t| == |s| && forall i :: 0 <= i < |s| ==> t[i] == f(s[i])
    ensures t == Map(s, f)
  {
  }

  function Take<T>(s: seq<T>, n: nat): seq<T> {
    s[..Min(n, |s|)]
  }

  ghost predicate Starts<T>(prefix: seq<T>, s: seq<T>) {
    |prefix| <= |s| && s[..|prefix|] == prefix
  }

  lemma StartsTwice<T>(a: seq<T>, b: seq<T>, c: seq<T>)
    requires Starts(a, b) && Starts(b, c)
    ensures Starts(a, c)
  {
    assert a == b[..|a|] == c[..|b|][..|a|] == c[..|a|];
  }
}
