/**
 Canonical bytes identify values (rlvr/v3/canonical.py): the main results.
 */
module CanonicalIdentity {
  import opened Seqs
  import opened Sorting
  import opened Unicode
  import opened Canonical
  import opened CanonicalLaws

  // ---- Valid values always print ----------------------------------------------------------------

  lemma {:induction false} JoinScalars(parts: seq<Text>)
    requires forall i :: 0 <= i < |parts| ==> Scalars(parts[i])
    ensures Scalars(Join(parts))
  {
    if |parts| > 1 {
      JoinScalars(parts[1..]);
    }
  }

  lemma {:induction false} EscapedScalars(s: Text)
    requires Scalars(s)
    ensures Scalars(Escaped(s))
  {
    if s != [] {
      EscapedScalars(s[1..]);
      assert Scalars(Escape(s[0]));
    }
  }

  lemma {:induction false} DecimalScalars(n: nat)
    ensures Scalars(Digits(n))
    decreases n
  {
    if n >= 10 {
      DecimalScalars(n / 10);
    }
  }

  lemma MemberScalars(key: Text, text: Text)
    requires Scalars(key) && Scalars(text)
    ensures Scalars(MemberText((key, text)))
  {
    EscapedScalars(key);
    hide Escaped;
  }

  lemma TextsAt(members: seq<(Text, Json)>, i: nat)
    requires i < |members|
    ensures TextsOf(members)[i] == MemberText((members[i].0, Print(members[i].1)))
  {
    assert Map(members, PrintedMember)[i] == PrintedMember(members[i]);
    hide MemberText;
  }

  lemma ObjScalars(members: seq<(Text, Json)>)
    requires forall m :: m in members ==> Scalars(m.0) && Scalars(Print(m.1))
    ensures Scalars(Print(Obj(members)))
  {
    hide Print;
    ObjForms(members);
    SortMembers(members, KeyLeq<Json>);
    var sorted := InOrder(members);
    forall i | 0 <= i < |sorted| ensures Scalars(TextsOf(sorted)[i]) {
      assert sorted[i] in members;
      TextsAt(sorted, i);
      MemberScalars(sorted[i].0, Print(sorted[i].1));
    }
    hide TextsOf, InOrder;
    JoinScalars(TextsOf(sorted));
  }

  lemma ArrScalars(items: seq<Json>)
    requires forall i :: 0 <= i < |items| ==> Scalars(Print(items[i]))
    ensures Scalars(Print(Arr(items)))
  {
    hide Print;
    ArrForms(items);
    JoinScalars(Map(items, Print));
  }

  lemma {:induction false} NeverRaises(v: Json, depth: nat, nfc: Text -> bool)
    requires Valid(v, depth, nfc)
    ensures !Raises(v, depth)
    decreases v
  {
    match v {
      case Arr(items) =>
        forall i | 0 <= i < |items| ensures !Raises(items[i], depth + 1) {
          NeverRaises(items[i], depth + 1, nfc);
        }
      case Obj(members) =>
        forall i | 0 <= i < |members| ensures !Raises(members[i].1, depth + 1) {
          NeverRaises(members[i].1, depth + 1, nfc);
        }
      case _ =>
    }
  }

  lemma {:induction false} PrintsScalars(v: Json, depth: nat, nfc: Text -> bool)
    requires Valid(v, depth, nfc)
    ensures Scalars(Print(v))
    decreases v
  {
    match v {
      case Arr(items) =>
        forall i | 0 <= i < |items| ensures Scalars(Print(items[i])) {
          PrintsScalars(items[i], depth + 1, nfc);
        }
        hide Print;
        ArrScalars(items);
      case Obj(members) =>
        forall m | m in members ensures Scalars(m.0) && Scalars(Print(m.1)) {
          var i :| 0 <= i < |members| && members[i] == m;
          PrintsScalars(members[i].1, depth + 1, nfc);
        }
        hide Print;
        ObjScalars(members);
      case Str(s) => EscapedScalars(s);
      case Int(i) => DecimalScalars(if i < 0 then -i else i);
      case _ =>
    }
  }

  /** A validated value never makes `_serialize` or the encoding fail. */
  lemma ValidatedNeverFails(v: Json, nfc: Text -> bool)
    ensures CanonicalJsonBytes(v, nfc).Some? <==> Valid(v, 0, nfc)
    ensures Valid(v, 0, nfc) ==> Scalars(Print(v)) && CanonicalJsonBytes(v, nfc) == Some(EncodeUtf8(Print(v)))
  {
    if Valid(v, 0, nfc) {
      NeverRaises(v, 0, nfc);
      PrintsScalars(v, 0, nfc);
    }
  }

  // ---- Order does not matter --------------------------------------------------------------------

  lemma {:induction false} AsMapAt<T(!new)>(pairs: seq<(Text, T)>)
    requires NoDup(Keys(pairs))
    ensures forall p :: p in pairs <==> p.0 in AsMap(pairs) && AsMap(pairs)[p.0] == p.1
  {
    if pairs != [] {
      var n := |pairs| - 1;
      var some, last := pairs[..n], pairs[n];
      assert Keys(pairs) == Keys(some) + [last.0];
      AddLast(Keys(some), last.0);
      AsMapAt(some);
      AsMapKeys(some);
      assert last.0 !in AsMap(some);
      assert AsMap(pairs) == AsMap(some)[last.0 := last.1];
      hide AsMap, Keys, NoDup;
      forall p ensures p in pairs <==> p.0 in AsMap(pairs) && AsMap(pairs)[p.0] == p.1 {
        assert p in pairs <==> p in some || p == last;
      }
    }
  }

  lemma SameMap<T(!new)>(a: seq<(Text, T)>, b: seq<(Text, T)>)
    requires NoDup(Keys(a)) && NoDup(Keys(b)) && forall p :: p in a <==> p in b
    ensures AsMap(a) == AsMap(b)
  {
    AsMapAt(a);
    AsMapAt(b);
    hide AsMap, Keys;
    forall k | k in AsMap(a) ensures k in AsMap(b) && AsMap(b)[k] == AsMap(a)[k] {
      assert (k, AsMap(a)[k]) in a;
    }
    forall k | k in AsMap(b) ensures k in AsMap(a) {
      assert (k, AsMap(b)[k]) in b;
    }
  }

  lemma MapMembers<S(!new), T(!new)>(a: seq<S>, b: seq<S>, f: S -> T)
    requires forall x :: x in a ==> x in b
    ensures forall y :: y in Map(a, f) ==> y in Map(b, f)
  {
    forall y | y in Map(a, f) ensures y in Map(b, f) {
      var i :| 0 <= i < |a| && y == f(a[i]);
      assert a[i] in b;
      var k :| 0 <= k < |b| && b[k] == a[i];
      assert Map(b, f)[k] == y;
    }
  }

  /** Sorting the members leaves the dictionary as it was. */
  lemma SortKeepsDictionary(members: seq<(Text, Json)>)
    requires NoDup(Keys(members))
    ensures AsMap(Map(InOrder(members), DenotedMember)) == AsMap(Map(members, DenotedMember))
  {
    SortedPairs(members);
    var sorted := InOrder(members);
    hide InOrder;
    MapMembers(sorted, members, DenotedMember);
    MapMembers(members, sorted, DenotedMember);
    assert Keys(Map(sorted, DenotedMember)) == Keys(sorted);
    assert Keys(Map(members, DenotedMember)) == Keys(members);
    SameMap(Map(sorted, DenotedMember), Map(members, DenotedMember));
  }

  /** The canonical form is the same value. */
  lemma {:induction false} CanonIsSameValue(v: Json)
    requires Keyed(v)
    ensures Denote(Canon(v)) == Denote(v)
    decreases v
  {
    match v {
      case Arr(items) =>
        forall i | 0 <= i < |items| ensures Denote(Canon(items[i])) == Denote(items[i]) {
          CanonIsSameValue(items[i]);
        }
        ArrForms(items);
        ArrForms(Map(items, Canon));
        hide Denote, Canon;
        assert Map(Map(items, Canon), Denote) == Map(items, Denote);
      case Obj(members) =>
        forall m | m in members ensures Denote(Canon(m.1)) == Denote(m.1) {
          var i :| 0 <= i < |members| && members[i] == m;
          CanonIsSameValue(members[i].1);
        }
        ObjIsSameValue(members);
      case _ =>
    }
  }

  lemma ObjIsSameValue(members: seq<(Text, Json)>)
    requires NoDup(Keys(members)) && forall m :: m in members ==> Denote(Canon(m.1)) == Denote(m.1)
    ensures Denote(Canon(Obj(members))) == Denote(Obj(members))
  {
    hide Denote, Canon, Print;
    SortedPairs(members);
    SortKeepsDictionary(members);
    ObjForms(members);
    var sorted := InOrder(members);
    ObjForms(Map(sorted, CanonMember));
    forall i | 0 <= i < |sorted| ensures Denote(Canon(sorted[i].1)) == Denote(sorted[i].1) {
      assert sorted[i] in members;
    }
    hide InOrder, AsMap, NoDup, TextsOf, Join;
    SameDenoted(sorted);
  }

  lemma SameDenoted(pairs: seq<(Text, Json)>)
    requires forall i :: 0 <= i < |pairs| ==> Denote(Canon(pairs[i].1)) == Denote(pairs[i].1)
    ensures Map(Map(pairs, CanonMember), DenotedMember) == Map(pairs, DenotedMember)
  {
    hide Denote, Canon;
    var canons := Map(pairs, CanonMember);
    forall i | 0 <= i < |pairs| ensures Map(canons, DenotedMember)[i] == Map(pairs, DenotedMember)[i] {
      assert canons[i] == CanonMember(pairs[i]);
      assert Map(canons, DenotedMember)[i] == DenotedMember(canons[i]);
      assert Map(pairs, DenotedMember)[i] == DenotedMember(pairs[i]);
    }
  }

  lemma KeyOrder<T(!new)>()
    ensures Total(KeyLeq<T>)
  {
    forall a: (Text, T), b: (Text, T) ensures KeyLeq(a, b) || KeyLeq(b, a) {
      LexTotal(Utf16Be(a.0), Utf16Be(b.0));
    }
    forall a: (Text, T), b: (Text, T), c: (Text, T) | KeyLeq(a, b) && KeyLeq(b, c) ensures KeyLeq(a, c) {
      LexTransitive(Utf16Be(a.0), Utf16Be(b.0), Utf16Be(c.0));
    }
  }

  /** Printing the canonical form prints the value. */
  lemma {:induction false} CanonPrintsSame(v: Json)
    ensures Print(Canon(v)) == Print(v)
    decreases v
  {
    match v {
      case Arr(items) =>
        forall i | 0 <= i < |items| ensures Print(Canon(items[i])) == Print(items[i]) {
          CanonPrintsSame(items[i]);
        }
        ArrForms(items);
        ArrForms(Map(items, Canon));
        hide Print, Canon;
        assert Map(Map(items, Canon), Print) == Map(items, Print);
      case Obj(members) =>
        forall m | m in members ensures Print(Canon(m.1)) == Print(m.1) {
          var i :| 0 <= i < |members| && members[i] == m;
          CanonPrintsSame(members[i].1);
        }
        ObjPrintsSame(members);
      case _ =>
    }
  }

  lemma ObjPrintsSame(members: seq<(Text, Json)>)
    requires forall m :: m in members ==> Print(Canon(m.1)) == Print(m.1)
    ensures Print(Canon(Obj(members))) == Print(Obj(members))
  {
    hide Print, Canon;
    ObjForms(members);
    SortMembers(members, KeyLeq<Json>);
    KeyOrder<Json>();
    SortAscends(members, KeyLeq<Json>);
    var sorted := InOrder(members);
    assert Ascending(sorted, KeyLeq<Json>) && forall m :: m in sorted <==> m in members;
    hide InOrder;
    CanonInOrder(sorted);
    forall i | 0 <= i < |sorted| ensures Print(Canon(sorted[i].1)) == Print(sorted[i].1) {
      assert sorted[i] in members;
    }
    SameTexts(sorted);
    hide TextsOf, Map;
    ObjForms(Map(sorted, CanonMember));
  }

  lemma SameTexts(sorted: seq<(Text, Json)>)
    requires forall i :: 0 <= i < |sorted| ==> Print(Canon(sorted[i].1)) == Print(sorted[i].1)
    ensures TextsOf(Map(sorted, CanonMember)) == TextsOf(sorted)
  {
    hide Print, Canon;
    var pairs := Map(sorted, CanonMember);
    forall i | 0 <= i < |sorted| ensures TextsOf(pairs)[i] == TextsOf(sorted)[i] {
      assert pairs[i] == CanonMember(sorted[i]);
      TextsAt(pairs, i);
      TextsAt(sorted, i);
    }
  }

  lemma CanonInOrder(sorted: seq<(Text, Json)>)
    requires Ascending(sorted, KeyLeq<Json>)
    ensures InOrder(Map(sorted, CanonMember)) == Map(sorted, CanonMember)
  {
    hide Canon;
    var pairs := Map(sorted, CanonMember);
    forall i, j | 0 <= i < j < |pairs| ensures KeyLeq(pairs[i], pairs[j]) {
      assert KeyLeq(sorted[i], sorted[j]);
    }
    SortOfAscending(pairs, KeyLeq<Json>);
  }

  // ---- Equal values have one canonical form -----------------------------------------------------

  /** Every member of `a` has a counterpart in `b` with the same key and canonical value. */
  ghost predicate Matched(a: seq<(Text, Json)>, b: seq<(Text, Json)>) {
    forall m :: m in a ==> CanonMember(m) in Map(b, CanonMember)
  }

  lemma MatchedForms(a: seq<(Text, Json)>, b: seq<(Text, Json)>)
    requires NoDup(Keys(a)) && NoDup(Keys(b)) && Matched(a, b)
    ensures forall p :: p in Map(InOrder(a), CanonMember) ==> p in Map(InOrder(b), CanonMember)
  {
    hide Canon;
    SortedPairs(a);
    SortedPairs(b);
    var x, y := InOrder(a), InOrder(b);
    hide InOrder;
    MapMembers(b, y, CanonMember);
    forall p | p in Map(x, CanonMember) ensures p in Map(y, CanonMember) {
      var i :| 0 <= i < |x| && p == CanonMember(x[i]);
      assert x[i] in a;
    }
  }

  /** Canonical members are in strict key order. */
  lemma FormIsOrdered(members: seq<(Text, Json)>)
    requires NoDup(Keys(members))
    ensures var pairs := Map(InOrder(members), CanonMember);
            Ascending(pairs, KeyLeq<Json>) && NoDup(pairs) && NoDup(Keys(pairs))
  {
    hide Canon;
    SortedPairs(members);
    KeyOrder<Json>();
    SortAscends(members, KeyLeq<Json>);
    var sorted := InOrder(members);
    assert Ascending(sorted, KeyLeq<Json>);
    hide InOrder, Sort;
    var pairs := Map(sorted, CanonMember);
    assert Keys(pairs) == Keys(sorted);
    forall i, j | 0 <= i < j < |pairs| ensures KeyLeq(pairs[i], pairs[j]) && pairs[i] != pairs[j] {
      assert KeyLeq(sorted[i], sorted[j]);
      assert Keys(pairs)[i] != Keys(pairs)[j];
    }
  }

  lemma KeysDecide(pairs: seq<(Text, Json)>, p: (Text, Json), q: (Text, Json))
    requires NoDup(Keys(pairs)) && p in pairs && q in pairs && Scalars(p.0) && Scalars(q.0)
    requires KeyLeq(p, q) && KeyLeq(q, p)
    ensures p == q
  {
    BytesCompareUnits(Utf16(p.0), Utf16(q.0));
    BytesCompareUnits(Utf16(q.0), Utf16(p.0));
    LexTotal(Utf16(p.0), Utf16(q.0));
    Utf16Injective(p.0, q.0);
    var i :| 0 <= i < |pairs| && pairs[i] == p;
    var j :| 0 <= j < |pairs| && pairs[j] == q;
    assert Keys(pairs)[i] == Keys(pairs)[j];
  }

  ghost predicate ScalarKeys(members: seq<(Text, Json)>) {
    forall m :: m in members ==> Scalars(m.0)
  }

  lemma FormKeysAreScalar(a: seq<(Text, Json)>)
    requires NoDup(Keys(a)) && ScalarKeys(a)
    ensures forall p :: p in Map(InOrder(a), CanonMember) ==> Scalars(p.0)
  {
    SortedPairs(a);
    var x := Map(InOrder(a), CanonMember);
    hide Canon, Scalars, InOrder;
    forall p | p in x ensures Scalars(p.0) {
      var i :| 0 <= i < |x| && x[i] == p;
      assert p == CanonMember(InOrder(a)[i]);
      assert InOrder(a)[i] in a;
    }
  }

  lemma MatchedIsEqual(a: seq<(Text, Json)>, b: seq<(Text, Json)>)
    requires NoDup(Keys(a)) && NoDup(Keys(b)) && ScalarKeys(a)
    requires Matched(a, b) && Matched(b, a)
    ensures Canon(Obj(a)) == Canon(Obj(b))
  {
    hide Canon, InOrder, Keys, Matched, Map, KeyLeq, Scalars, Print, Denote;
    ObjForms(a);
    ObjForms(b);
    MatchedForms(a, b);
    MatchedForms(b, a);
    FormIsOrdered(a);
    FormIsOrdered(b);
    FormKeysAreScalar(a);
    var x, y := Map(InOrder(a), CanonMember), Map(InOrder(b), CanonMember);
    forall p, q | p in x && q in x && KeyLeq(p, q) && KeyLeq(q, p) ensures p == q {
      KeysDecide(x, p, q);
    }
    AscendingIsUnique(x, y, KeyLeq<Json>);
  }

  /** The member of `b` that agrees with `m` when the dictionaries are equal. */
  lemma Counterpart(a: seq<(Text, Json)>, b: seq<(Text, Json)>, m: (Text, Json)) returns (n: (Text, Json))
    requires NoDup(Keys(a)) && NoDup(Keys(b)) && m in a
    requires AsMap(Map(a, DenotedMember)) == AsMap(Map(b, DenotedMember))
    ensures n in b && n.0 == m.0 && Denote(n.1) == Denote(m.1)
  {
    hide Denote;
    var x, y := Map(a, DenotedMember), Map(b, DenotedMember);
    assert Keys(x) == Keys(a) && Keys(y) == Keys(b);
    AsMapAt(x);
    AsMapAt(y);
    hide AsMap;
    var i :| 0 <= i < |a| && a[i] == m;
    assert x[i] == DenotedMember(m) && x[i] in x;
    assert DenotedMember(m) in y;
    var k :| 0 <= k < |y| && y[k] == DenotedMember(m);
    n := b[k];
    assert DenotedMember(n) == DenotedMember(m);
  }

  lemma CanonIn(b: seq<(Text, Json)>, n: (Text, Json), m: (Text, Json))
    requires n in b && n.0 == m.0 && Canon(n.1) == Canon(m.1)
    ensures CanonMember(m) in Map(b, CanonMember)
  {
    hide Canon;
    var i :| 0 <= i < |b| && b[i] == n;
    assert Map(b, CanonMember)[i] == CanonMember(m);
  }

  lemma {:induction false} SameValueSameForm(v: Json, w: Json, depth: nat, depth': nat, nfc: Text -> bool)
    requires Valid(v, depth, nfc) && Keyed(v) && Valid(w, depth', nfc) && Keyed(w)
    requires Denote(v) == Denote(w)
    ensures Canon(v) == Canon(w)
    decreases v, 2
  {
    match v {
      case Arr(_) => SameItems(v, w, depth, depth', nfc);
      case Obj(_) => SameObjects(v, w, depth, depth', nfc);
      case _ =>
    }
  }

  lemma {:induction false} SameItems(v: Json, w: Json, depth: nat, depth': nat, nfc: Text -> bool)
    requires Valid(v, depth, nfc) && Keyed(v) && Valid(w, depth', nfc) && Keyed(w)
    requires v.Arr? && w.Arr? && Denote(v) == Denote(w)
    ensures Canon(v) == Canon(w)
    decreases v, 1
  {
    ArrForms(v.items);
    ArrForms(w.items);
    assert Map(v.items, Denote) == Map(w.items, Denote);
    assert |v.items| == |Map(v.items, Denote)| == |w.items|;
    forall i | 0 <= i < |v.items| ensures Canon(v.items[i]) == Canon(w.items[i]) {
      assert Map(v.items, Denote)[i] == Denote(v.items[i]) && Map(w.items, Denote)[i] == Denote(w.items[i]);
      SameValueSameForm(v.items[i], w.items[i], depth + 1, depth' + 1, nfc);
    }
    hide Canon, Denote, Valid, Keyed;
    assert Map(v.items, Canon) == Map(w.items, Canon);
  }

  lemma {:induction false} SameObjects(v: Json, w: Json, depth: nat, depth': nat, nfc: Text -> bool)
    requires Valid(v, depth, nfc) && Keyed(v) && Valid(w, depth', nfc) && Keyed(w)
    requires v.Obj? && w.Obj? && Denote(v) == Denote(w)
    ensures Canon(v) == Canon(w)
    decreases v, 1
  {
    var a, b := v.members, w.members;
    assert NoDup(Keys(a)) && NoDup(Keys(b)) && ScalarKeys(a);
    ObjForms(a);
    ObjForms(b);
    hide Valid, Keyed, Denote, Canon, Print, Keys, NoDup, AsMap, Scalars;
    forall m | m in a ensures CanonMember(m) in Map(b, CanonMember) {
      var n := Counterpart(a, b, m);
      SameMembers(v, w, m, n, depth, depth', nfc);
      CanonIn(b, n, m);
    }
    forall n | n in b ensures CanonMember(n) in Map(a, CanonMember) {
      var m := Counterpart(b, a, n);
      SameMembers(v, w, m, n, depth, depth', nfc);
      CanonIn(a, m, n);
    }
    MatchedIsEqual(a, b);
  }

  lemma {:induction false} SameMembers(v: Json, w: Json, m: (Text, Json), n: (Text, Json), depth: nat, depth': nat,
      nfc: Text -> bool)
    requires Valid(v, depth, nfc) && Keyed(v) && Valid(w, depth', nfc) && Keyed(w)
    requires v.Obj? && w.Obj? && m in v.members && n in w.members && Denote(m.1) == Denote(n.1)
    ensures Canon(m.1) == Canon(n.1)
    decreases v, 0
  {
    var i :| 0 <= i < |v.members| && v.members[i] == m;
    var k :| 0 <= k < |w.members| && w.members[k] == n;
    SameValueSameForm(v.members[i].1, w.members[k].1, depth + 1, depth' + 1, nfc);
  }

  // ---- What the canonical form keeps ------------------------------------------------------------

  /** Every dictionary lists its keys in strictly increasing order of UTF-16 code units. */
  ghost predicate SortedKeys(v: Json) {
    match v
    case Arr(items) => forall i :: 0 <= i < |items| ==> SortedKeys(items[i])
    case Obj(members) =>
      && (forall i, j :: 0 <= i < j < |members| ==>
            members[i].0 != members[j].0 && LexLeq(Utf16(members[i].0), Utf16(members[j].0)))
      && (forall i :: 0 <= i < |members| ==> SortedKeys(members[i].1))
    case _ => true
  }

  lemma OrderedKeys(pairs: seq<(Text, Json)>)
    requires Ascending(pairs, KeyLeq<Json>) && NoDup(Keys(pairs))
    ensures forall i, j :: 0 <= i < j < |pairs| ==>
              pairs[i].0 != pairs[j].0 && LexLeq(Utf16(pairs[i].0), Utf16(pairs[j].0))
  {
    forall i, j | 0 <= i < j < |pairs|
      ensures pairs[i].0 != pairs[j].0 && LexLeq(Utf16(pairs[i].0), Utf16(pairs[j].0))
    {
      assert KeyLeq(pairs[i], pairs[j]);
      assert Keys(pairs)[i] != Keys(pairs)[j];
      BytesCompareUnits(Utf16(pairs[i].0), Utf16(pairs[j].0));
    }
  }

  lemma {:induction false} FormIsSorted(v: Json)
    requires Keyed(v)
    ensures SortedKeys(Canon(v)) && Keyed(Canon(v))
    decreases v
  {
    match v {
      case Arr(items) =>
        forall i | 0 <= i < |items| ensures SortedKeys(Canon(items[i])) && Keyed(Canon(items[i])) {
          FormIsSorted(items[i]);
        }
        ArrForms(items);
      case Obj(members) =>
        forall m | m in members ensures SortedKeys(Canon(m.1)) && Keyed(Canon(m.1)) {
          var i :| 0 <= i < |members| && members[i] == m;
          FormIsSorted(members[i].1);
        }
        ObjIsSorted(members);
      case _ =>
    }
  }

  lemma ObjIsSorted(members: seq<(Text, Json)>)
    requires NoDup(Keys(members)) && forall m :: m in members ==> SortedKeys(Canon(m.1)) && Keyed(Canon(m.1))
    ensures SortedKeys(Canon(Obj(members))) && Keyed(Canon(Obj(members)))
  {
    hide Canon;
    ObjForms(members);
    FormIsOrdered(members);
    var pairs := Map(InOrder(members), CanonMember);
    OrderedKeys(pairs);
    forall i | 0 <= i < |pairs| ensures SortedKeys(pairs[i].1) && Keyed(pairs[i].1) {
      var m := FormMember(members, i);
    }
    hide InOrder, Map, Ascending;
  }

  lemma FormMember(members: seq<(Text, Json)>, i: nat) returns (m: (Text, Json))
    requires i < |members|
    ensures m in members && Map(InOrder(members), CanonMember)[i] == (m.0, Canon(m.1))
  {
    hide Canon;
    SortMembers(members, KeyLeq<Json>);
    m := InOrder(members)[i];
    assert m in InOrder(members);
    assert Map(InOrder(members), CanonMember)[i] == CanonMember(m);
  }

  lemma {:induction false} FormIsValid(v: Json, depth: nat, nfc: Text -> bool)
    requires Valid(v, depth, nfc)
    ensures Valid(Canon(v), depth, nfc)
    decreases v
  {
    match v {
      case Arr(items) =>
        forall i | 0 <= i < |items| ensures Valid(Canon(items[i]), depth + 1, nfc) {
          FormIsValid(items[i], depth + 1, nfc);
        }
        ArrForms(items);
      case Obj(members) =>
        forall m | m in members ensures ValidText(m.0, nfc) && Valid(Canon(m.1), depth + 1, nfc) {
          var i :| 0 <= i < |members| && members[i] == m;
          FormIsValid(members[i].1, depth + 1, nfc);
        }
        ObjIsValid(members, depth, nfc);
      case _ =>
    }
  }

  lemma ObjIsValid(members: seq<(Text, Json)>, depth: nat, nfc: Text -> bool)
    requires depth < MAX_NESTING_DEPTH
    requires forall m :: m in members ==> ValidText(m.0, nfc) && Valid(Canon(m.1), depth + 1, nfc)
    ensures Valid(Canon(Obj(members)), depth, nfc)
  {
    hide Canon, ValidText;
    ObjForms(members);
    var pairs := Map(InOrder(members), CanonMember);
    forall i | 0 <= i < |pairs| ensures ValidText(pairs[i].0, nfc) && Valid(pairs[i].1, depth + 1, nfc) {
      var m := FormMember(members, i);
    }
    hide InOrder, Map;
  }

  // ---- What the parser accepts ------------------------------------------------------------------

  lemma {:induction false} ParsedIsKeyed(t: Text)
    requires ParseValue(t).Some?
    ensures Keyed(ParseValue(t).value.0)
    decreases |t|, 0
  {
    hide ParseString, ParseNumber;
    if t[0] == LBRACKET {
      var u := SkipSpace(t[1..]);
      if u == [] || u[0] != RBRACKET {
        ItemsAreKeyed(u);
      }
    } else if t[0] == LBRACE {
      var u := SkipSpace(t[1..]);
      if u == [] || u[0] != RBRACE {
        MembersAreKeyed(u);
        CardIffNoDup(Keys(ParseMembers(u).value.0));
      }
    } else {
      NumberIsKeyed(t);
    }
  }

  lemma NumberIsKeyed(t: Text)
    requires t != []
    ensures ParseNumber(t).Some? ==> Keyed(ParseNumber(t).value.0)
  {
  }

  lemma {:induction false} ItemsAreKeyed(t: Text)
    requires ParseItems(t).Some?
    ensures forall i :: 0 <= i < |ParseItems(t).value.0| ==> Keyed(ParseItems(t).value.0[i])
    decreases |t|, 1
  {
    ParsedIsKeyed(t);
    hide ParseValue, Keyed;
    var u := SkipSpace(ParseValue(t).value.1);
    if u[0] == COMMA {
      ItemsAreKeyed(SkipSpace(u[1..]));
    }
  }

  lemma {:induction false} MembersAreKeyed(t: Text)
    requires ParseMembers(t).Some?
    ensures forall i :: 0 <= i < |ParseMembers(t).value.0| ==> Keyed(ParseMembers(t).value.0[i].1)
    decreases |t|, 1
  {
    var c := SkipSpace(ParseString(t[1..]).value.1);
    var value := ParseValue(SkipSpace(c[1..]));
    ParsedIsKeyed(SkipSpace(c[1..]));
    hide ParseValue, ParseString, Keyed;
    var u := SkipSpace(value.value.1);
    if u[0] == COMMA {
      MembersAreKeyed(SkipSpace(u[1..]));
    }
  }

  // ---- Main results -----------------------------------------------------------------------------

  /** Printing then strictly parsing gives the value back, its keys in canonical order. */
  lemma RoundTrip(v: Json, nfc: Text -> bool)
    requires Valid(v, 0, nfc) && Keyed(v)
    ensures CanonicalJsonBytes(v, nfc).Some?
    ensures ParseStrictJson(CanonicalJsonBytes(v, nfc).value, nfc) == Some(Canon(v))
    ensures Denote(Canon(v)) == Denote(v) && SortedKeys(Canon(v))
  {
    var text := Print(v);
    ValidatedNeverFails(v, nfc);
    PrintedReadsBack(v, 0, nfc);
    FormIsValid(v, 0, nfc);
    FormIsSorted(v);
    CanonIsSameValue(v);
    DecodeEncoded(text);
    assert ReadsBackBefore(v, []) && text + [] == text;
    hide ReadsBack, Print, Canon, Denote, Valid, Keyed, SortedKeys, ParseValue, EncodeUtf8, DecodeUtf8;
    StrictlyReads(EncodeUtf8(text), text, Canon(v), nfc);
  }

  lemma StrictlyReads(raw: Bytes, text: Text, v: Json, nfc: Text -> bool)
    requires DecodeUtf8(raw) == Some(text) && Opens(text) && ParseValue(text) == Some((v, [])) && Valid(v, 0, nfc)
    ensures ParseStrictJson(raw, nfc) == Some(v)
  {
    NoByteOrderMark(text);
    hide ParseValue, DecodeUtf8, Valid;
    assert SkipSpace(text) == text;
  }

  lemma NoByteOrderMark(t: Text)
    requires ParseValue(t).Some?
    ensures t != [] && t[0] != 0xFEFF
  {
    hide ParseItems, ParseMembers, ParseString;
    assert NULL_TEXT[0] == 110 && TRUE_TEXT[0] == 116 && FALSE_TEXT[0] == 102;
  }

  /** Two values have the same bytes exactly when they are the same value. */
  lemma BytesIdentifyValues(v: Json, w: Json, nfc: Text -> bool)
    requires Valid(v, 0, nfc) && Keyed(v) && Valid(w, 0, nfc) && Keyed(w)
    ensures CanonicalJsonBytes(v, nfc) == CanonicalJsonBytes(w, nfc) <==> Denote(v) == Denote(w)
  {
    hide Valid, Keyed, Denote, Canon, Print, ParseStrictJson;
    RoundTrip(v, nfc);
    RoundTrip(w, nfc);
    if Denote(v) == Denote(w) {
      SameValueSameForm(v, w, 0, 0, nfc);
      CanonPrintsSame(v);
      CanonPrintsSame(w);
      ValidatedNeverFails(v, nfc);
      ValidatedNeverFails(w, nfc);
    }
  }

  /** Whatever the strict parser accepts can be canonicalized, and canonicalizing keeps it. */
  lemma AcceptedIsCanonicalizable(raw: Bytes, nfc: Text -> bool)
    requires ParseStrictJson(raw, nfc).Some?
    ensures var v := ParseStrictJson(raw, nfc).value;
            && Valid(v, 0, nfc) && Keyed(v) && CanonicalJsonBytes(v, nfc).Some?
            && var again := ParseStrictJson(CanonicalJsonBytes(v, nfc).value, nfc);
            && again.Some? && Denote(again.value) == Denote(v)
            && CanonicalJsonBytes(again.value, nfc) == CanonicalJsonBytes(v, nfc)
  {
    var v := ParseStrictJson(raw, nfc).value;
    ParsedIsKeyed(SkipSpace(DecodeUtf8(raw).value));
    assert Valid(v, 0, nfc) && Keyed(v);
    RoundTrip(v, nfc);
    FormIsValid(v, 0, nfc);
    FormIsSorted(v);
    hide Valid, Keyed, Denote, Canon, Print, ParseStrictJson, ParseValue, DecodeUtf8;
    BytesIdentifyValues(Canon(v), v, nfc);
  }
}
