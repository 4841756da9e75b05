/**
 What canonical JSON is for: printing then strictly parsing gives the value back, and two
 values have the same bytes exactly when they are the same value.
 */
module CanonicalLaws {
  import opened Seqs
  import opened Sorting
  import opened Unicode
  import opened Canonical

  // ---- Strings and numbers ----------------------------------------------------------------------

  /** One printed character reads back, whatever follows. */
  lemma EscapeReadsBack(c: nat, rest: Text)
    ensures var t := Escape(c) + rest;
            && t[0] >= 32 && t[0] != QUOTE
            && (if t[0] == BACKSLASH then ReadEscape(t[1..]) else Some((t[0], t[1..]))) == Some((c, rest))
  {
    var t := Escape(c) + rest;
    if c < 32 && c !in {8, 9, 10, 12, 13} {
      assert t[1..] == [LOWER_U, ZERO, ZERO, HexDigit(c / 16), HexDigit(c % 16)] + rest;
      assert t[1..][1..] == [ZERO, ZERO, HexDigit(c / 16), HexDigit(c % 16)] + rest;
      assert ReadHex(t[1..][1..]) == Some(c);
      assert t[1..][5..] == rest;
    } else if |Escape(c)| == 2 {
      assert t[1..] == [Escape(c)[1]] + rest;
      assert t[1..][1..] == rest;
    } else {
      assert t[1..] == rest;
    }
  }

  lemma {:induction false} StringReadsBack(s: Text, rest: Text)
    ensures ParseString(Escaped(s) + [QUOTE] + rest) == Some((s, rest))
  {
    var t := Escaped(s) + [QUOTE] + rest;
    if s == [] {
      assert t == [QUOTE] + rest;
      assert t[1..] == rest;
    } else {
      var after := Escaped(s[1..]) + [QUOTE] + rest;
      assert t == Escape(s[0]) + after;
      EscapeReadsBack(s[0], after);
      StringReadsBack(s[1..], rest);
      hide Escape, ReadEscape, Escaped;
      assert s == [s[0]] + s[1..];
    }
  }

  lemma {:induction false} DigitsReadOn(n: nat, rest: Text)
    ensures TakeDigits(Digits(n) + rest, 0) == TakeDigits(rest, n)
    ensures IsDigit(Digits(n)[0])
    ensures n > 0 ==> Digits(n)[0] != ZERO
    decreases n
  {
    if n < 10 {
      assert (Digits(n) + rest)[1..] == rest;
    } else {
      var last := [ZERO + n % 10];
      DigitsReadOn(n / 10, last + rest);
      assert Digits(n) + rest == Digits(n / 10) + (last + rest);
      assert (last + rest)[1..] == rest;
      assert n / 10 * 10 + n % 10 == n;
    }
  }

  /** What may follow a value inside canonical text. */
  predicate Delimited(rest: Text) {
    rest == [] || rest[0] in {COMMA, RBRACKET, RBRACE}
  }

  /** What may follow a number: nothing that could belong to one. */
  predicate EndsNumber(rest: Text) {
    rest == [] || (!IsDigit(rest[0]) && rest[0] !in {46, 69, 101})
  }

  lemma StopsReading(rest: Text, n: nat)
    requires EndsNumber(rest)
    ensures TakeDigits(rest, n) == (n, rest)
  {
  }

  lemma ReadsOne(t: Text)
    requires t != [] && IsDigit(t[0])
    ensures TakeDigits(t, 0) == TakeDigits(t[1..], t[0] - ZERO)
  {
  }

  lemma NaturalReadsBack(n: nat, rest: Text)
    requires EndsNumber(rest)
    ensures var digits := Digits(n) + rest;
            && IsDigit(digits[0])
            && (if digits[0] == ZERO then (0, digits[1..]) else TakeDigits(digits[1..], digits[0] - ZERO)) == (n, rest)
  {
    var digits := Digits(n) + rest;
    if n == 0 {
      assert digits == [ZERO] + rest;
      assert digits[1..] == rest;
    } else {
      DigitsReadOn(n, rest);
      hide Digits, TakeDigits;
      assert digits[0] == Digits(n)[0];
      StopsReading(rest, n);
      ReadsOne(digits);
    }
  }

  lemma NumberReadsBack(i: int, rest: Text)
    requires SafeInteger(i) && EndsNumber(rest)
    ensures ParseNumber(Decimal(i) + rest) == Some((Int(i), rest))
  {
    var n: nat := if i < 0 then -i else i;
    NaturalReadsBack(n, rest);
    hide Digits, TakeDigits;
    if i < 0 {
      assert (Decimal(i) + rest)[1..] == Digits(n) + rest;
    }
  }

  // ---- The value, independent of order ----------------------------------------------------------

  /** Python equality: dictionaries are maps. */
  datatype Value =
    | VNull
    | VBool(b: bool)
    | VStr(s: Text)
    | VInt(i: int)
    | VArr(items: seq<Value>)
    | VObj(members: map<Text, Value>)
    | VOther

  function Denote(v: Json): Value {
    match v
    case Null => VNull
    case Bool(b) => VBool(b)
    case Str(s) => VStr(s)
    case Int(i) => VInt(i)
    case Arr(items) => VArr(seq(|items|, i requires 0 <= i < |items| => Denote(items[i])))
    case Obj(members) => VObj(AsMap(seq(|members|,
        i requires 0 <= i < |members| => (members[i].0, Denote(members[i].1)))))
    case Other => VOther
  }

  /** The same value with every dictionary in key order. */
  function Canon(v: Json): Json {
    match v
    case Arr(items) => Arr(seq(|items|, i requires 0 <= i < |items| => Canon(items[i])))
    case Obj(members) =>
      Obj(Sort(seq(|members|, i requires 0 <= i < |members| => (members[i].0, Canon(members[i].1))), KeyLeq<Json>))
    case _ => v
  }

  function PrintedMember(m: (Text, Json)): (Text, Text) { (m.0, Print(m.1)) }
  function CanonMember(m: (Text, Json)): (Text, Json) { (m.0, Canon(m.1)) }
  function DenotedMember(m: (Text, Json)): (Text, Value) { (m.0, Denote(m.1)) }

  /** The members in key order, before their values are touched. */
  function InOrder(members: seq<(Text, Json)>): (r: seq<(Text, Json)>)
    ensures |r| == |members|
  {
    Sort(members, KeyLeq<Json>)
  }

  lemma PrintedForm(members: seq<(Text, Json)>)
    ensures Print(Obj(members)) == [LBRACE] + Join(TextsOf(InOrder(members))) + [RBRACE]
  {
    var printed := seq(|members|, i requires 0 <= i < |members| => (members[i].0, Print(members[i].1)));
    assert Print(Obj(members)) == [LBRACE] + Join(MemberTexts(Sort(printed, KeyLeq<Text>))) + [RBRACE];
    hide Print, Join, MemberTexts;
    forall i | 0 <= i < |members| ensures printed[i] == PrintedMember(members[i]) {
    }
    MapIs(members, PrintedMember, printed);
    SortCommutes(members, PrintedMember, KeyLeq<Json>, KeyLeq<Text>);
  }

  lemma CanonForm(members: seq<(Text, Json)>)
    ensures Canon(Obj(members)) == Obj(Map(InOrder(members), CanonMember))
  {
    var canons := seq(|members|, i requires 0 <= i < |members| => (members[i].0, Canon(members[i].1)));
    assert Canon(Obj(members)) == Obj(Sort(canons, KeyLeq<Json>));
    hide Canon;
    forall i | 0 <= i < |members| ensures canons[i] == CanonMember(members[i]) {
    }
    MapIs(members, CanonMember, canons);
    SortCommutes(members, CanonMember, KeyLeq<Json>, KeyLeq<Json>);
  }

  lemma DenotedForm(members: seq<(Text, Json)>)
    ensures Denote(Obj(members)) == VObj(AsMap(Map(members, DenotedMember)))
  {
    var values := seq(|members|, i requires 0 <= i < |members| => (members[i].0, Denote(members[i].1)));
    assert Denote(Obj(members)) == VObj(AsMap(values));
    hide Denote, AsMap;
    forall i | 0 <= i < |members| ensures values[i] == DenotedMember(members[i]) {
    }
    MapIs(members, DenotedMember, values);
  }

  lemma ObjForms(members: seq<(Text, Json)>)
    ensures Print(Obj(members)) == [LBRACE] + Join(TextsOf(InOrder(members))) + [RBRACE]
    ensures Canon(Obj(members)) == Obj(Map(InOrder(members), CanonMember))
    ensures Denote(Obj(members)) == VObj(AsMap(Map(members, DenotedMember)))
  {
    PrintedForm(members);
    CanonForm(members);
    DenotedForm(members);
    hide Print, Canon, Denote, Join, TextsOf, InOrder, Map, AsMap;
  }

  lemma ArrForms(items: seq<Json>)
    ensures Print(Arr(items)) == [LBRACKET] + Join(Map(items, Print)) + [RBRACKET]
    ensures Canon(Arr(items)) == Arr(Map(items, Canon))
    ensures Denote(Arr(items)) == VArr(Map(items, Denote))
  {
    MapIs(items, Print, seq(|items|, i requires 0 <= i < |items| => Print(items[i])));
    MapIs(items, Canon, seq(|items|, i requires 0 <= i < |items| => Canon(items[i])));
    MapIs(items, Denote, seq(|items|, i requires 0 <= i < |items| => Denote(items[i])));
  }

  // ---- Round trip -------------------------------------------------------------------------------

  /** The text does not begin like a space or the end of a list. */
  predicate Opens(t: Text) {
    t != [] && t[0] !in {32, 9, 10, 13, RBRACKET, RBRACE}
  }

  ghost predicate ReadsBackBefore(v: Json, rest: Text) {
    ParseValue(Print(v) + rest) == Some((Canon(v), rest))
  }

  ghost predicate ReadsBack(v: Json) {
    Opens(Print(v)) && forall rest :: Delimited(rest) ==> ReadsBackBefore(v, rest)
  }

  lemma ConstantReadsBack(v: Json, rest: Text)
    requires v.Null? || v.Bool?
    ensures Opens(Print(v)) && ReadsBackBefore(v, rest)
  {
    var t := Print(v) + rest;
    assert t[|Print(v)|..] == rest && t[..|Print(v)|] == Print(v);
    if v == Bool(false) {
      assert t[0] == 102;
    }
  }

  lemma StrReadsBack(s: Text, rest: Text)
    ensures Opens(Print(Str(s))) && ReadsBackBefore(Str(s), rest)
  {
    StringReadsBack(s, rest);
    hide ParseString, Escaped;
    assert (Print(Str(s)) + rest)[1..] == Escaped(s) + [QUOTE] + rest;
  }

  lemma IntReadsBack(i: int, rest: Text)
    requires SafeInteger(i) && EndsNumber(rest)
    ensures Opens(Print(Int(i))) && ReadsBackBefore(Int(i), rest)
  {
    var t := Decimal(i) + rest;
    NumberReadsBack(i, rest);
    DigitsReadOn(if i < 0 then -i else i, []);
    hide ParseNumber, Digits, TakeDigits;
    assert t[0] == Decimal(i)[0];
    assert t[0] == MINUS || IsDigit(t[0]);
    assert !StartsWith(t, NULL_TEXT) && !StartsWith(t, TRUE_TEXT) && !StartsWith(t, FALSE_TEXT) by {
      assert NULL_TEXT[0] != t[0] && TRUE_TEXT[0] != t[0] && FALSE_TEXT[0] != t[0];
    }
  }

  lemma {:induction false} ItemsReadBack(items: seq<Json>, rest: Text)
    requires items != [] && forall i :: 0 <= i < |items| ==> ReadsBack(items[i])
    ensures Opens(Join(Map(items, Print)) + [RBRACKET] + rest)
    ensures ParseItems(Join(Map(items, Print)) + [RBRACKET] + rest) == Some((Map(items, Canon), rest))
  {
    hide ParseValue, ParseMembers, Print, Canon;
    var prints := Map(items, Print);
    var t := Join(prints) + [RBRACKET] + rest;
    assert ReadsBack(items[0]);
    if |items| == 1 {
      var after := [RBRACKET] + rest;
      assert t == prints[0] + after;
      assert ReadsBackBefore(items[0], after);
      assert after[1..] == rest;
      assert Map(items, Canon) == [Canon(items[0])];
    } else {
      var others := items[1..];
      assert prints[1..] == Map(others, Print);
      ItemsReadBack(others, rest);
      var inner := Join(prints[1..]) + [RBRACKET] + rest;
      var after := [COMMA] + inner;
      assert t == prints[0] + after;
      assert ReadsBackBefore(items[0], after);
      assert after[1..] == inner;
      assert Map(items, Canon) == [Canon(items[0])] + Map(others, Canon);
    }
  }

  function TextsOf(members: seq<(Text, Json)>): (r: seq<Text>)
    ensures |r| == |members|
  {
    MemberTexts(Map(members, PrintedMember))
  }

  lemma TextsSplit(members: seq<(Text, Json)>)
    requires members != []
    ensures TextsOf(members)[0] == MemberText((members[0].0, Print(members[0].1)))
    ensures TextsOf(members)[1..] == TextsOf(members[1..])
  {
    assert Map(members, PrintedMember)[0] == PrintedMember(members[0]);
    assert Map(members, PrintedMember)[1..] == Map(members[1..], PrintedMember);
    hide MemberText;
  }

  lemma {:induction false} MembersReadBack(members: seq<(Text, Json)>, rest: Text)
    requires members != [] && forall i :: 0 <= i < |members| ==> ReadsBack(members[i].1)
    ensures Opens(Join(TextsOf(members)) + [RBRACE] + rest)
    ensures ParseMembers(Join(TextsOf(members)) + [RBRACE] + rest)
            == Some((Map(members, CanonMember), rest))
  {
    hide ParseValue, ParseItems, ParseString, Print, Canon, Escaped;
    var texts := TextsOf(members);
    TextsSplit(members);
    MapHead(members, CanonMember);
    assert CanonMember(members[0]) == (members[0].0, Canon(members[0].1));
    hide TextsOf, MemberText, CanonMember, Map;
    var t := Join(texts) + [RBRACE] + rest;
    var key, value := members[0].0, members[0].1;
    assert ReadsBack(value);
    if |members| == 1 {
      var after := [RBRACE] + rest;
      assert t == texts[0] + after;
      OneMember(key, value, after, t);
      hide Join;
      assert after[1..] == rest;
      assert Map(members[1..], CanonMember) == [];
      assert Map(members, CanonMember) == [(key, Canon(value))];
    } else {
      var others := members[1..];
      MembersReadBack(others, rest);
      var inner := Join(texts[1..]) + [RBRACE] + rest;
      var after := [COMMA] + inner;
      assert t == texts[0] + after;
      OneMember(key, value, after, t);
      hide Join;
      assert after[1..] == inner;
    }
  }

  /** A member's key, its colon and its value, up to what follows. */
  lemma OneMember(key: Text, value: Json, after: Text, t: Text)
    requires ReadsBack(value) && Delimited(after)
    requires t == MemberText((key, Print(value))) + after
    ensures t[0] == QUOTE
    ensures ParseString(t[1..]) == Some((key, [COLON] + Print(value) + after))
    ensures var c := [COLON] + Print(value) + after;
            && SkipSpace(c) == c
            && ParseValue(SkipSpace(c[1..])) == Some((Canon(value), after))
    ensures SkipSpace(after) == after
  {
    hide ParseValue, ParseString, Print, Canon, Escaped;
    var c := [COLON] + Print(value) + after;
    StringReadsBack(key, c);
    assert t[1..] == Escaped(key) + [QUOTE] + c;
    assert c[1..] == Print(value) + after;
    assert ReadsBackBefore(value, after);
  }

  lemma ArrReadsBack(items: seq<Json>, rest: Text)
    requires forall i :: 0 <= i < |items| ==> ReadsBack(items[i])
    ensures Opens(Print(Arr(items))) && ReadsBackBefore(Arr(items), rest)
  {
    ArrForms(items);
    var t := Print(Arr(items)) + rest;
    var inner := Join(Map(items, Print)) + [RBRACKET] + rest;
    assert t[1..] == inner;
    if items == [] {
      assert inner == [RBRACKET] + rest;
      assert inner[1..] == rest;
    } else {
      ItemsReadBack(items, rest);
    }
    hide ParseItems, ParseMembers, Join, ReadsBack, Print, Canon;
  }

  lemma SortedPairs(members: seq<(Text, Json)>)
    requires NoDup(Keys(members))
    ensures forall m :: m in InOrder(members) <==> m in members
    ensures NoDup(Keys(InOrder(members)))
  {
    SortMembers(members, KeyLeq<Json>);
    SortCommutes(members, (m: (Text, Json)) => m.0, KeyLeq<Json>, (a: Text, b: Text) => LexLeq(Utf16Be(a), Utf16Be(b)));
    assert Keys(members) == Map(members, (m: (Text, Json)) => m.0);
    assert Keys(InOrder(members)) == Map(InOrder(members), (m: (Text, Json)) => m.0);
    SortPermutes(Keys(members), (a: Text, b: Text) => LexLeq(Utf16Be(a), Utf16Be(b)));
    ShuffleKeeps(Keys(members), Keys(InOrder(members)));
  }

  lemma BraceOpens(t: Text, inner: Text)
    requires t == [LBRACE] + inner && Opens(inner) && ParseMembers(inner).Some?
    ensures var (pairs, rest) := ParseMembers(inner).value;
            UniqueKeys(pairs) ==> ParseValue(t) == Some((Obj(pairs), rest))
  {
    hide ParseMembers, UniqueKeys;
    assert t[1..] == inner;
    assert SkipSpace(inner) == inner;
  }

  lemma EmptyReadsBack(rest: Text)
    ensures Opens(Print(Obj([]))) && ReadsBackBefore(Obj([]), rest)
  {
    assert MemberTexts([]) == [];
    assert Print(Obj([])) == [LBRACE, RBRACE];
    var t := [LBRACE, RBRACE] + rest;
    assert t[1..][1..] == rest;
    hide ParseMembers;
  }

  lemma SortedReadsBack(members: seq<(Text, Json)>)
    requires NoDup(Keys(members)) && forall m :: m in members ==> ReadsBack(m.1)
    ensures UniqueKeys(Map(InOrder(members), CanonMember))
    ensures forall i :: 0 <= i < |InOrder(members)| ==> ReadsBack(InOrder(members)[i].1)
  {
    hide ReadsBack, Canon;
    SortedPairs(members);
    var sorted := InOrder(members);
    var pairs := Map(sorted, CanonMember);
    forall i | 0 <= i < |sorted| ensures Keys(pairs)[i] == Keys(sorted)[i] {
      assert pairs[i] == CanonMember(sorted[i]);
    }
    assert Keys(pairs) == Keys(sorted);
    CardIffNoDup(Keys(pairs));
    forall i | 0 <= i < |sorted| ensures ReadsBack(sorted[i].1) {
      assert sorted[i] in members;
    }
  }

  lemma ObjReadsBack(members: seq<(Text, Json)>, rest: Text)
    requires NoDup(Keys(members)) && forall m :: m in members ==> ReadsBack(m.1)
    ensures Opens(Print(Obj(members))) && ReadsBackBefore(Obj(members), rest)
  {
    hide ParseValue, ParseMembers, ReadsBack, Canon, Print;
    if members == [] {
      EmptyReadsBack(rest);
    } else {
      SortedReadsBack(members);
      ObjForms(members);
      hide InOrder, Keys, NoDup, UniqueKeys, TextsOf, Join, Map, Denote;
      var sorted := InOrder(members);
      MembersReadBack(sorted, rest);
      var inner := Join(TextsOf(sorted)) + [RBRACE] + rest;
      var t := Print(Obj(members)) + rest;
      assert t == [LBRACE] + inner;
      BraceOpens(t, inner);
    }
  }

  /** Every valid value prints to text that parses back to it, wherever the text stands. */
  lemma {:induction false} PrintedReadsBack(v: Json, depth: nat, nfc: Text -> bool)
    requires Valid(v, depth, nfc) && Keyed(v)
    ensures ReadsBack(v)
    decreases v
  {
    match v {
      case Arr(items) =>
        forall i | 0 <= i < |items| ensures ReadsBack(items[i]) {
          PrintedReadsBack(items[i], depth + 1, nfc);
        }
        forall rest | Delimited(rest) ensures Opens(Print(v)) && ReadsBackBefore(v, rest) {
          ArrReadsBack(items, rest);
        }
        ArrReadsBack(items, []);
      case Obj(members) =>
        forall m | m in members ensures ReadsBack(m.1) {
          var i :| 0 <= i < |members| && members[i] == m;
          PrintedReadsBack(members[i].1, depth + 1, nfc);
        }
        forall rest | Delimited(rest) ensures Opens(Print(v)) && ReadsBackBefore(v, rest) {
          ObjReadsBack(members, rest);
        }
        ObjReadsBack(members, []);
      case Str(s) =>
        forall rest | Delimited(rest) ensures ReadsBackBefore(v, rest) {
          StrReadsBack(s, rest);
        }
        StrReadsBack(s, []);
      case Int(i) =>
        forall rest | Delimited(rest) ensures ReadsBackBefore(v, rest) {
          IntReadsBack(i, rest);
        }
        IntReadsBack(i, []);
      case Null =>
        forall rest | Delimited(rest) ensures ReadsBackBefore(v, rest) {
          ConstantReadsBack(v, rest);
        }
        ConstantReadsBack(v, []);
      case Bool(_) =>
        forall rest | Delimited(rest) ensures ReadsBackBefore(v, rest) {
          ConstantReadsBack(v, rest);
        }
        ConstantReadsBack(v, []);
    }
  }
}
