/**
 What makes canonical bytes canonical (rlvr/v3/canonical.py): of all the texts the strict parser
 reads as a value, the canonical one is the shortest, and the only one of its length that lists
 keys in order and writes hexadecimal digits in lower case.
 */
module CanonicalShortest {
  import opened Seqs
  import opened Sorting
  import opened Unicode
  import opened Canonical
  import opened CanonicalLaws
  import opened CanonicalIdentity

  /** No escape `\uXXXX` has an upper case digit. */
  predicate LowerHex(t: Text)
    decreases |t|
  {
    if t == [] then true
    else if t[0] != BACKSLASH then LowerHex(t[1..])
    else if |t| == 1 then true
    else if t[1] != LOWER_U then LowerHex(t[2..])
    else (forall i :: 2 <= i < Min(6, |t|) ==> !(65 <= t[i] <= 70)) && LowerHex(t[Min(6, |t|)..])
  }

  /** Reading `t` up to `rest` takes no less than `printed`, and exactly that text if no more,
      provided keys are in order. */
  ghost predicate NoShorter(t: Text, rest: Text, printed: Text, inOrder: bool := true) {
    && |printed| + |rest| <= |t|
    && (LowerHex(t) ==> LowerHex(rest))
    && (inOrder && LowerHex(t) && |printed| + |rest| == |t| ==> t == printed + rest)
  }

  /** One reading after another. */
  lemma Then(t: Text, a: Text, u: Text, b: Text, rest: Text, inOrder: bool := true)
    requires NoShorter(t, u, a, inOrder) && NoShorter(u, rest, b, inOrder)
    ensures NoShorter(t, rest, a + b, inOrder)
  {
    if inOrder && LowerHex(t) && |a + b| + |rest| == |t| {
      assert t == a + (b + rest) == a + b + rest;
    }
  }

  lemma Char(t: Text)
    requires t != [] && t[0] != BACKSLASH
    ensures NoShorter(t, t[1..], [t[0]])
  {
    assert t == [t[0]] + t[1..];
  }

  lemma {:induction false} Spaces(t: Text)
    ensures NoShorter(t, SkipSpace(t), [])
    decreases |t|
  {
    if t != [] && t[0] in {32, 9, 10, 13} {
      Spaces(t[1..]);
    } else {
      assert [] + t == t;
    }
  }

  // ---- Strings --------------------------------------------------------------------------------

  lemma ControlForm(unit: nat)
    requires |Escape(unit)| == 6
    ensures unit < 32 && Escape(unit) == [BACKSLASH, LOWER_U, ZERO, ZERO, HexDigit(unit / 16), HexDigit(unit % 16)]
  {
  }

  /** Four lower case digits that spell a control character are the ones printed for it. */
  lemma LowerDigits(t: Text, unit: nat)
    requires |t| >= 4 && ReadHex(t) == Some(unit) && unit < 32
    requires forall i :: 0 <= i < 4 ==> !(65 <= t[i] <= 70)
    ensures t[..4] == [ZERO, ZERO, HexDigit(unit / 16), HexDigit(unit % 16)]
  {
    assert HexValue(t[0]) == Some(0) && HexValue(t[1]) == Some(0);
    assert HexValue(t[2]) == Some(unit / 16) && HexValue(t[3]) == Some(unit % 16);
  }

  lemma UnicodeEscape(t: Text, unit: nat)
    requires |t| >= 6 && t[0] == BACKSLASH && t[1] == LOWER_U && ReadHex(t[2..]) == Some(unit)
    ensures LowerHex(t) ==> LowerHex(t[6..])
    ensures LowerHex(t) && |Escape(unit)| == 6 ==> t == Escape(unit) + t[6..]
    ensures |Escape(unit)| <= 6
  {
    if LowerHex(t) && |Escape(unit)| == 6 {
      ControlForm(unit);
      LowerDigits(t[2..], unit);
      hide Escape, ReadHex, LowerHex, HexDigit;
      assert t == [t[0], t[1]] + t[2..][..4] + t[6..];
    }
  }

  lemma OneEscape(t: Text)
    requires t != [] && t[0] == BACKSLASH && ReadEscape(t[1..]).Some?
    ensures var (c, rest) := ReadEscape(t[1..]).value; NoShorter(t, rest, Escape(c))
  {
    var (c, rest) := ReadEscape(t[1..]).value;
    if t[1] == LOWER_U {
      assert t[1..][1..] == t[2..] && t[1..][5..] == t[6..];
      var unit := ReadHex(t[2..]).value;
      UnicodeEscape(t, unit);
      if rest != t[6..] {
        var u := t[6..];
        assert u[2..] == t[6..][2..] && rest == u[6..];
        UnicodeEscape(u, ReadHex(u[2..]).value);
      }
    } else {
      assert rest == t[2..];
      assert t == [t[0], t[1]] + rest;
    }
  }

  lemma {:induction false} StringIsShortest(t: Text)
    requires ParseString(t).Some?
    ensures var (s, rest) := ParseString(t).value; NoShorter(t, rest, Escaped(s) + [QUOTE])
    decreases |t|
  {
    var (s, rest) := ParseString(t).value;
    if t[0] == QUOTE {
      Char(t);
      assert Escaped(s) + [QUOTE] == [QUOTE];
    } else {
      var one := if t[0] == BACKSLASH then ReadEscape(t[1..]) else Some((t[0], t[1..]));
      var (c, u) := one.value;
      if t[0] == BACKSLASH { OneEscape(t); } else { Char(t); assert Escape(c) == [c]; }
      StringIsShortest(u);
      var more := ParseString(u).value.0;
      assert s == [c] + more && s[1..] == more;
      hide NoShorter, Escape, ReadEscape;
      Then(t, Escape(c), u, Escaped(more) + [QUOTE], rest);
      assert Escape(c) + (Escaped(more) + [QUOTE]) == Escaped(s) + [QUOTE];
    }
  }

  lemma QuotedIsShortest(t: Text)
    requires t != [] && t[0] == QUOTE && ParseString(t[1..]).Some?
    ensures var (s, rest) := ParseString(t[1..]).value; NoShorter(t, rest, Quoted(s))
  {
    var (s, rest) := ParseString(t[1..]).value;
    Char(t);
    StringIsShortest(t[1..]);
    hide NoShorter, ParseString, Escaped;
    Then(t, [QUOTE], t[1..], Escaped(s) + [QUOTE], rest);
    assert [QUOTE] + (Escaped(s) + [QUOTE]) == Quoted(s);
  }

  // ---- Numbers --------------------------------------------------------------------------------

  lemma OneDigitMore(acc: nat, d: nat)
    requires acc > 0 && d < 10
    ensures Digits(acc * 10 + d) == Digits(acc) + [ZERO + d]
  {
    assert (acc * 10 + d) / 10 == acc && (acc * 10 + d) % 10 == d;
  }

  /** Digits after a first one that is not zero are the decimal form of what is read. */
  lemma {:induction false} DigitsAreExact(t: Text, acc: nat)
    requires acc > 0
    ensures var (n, rest) := TakeDigits(t, acc); Digits(acc) + t == Digits(n) + rest && n > 0
    ensures LowerHex(t) ==> LowerHex(TakeDigits(t, acc).1)
    decreases |t|
  {
    hide Digits;
    if t != [] && IsDigit(t[0]) {
      OneDigitMore(acc, t[0] - ZERO);
      DigitsAreExact(t[1..], acc * 10 + (t[0] - ZERO));
      assert t == [t[0]] + t[1..];
      assert Digits(acc) + [t[0]] + t[1..] == Digits(acc) + t;
    }
  }

  lemma NaturalIsExact(digits: Text)
    requires digits != [] && IsDigit(digits[0])
    ensures var (n, rest) := if digits[0] == ZERO then (0, digits[1..]) else TakeDigits(digits[1..], digits[0] - ZERO);
            digits == Digits(n) + rest && (LowerHex(digits) ==> LowerHex(rest))
  {
    assert digits == [digits[0]] + digits[1..];
    if digits[0] == ZERO {
      assert Digits(0) == [ZERO];
    } else {
      DigitsAreExact(digits[1..], digits[0] - ZERO);
      assert Digits(digits[0] - ZERO) == [digits[0]];
    }
  }

  /** A sign or none, and the decimal form of what follows. */
  lemma NumberParts(t: Text) returns (digits: Text, n: nat)
    requires t != [] && ParseNumber(t).Some?
    ensures var (v, rest) := ParseNumber(t).value;
            && v == Int(if t[0] == MINUS then -(n as int) else n as int)
            && digits == Digits(n) + rest
            && t == (if t[0] == MINUS then [MINUS] + digits else digits)
            && (LowerHex(t) ==> LowerHex(rest))
  {
    digits := if t[0] == MINUS then t[1..] else t;
    NaturalIsExact(digits);
    assert LowerHex(t) ==> LowerHex(digits);
    hide Digits, LowerHex, TakeDigits;
    n := if digits[0] == ZERO then 0 else TakeDigits(digits[1..], digits[0] - ZERO).0;
  }

  lemma DecimalForm(i: int)
    ensures Print(Int(i)) == if i < 0 then [MINUS] + Digits(-i) else Digits(i)
  {
  }

  lemma ReadInFull(t: Text, rest: Text, printed: Text, extra: Text)
    requires t == extra + printed + rest && (LowerHex(t) ==> LowerHex(rest))
    ensures NoShorter(t, rest, printed) && (extra == [] ==> t == printed + rest)
  {
    hide LowerHex;
    assert extra == [] ==> extra + printed == printed;
  }

  lemma NumberIsShortest(t: Text)
    requires t != [] && ParseNumber(t).Some?
    ensures var (v, rest) := ParseNumber(t).value; NoShorter(t, rest, Print(v))
  {
    hide *;
    var (v, rest) := ParseNumber(t).value;
    var digits, n := NumberParts(t);
    DecimalForm(v.i);
    if t[0] != MINUS {
      assert t == [] + Digits(n) + rest;
      ReadInFull(t, rest, Digits(n), []);
    } else if n != 0 {
      assert t == [] + ([MINUS] + Digits(n)) + rest;
      ReadInFull(t, rest, [MINUS] + Digits(n), []);
    } else {
      assert t == [MINUS] + Digits(n) + rest;
      ReadInFull(t, rest, Digits(n), [MINUS]);
    }
  }

  // ---- Values ---------------------------------------------------------------------------------

  function Length(parts: seq<Text>): nat {
    if parts == [] then 0 else Length(parts[..|parts| - 1]) + |parts[|parts| - 1]|
  }

  lemma {:induction false} LengthConcat(a: seq<Text>, b: seq<Text>)
    ensures Length(a + b) == Length(a) + Length(b)
  {
    if b == [] {
      assert a + b == a;
    } else {
      assert (a + b)[..|a + b| - 1] == a + b[..|b| - 1];
      LengthConcat(a, b[..|b| - 1]);
    }
  }

  lemma {:induction false} JoinLength(parts: seq<Text>)
    requires parts != []
    ensures |Join(parts)| == Length(parts) + |parts| - 1
  {
    assert parts == [parts[0]] + parts[1..];
    LengthConcat([parts[0]], parts[1..]);
    if |parts| > 1 {
      JoinLength(parts[1..]);
    }
  }

  lemma TextsConcat(a: seq<(Text, Json)>, b: seq<(Text, Json)>)
    ensures TextsOf(a + b) == TextsOf(a) + TextsOf(b)
  {
    hide MemberText;
    assert Map(a + b, PrintedMember) == Map(a, PrintedMember) + Map(b, PrintedMember);
  }

  lemma AddsLength(a: seq<(Text, Json)>, b: seq<(Text, Json)>)
    ensures Length(TextsOf(a + b)) == Length(TextsOf(a)) + Length(TextsOf(b))
  {
    TextsConcat(a, b);
    LengthConcat(TextsOf(a), TextsOf(b));
  }

  lemma InsertLength(r: seq<(Text, Json)>, x: (Text, Json), p: nat)
    requires p <= |r|
    ensures Length(TextsOf(r[..p] + [x] + r[p..])) == Length(TextsOf(r)) + Length(TextsOf([x]))
  {
    hide TextsOf, Length;
    AddsLength(r[..p] + [x], r[p..]);
    AddsLength(r[..p], [x]);
    AddsLength(r[..p], r[p..]);
    assert r == r[..p] + r[p..];
  }

  /** Sorting the members changes the order of their texts, not their length. */
  lemma {:induction false} SortKeepsLength(members: seq<(Text, Json)>)
    ensures Length(TextsOf(Sort(members, KeyLeq<Json>))) == Length(TextsOf(members))
  {
    hide TextsOf, Length, KeyLeq;
    if members != [] {
      var n := |members| - 1;
      var r, x := Sort(members[..n], KeyLeq<Json>), members[n];
      SortKeepsLength(members[..n]);
      InsertLength(r, x, Position(r, x, KeyLeq<Json>));
      AddsLength(members[..n], [x]);
      assert members == members[..n] + [x];
    }
  }

  ghost predicate ItemsInOrder(items: seq<Json>) {
    forall i :: 0 <= i < |items| ==> SortedKeys(items[i])
  }

  ghost predicate MembersInOrder(members: seq<(Text, Json)>) {
    forall i :: 0 <= i < |members| ==> SortedKeys(members[i].1)
  }

  /** Spaces after a text are not needed. */
  lemma Spaced(t: Text, a: Text, u: Text, inOrder: bool)
    requires NoShorter(t, u, a, inOrder)
    ensures NoShorter(t, SkipSpace(u), a, inOrder)
  {
    Spaces(u);
    Then(t, a, u, [], SkipSpace(u), inOrder);
    assert a + [] == a;
  }

  /** One character and spaces after it. */
  lemma CharSpaced(t: Text)
    requires t != [] && t[0] != BACKSLASH
    ensures NoShorter(t, SkipSpace(t[1..]), [t[0]])
  {
    Char(t);
    Spaced(t, [t[0]], t[1..], true);
  }

  /** What a list of items reads as, up to and including its bracket. */
  lemma {:induction false} ItemsAreShortest(t: Text)
    requires ParseItems(t).Some?
    ensures var (items, rest) := ParseItems(t).value;
            NoShorter(t, rest, Join(Map(items, Print)) + [RBRACKET], ItemsInOrder(items))
    decreases |t|, 2
  {
    var (items, rest) := ParseItems(t).value;
    var (first, after) := ParseValue(t).value;
    var u := SkipSpace(after);
    ValueIsShortest(t);
    hide ParseValue, Print, SortedKeys, NoShorter;
    if u[0] == RBRACKET {
      assert items == [first];
      Char(u);
      LastItem(t, first, after, rest);
    } else {
      var v := SkipSpace(u[1..]);
      CharSpaced(u);
      ItemsAreShortest(v);
      var more := ParseItems(v).value.0;
      assert items == [first] + more;
      hide ParseItems;
      OneMoreItem(t, first, after, u, v, more, rest);
    }
  }

  lemma LastItem(t: Text, first: Json, after: Text, rest: Text)
    requires NoShorter(t, after, Print(first), SortedKeys(first))
    requires NoShorter(SkipSpace(after), rest, [RBRACKET])
    ensures NoShorter(t, rest, Join(Map([first], Print)) + [RBRACKET], ItemsInOrder([first]))
  {
    var ordered := ItemsInOrder([first]);
    assert ordered == SortedKeys([first][0]);
    Spaced(t, Print(first), after, ordered);
    assert Map([first], Print) == [Print(first)];
    hide Print, SortedKeys;
    Then(t, Print(first), SkipSpace(after), [RBRACKET], rest, ordered);
  }

  lemma OneMoreItem(t: Text, first: Json, after: Text, u: Text, v: Text, more: seq<Json>, rest: Text)
    requires more != [] && u == SkipSpace(after)
    requires NoShorter(t, after, Print(first), SortedKeys(first)) && NoShorter(u, v, [COMMA])
    requires NoShorter(v, rest, Join(Map(more, Print)) + [RBRACKET], ItemsInOrder(more))
    ensures NoShorter(t, rest, Join(Map([first] + more, Print)) + [RBRACKET], ItemsInOrder([first] + more))
  {
    hide Print, SortedKeys, Join, LowerHex;
    var items := [first] + more;
    var ordered := ItemsInOrder(items);
    assert ordered ==> SortedKeys(items[0]);
    assert ordered ==> ItemsInOrder(more) by {
      assert forall i :: 0 <= i < |more| ==> items[i + 1] == more[i];
    }
    Spaced(t, Print(first), after, ordered);
    assert Map(items, Print) == [Print(first)] + Map(more, Print);
    JoinMore(t, Print(first), u, v, Map(more, Print), RBRACKET, rest, ordered);
  }

  /** A text, a comma and the rest of the list. */
  lemma JoinMore(t: Text, a: Text, u: Text, v: Text, texts: seq<Text>, close: nat, rest: Text, inOrder: bool)
    requires texts != []
    requires NoShorter(t, u, a, inOrder) && NoShorter(u, v, [COMMA], inOrder)
    requires NoShorter(v, rest, Join(texts) + [close], inOrder)
    ensures NoShorter(t, rest, Join([a] + texts) + [close], inOrder)
  {
    hide NoShorter, Join;
    Then(u, [COMMA], v, Join(texts) + [close], rest, inOrder);
    Then(t, a, u, [COMMA] + (Join(texts) + [close]), rest, inOrder);
    JoinFirst(a, texts);
    assert a + ([COMMA] + (Join(texts) + [close])) == Join([a] + texts) + [close];
  }

  lemma JoinFirst(a: Text, texts: seq<Text>)
    requires texts != []
    ensures Join([a] + texts) == a + [COMMA] + Join(texts)
  {
    assert ([a] + texts)[1..] == texts;
  }

  lemma {:induction false} MembersAreShortest(t: Text)
    requires ParseMembers(t).Some?
    ensures var (members, rest) := ParseMembers(t).value;
            NoShorter(t, rest, Join(TextsOf(members)) + [RBRACE], MembersInOrder(members))
    decreases |t|, 2
  {
    var (members, rest) := ParseMembers(t).value;
    var (key, k) := ParseString(t[1..]).value;
    var c := SkipSpace(k);
    var w := SkipSpace(c[1..]);
    var (value, after) := ParseValue(w).value;
    var u := SkipSpace(after);
    ValueIsShortest(w);
    QuotedIsShortest(t);
    hide ParseValue, ParseString, Print, SortedKeys, Quoted, NoShorter;
    CharSpaced(c);
    MemberIsShortest(t, key, k, w, value, after);
    if u[0] == RBRACE {
      assert members == [(key, value)];
      Char(u);
      LastMember(t, (key, value), u, rest);
    } else {
      var v := SkipSpace(u[1..]);
      CharSpaced(u);
      MembersAreShortest(v);
      var more := ParseMembers(v).value.0;
      assert members == [(key, value)] + more;
      hide ParseMembers;
      OneMoreMember(t, (key, value), u, v, more, rest);
    }
  }

  lemma LastMember(t: Text, m: (Text, Json), u: Text, rest: Text)
    requires NoShorter(t, u, MemberText((m.0, Print(m.1))), SortedKeys(m.1))
    requires NoShorter(u, rest, [RBRACE])
    ensures NoShorter(t, rest, Join(TextsOf([m])) + [RBRACE], MembersInOrder([m]))
  {
    var ordered := MembersInOrder([m]);
    assert ordered == SortedKeys([m][0].1);
    TextsSplit([m]);
    assert TextsOf([m]) == [MemberText((m.0, Print(m.1)))];
    hide Print, SortedKeys, MemberText;
    Then(t, MemberText((m.0, Print(m.1))), u, [RBRACE], rest, ordered);
  }

  lemma OneMoreMember(t: Text, m: (Text, Json), u: Text, v: Text, more: seq<(Text, Json)>, rest: Text)
    requires more != []
    requires NoShorter(t, u, MemberText((m.0, Print(m.1))), SortedKeys(m.1)) && NoShorter(u, v, [COMMA])
    requires NoShorter(v, rest, Join(TextsOf(more)) + [RBRACE], MembersInOrder(more))
    ensures NoShorter(t, rest, Join(TextsOf([m] + more)) + [RBRACE], MembersInOrder([m] + more))
  {
    hide Print, SortedKeys, Join, LowerHex, MemberText;
    var members := [m] + more;
    var ordered := MembersInOrder(members);
    assert ordered ==> SortedKeys(members[0].1);
    assert ordered ==> MembersInOrder(more) by {
      assert forall i :: 0 <= i < |more| ==> members[i + 1] == more[i];
    }
    TextsSplit(members);
    assert members[1..] == more;
    assert TextsOf(members) == [MemberText((m.0, Print(m.1)))] + TextsOf(more);
    hide TextsOf;
    JoinMore(t, MemberText((m.0, Print(m.1))), u, v, TextsOf(more), RBRACE, rest, ordered);
  }

  lemma MemberIsShortest(t: Text, key: Text, k: Text, w: Text, value: Json, after: Text)
    requires NoShorter(t, k, Quoted(key)) && NoShorter(SkipSpace(k), w, [COLON])
    requires NoShorter(w, after, Print(value), SortedKeys(value))
    ensures NoShorter(t, SkipSpace(after), MemberText((key, Print(value))), SortedKeys(value))
  {
    hide Quoted, Print, SortedKeys, LowerHex;
    var ordered := SortedKeys(value);
    var c, u := SkipSpace(k), SkipSpace(after);
    Spaced(t, Quoted(key), k, ordered);
    Spaced(w, Print(value), after, ordered);
    assert NoShorter(c, w, [COLON], ordered);
    hide NoShorter;
    Then(t, Quoted(key), c, [COLON], w, ordered);
    Then(t, Quoted(key) + [COLON], w, Print(value), u, ordered);
  }

  lemma WordIsShortest(t: Text, word: Text)
    requires StartsWith(t, word) && forall i :: 0 <= i < |word| ==> word[i] != BACKSLASH
    ensures NoShorter(t, t[|word|..], word)
  {
    hide LowerHex, NoShorter;
    var rest := t[|word|..];
    PlainIsNeutral(word);
    assert t == word + rest;
    assert LowerHex(word + rest) == LowerHex(rest);
    assert [] + word + rest == t;
    ReadInFull(t, rest, word, []);
  }

  /** Members in the order the text lists them, and in key order. */
  lemma ObjectForm(members: seq<(Text, Json)>)
    requires members != []
    ensures |Print(Obj(members))| == |[LBRACE] + Join(TextsOf(members)) + [RBRACE]|
    ensures SortedKeys(Obj(members)) ==> Print(Obj(members)) == [LBRACE] + Join(TextsOf(members)) + [RBRACE]
  {
    PrintedForm(members);
    SortKeepsLength(members);
    JoinLength(TextsOf(members));
    JoinLength(TextsOf(InOrder(members)));
    if SortedKeys(Obj(members)) {
      AlreadyInOrder(members);
    }
  }

  lemma AlreadyInOrder(members: seq<(Text, Json)>)
    requires SortedKeys(Obj(members))
    ensures InOrder(members) == members
  {
    forall i, j | 0 <= i < j < |members| ensures KeyLeq(members[i], members[j]) {
      BytesCompareUnits(Utf16(members[i].0), Utf16(members[j].0));
    }
    SortOfAscending(members, KeyLeq<Json>);
  }

  lemma {:induction false} ValueIsShortest(t: Text)
    requires ParseValue(t).Some?
    ensures var (v, rest) := ParseValue(t).value; NoShorter(t, rest, Print(v), SortedKeys(v))
    decreases |t|, 1
  {
    var (v, rest) := ParseValue(t).value;
    if t[0] == QUOTE {
      QuotedIsShortest(t);
    } else if t[0] == LBRACKET {
      ArrayIsShortest(t);
    } else if t[0] == LBRACE {
      ObjectIsShortest(t);
    } else {
      hide ParseNumber, NoShorter;
      if StartsWith(t, NULL_TEXT) {
        WordIsShortest(t, NULL_TEXT);
      } else if StartsWith(t, TRUE_TEXT) {
        WordIsShortest(t, TRUE_TEXT);
      } else if StartsWith(t, FALSE_TEXT) {
        WordIsShortest(t, FALSE_TEXT);
      } else {
        NumberIsShortest(t);
      }
    }
  }

  lemma {:induction false} ArrayIsShortest(t: Text)
    requires t != [] && t[0] == LBRACKET && ParseValue(t).Some?
    ensures var (v, rest) := ParseValue(t).value; NoShorter(t, rest, Print(v), SortedKeys(v))
    decreases |t|, 0
  {
    var u := SkipSpace(t[1..]);
    CharSpaced(t);
    hide NoShorter;
    if u[0] == RBRACKET {
      Char(u);
      Then(t, [LBRACKET], u, [RBRACKET], u[1..]);
      ArrForms([]);
      assert [LBRACKET] + [RBRACKET] == Print(Arr([]));
      NotOnlyInOrder(t, u[1..], Print(Arr([])), SortedKeys(Arr([])));
    } else {
      ItemsAreShortest(u);
      var (items, rest) := ParseItems(u).value;
      hide ParseItems, Print;
      ArrayOfItems(t, u, items, rest);
    }
  }

  lemma NotOnlyInOrder(t: Text, rest: Text, printed: Text, inOrder: bool)
    requires NoShorter(t, rest, printed)
    ensures NoShorter(t, rest, printed, inOrder)
  {
  }

  lemma ArrayOfItems(t: Text, u: Text, items: seq<Json>, rest: Text)
    requires NoShorter(t, u, [LBRACKET])
    requires NoShorter(u, rest, Join(Map(items, Print)) + [RBRACKET], ItemsInOrder(items))
    ensures NoShorter(t, rest, Print(Arr(items)), SortedKeys(Arr(items)))
  {
    var ordered := SortedKeys(Arr(items));
    assert ordered == ItemsInOrder(items);
    NotOnlyInOrder(t, u, [LBRACKET], ordered);
    hide SortedKeys, ItemsInOrder, NoShorter, Print, Join;
    var inner := Join(Map(items, Print)) + [RBRACKET];
    Then(t, [LBRACKET], u, inner, rest, ordered);
    ArrForms(items);
    assert [LBRACKET] + inner == Print(Arr(items));
  }

  lemma {:induction false} ObjectIsShortest(t: Text)
    requires t != [] && t[0] == LBRACE && ParseValue(t).Some?
    ensures var (v, rest) := ParseValue(t).value; NoShorter(t, rest, Print(v), SortedKeys(v))
    decreases |t|, 0
  {
    var u := SkipSpace(t[1..]);
    CharSpaced(t);
    hide NoShorter;
    if u[0] == RBRACE {
      Char(u);
      Then(t, [LBRACE], u, [RBRACE], u[1..]);
      assert MemberTexts([]) == [];
      assert [LBRACE] + [RBRACE] == Print(Obj([]));
      NotOnlyInOrder(t, u[1..], Print(Obj([])), SortedKeys(Obj([])));
    } else {
      MembersAreShortest(u);
      var (members, rest) := ParseMembers(u).value;
      hide ParseMembers, Print, TextsOf;
      ObjectOfMembers(t, u, members, rest);
    }
  }

  lemma ObjectOfMembers(t: Text, u: Text, members: seq<(Text, Json)>, rest: Text)
    requires members != [] && NoShorter(t, u, [LBRACE])
    requires NoShorter(u, rest, Join(TextsOf(members)) + [RBRACE], MembersInOrder(members))
    ensures NoShorter(t, rest, Print(Obj(members)), SortedKeys(Obj(members)))
  {
    var ordered := SortedKeys(Obj(members));
    assert ordered ==> MembersInOrder(members);
    NotOnlyInOrder(t, u, [LBRACE], ordered);
    ObjectForm(members);
    hide SortedKeys, MembersInOrder, Print, Join, TextsOf, LowerHex;
    var inner := Join(TextsOf(members)) + [RBRACE];
    Then(t, [LBRACE], u, inner, rest, ordered);
    assert [LBRACE] + inner == [LBRACE] + Join(TextsOf(members)) + [RBRACE];
  }

  // ---- The canonical text itself ---------------------------------------------------------------

  /** Read before anything else, the text changes nothing about what follows. */
  ghost predicate Neutral(a: Text) {
    forall rest :: LowerHex(a + rest) == LowerHex(rest)
  }

  lemma NeutralConcat(a: Text, b: Text)
    requires Neutral(a) && Neutral(b)
    ensures Neutral(a + b)
  {
    forall rest ensures LowerHex(a + b + rest) == LowerHex(rest) {
      assert a + b + rest == a + (b + rest);
    }
  }

  lemma {:induction false} PlainIsNeutral(a: Text)
    requires forall i :: 0 <= i < |a| ==> a[i] != BACKSLASH
    ensures Neutral(a)
  {
    if a == [] {
      assert forall rest: Text :: a + rest == rest;
    } else {
      PlainIsNeutral(a[1..]);
      forall rest ensures LowerHex(a + rest) == LowerHex(rest) {
        assert (a + rest)[1..] == a[1..] + rest;
      }
    }
  }

  lemma EscapeIsNeutral(c: nat)
    ensures Neutral(Escape(c))
  {
    var e := Escape(c);
    forall rest ensures LowerHex(e + rest) == LowerHex(rest) {
      assert (e + rest)[|e|..] == rest;
      if |e| == 6 {
        ControlForm(c);
        assert forall i :: 2 <= i < 6 ==> (e + rest)[i] == e[i];
      }
    }
  }

  lemma {:induction false} EscapedIsNeutral(s: Text)
    ensures Neutral(Escaped(s))
  {
    hide Neutral, Escape;
    if s == [] {
      PlainIsNeutral([]);
    } else {
      EscapeIsNeutral(s[0]);
      EscapedIsNeutral(s[1..]);
      NeutralConcat(Escape(s[0]), Escaped(s[1..]));
    }
  }

  lemma QuotedIsNeutral(s: Text)
    ensures Neutral(Quoted(s))
  {
    hide Neutral, Escaped;
    PlainIsNeutral([QUOTE]);
    EscapedIsNeutral(s);
    NeutralConcat([QUOTE], Escaped(s));
    NeutralConcat([QUOTE] + Escaped(s), [QUOTE]);
  }

  lemma {:induction false} DigitsArePlain(n: nat)
    ensures forall i :: 0 <= i < |Digits(n)| ==> Digits(n)[i] != BACKSLASH
    decreases n
  {
    if n >= 10 {
      DigitsArePlain(n / 10);
    }
  }

  lemma {:induction false} JoinIsNeutral(parts: seq<Text>)
    requires forall i :: 0 <= i < |parts| ==> Neutral(parts[i])
    ensures Neutral(Join(parts))
  {
    hide Neutral;
    if parts == [] {
      PlainIsNeutral([]);
    } else if |parts| > 1 {
      JoinIsNeutral(parts[1..]);
      PlainIsNeutral([COMMA]);
      NeutralConcat(parts[0], [COMMA]);
      NeutralConcat(parts[0] + [COMMA], Join(parts[1..]));
    }
  }

  lemma EnclosedIsNeutral(open: nat, parts: seq<Text>, close: nat)
    requires open != BACKSLASH && close != BACKSLASH
    requires forall i :: 0 <= i < |parts| ==> Neutral(parts[i])
    ensures Neutral([open] + Join(parts) + [close])
  {
    JoinIsNeutral(parts);
    PlainIsNeutral([open]);
    PlainIsNeutral([close]);
    hide Neutral, Join;
    NeutralConcat([open], Join(parts));
    NeutralConcat([open] + Join(parts), [close]);
  }

  lemma MemberIsNeutral(key: Text, text: Text)
    requires Neutral(text)
    ensures Neutral(MemberText((key, text)))
  {
    hide Neutral, Quoted;
    QuotedIsNeutral(key);
    PlainIsNeutral([COLON]);
    NeutralConcat(Quoted(key), [COLON]);
    NeutralConcat(Quoted(key) + [COLON], text);
  }

  lemma {:induction false} PrintedIsNeutral(v: Json)
    ensures Neutral(Print(v))
    decreases v
  {
    hide Neutral;
    match v {
      case Str(s) => QuotedIsNeutral(s);
      case Int(i) =>
        DigitsArePlain(if i < 0 then -i else i);
        PlainIsNeutral(Decimal(i));
      case Arr(items) =>
        forall i | 0 <= i < |items| ensures Neutral(Print(items[i])) {
          PrintedIsNeutral(items[i]);
        }
        hide Print;
        ArrForms(items);
        EnclosedIsNeutral(LBRACKET, Map(items, Print), RBRACKET);
      case Obj(members) =>
        forall m | m in members ensures Neutral(Print(m.1)) {
          var i :| 0 <= i < |members| && members[i] == m;
          PrintedIsNeutral(members[i].1);
        }
        hide Print;
        ObjectIsNeutral(members);
      case _ => PlainIsNeutral(Print(v));
    }
  }

  lemma ObjectIsNeutral(members: seq<(Text, Json)>)
    requires forall m :: m in members ==> Neutral(Print(m.1))
    ensures Neutral(Print(Obj(members)))
  {
    hide Neutral, Print;
    PrintedForm(members);
    SortMembers(members, KeyLeq<Json>);
    var sorted := InOrder(members);
    forall i | 0 <= i < |sorted| ensures Neutral(TextsOf(sorted)[i]) {
      assert sorted[i] in members;
      TextsAt(sorted, i);
      MemberIsNeutral(sorted[i].0, Print(sorted[i].1));
    }
    EnclosedIsNeutral(LBRACE, TextsOf(sorted), RBRACE);
  }

  // ---- Main results ----------------------------------------------------------------------------

  /** The bytes stand for the value: the strict parser accepts them and reads it. */
  ghost predicate Spells(raw: Bytes, v: Json, nfc: Text -> bool) {
    && DecodeUtf8(raw).Some?
    && ParseStrictJson(raw, nfc).Some? && Denote(ParseStrictJson(raw, nfc).value) == Denote(v)
  }

  /** Everything the parser reads as `v` prints as `v` does. */
  lemma SpellsPrintsSame(raw: Bytes, v: Json, nfc: Text -> bool)
    requires Valid(v, 0, nfc) && Keyed(v) && Spells(raw, v, nfc)
    ensures Print(ParseStrictJson(raw, nfc).value) == Print(v)
  {
    var w := ParseStrictJson(raw, nfc).value;
    ParsedIsKeyed(SkipSpace(DecodeUtf8(raw).value));
    hide Valid, Keyed, Denote, Print, ParseValue;
    SameValueSameForm(v, w, 0, 0, nfc);
    CanonPrintsSame(v);
    CanonPrintsSame(w);
  }

  /** No text that reads as the value is shorter than its canonical text. */
  lemma CanonicalIsShortest(raw: Bytes, v: Json, nfc: Text -> bool)
    requires Valid(v, 0, nfc) && Keyed(v) && Spells(raw, v, nfc)
    ensures |Print(v)| <= |DecodeUtf8(raw).value|
    ensures var text, w := DecodeUtf8(raw).value, ParseStrictJson(raw, nfc).value;
            |text| == |Print(v)| && SortedKeys(w) && LowerHex(text) ==> text == Print(v)
  {
    var text, w := DecodeUtf8(raw).value, ParseStrictJson(raw, nfc).value;
    var t := SkipSpace(text);
    SpellsPrintsSame(raw, v, nfc);
    Spaces(text);
    ValueIsShortest(t);
    hide Print, Denote, Valid, Keyed, ParseValue, SortedKeys;
    var rest := ParseValue(t).value.1;
    Then(text, [], t, Print(w), rest, SortedKeys(w));
    assert [] + Print(w) == Print(w);
    assert |rest| == 0 ==> Print(w) + rest == Print(w);
  }

  ghost predicate Shortest(raw: Bytes, v: Json, nfc: Text -> bool) {
    && Spells(raw, v, nfc)
    && forall other :: Spells(other, v, nfc) ==> |DecodeUtf8(raw).value| <= |DecodeUtf8(other).value|
  }

  /** Keys in order and escapes in lower case. */
  ghost predicate InForm(raw: Bytes, v: Json, nfc: Text -> bool)
    requires Spells(raw, v, nfc)
  {
    SortedKeys(ParseStrictJson(raw, nfc).value) && LowerHex(DecodeUtf8(raw).value)
  }

  lemma CanonicalIsInForm(v: Json, nfc: Text -> bool)
    requires Valid(v, 0, nfc) && Keyed(v)
    ensures CanonicalJsonBytes(v, nfc).Some?
    ensures var raw := CanonicalJsonBytes(v, nfc).value;
            && DecodeUtf8(raw) == Some(Print(v)) && EncodeUtf8(Print(v)) == raw
            && Spells(raw, v, nfc) && InForm(raw, v, nfc)
  {
    ValidatedNeverFails(v, nfc);
    RoundTrip(v, nfc);
    DecodeEncoded(Print(v));
    PrintedIsNeutral(v);
    hide Print, Denote, Canon, Valid, Keyed, ParseStrictJson, SortedKeys, EncodeUtf8, DecodeUtf8, CanonicalJsonBytes;
    NeutralIsLower(Print(v));
  }

  lemma NeutralIsLower(a: Text)
    requires Neutral(a)
    ensures LowerHex(a)
  {
    assert a + [] == a;
    assert LowerHex(a + []) == LowerHex([]);
  }

  /** What canonical means, without the printer: the canonical bytes of a value are exactly those
      that stand for it with keys in order and lower case escapes, and are as short as any others
      that stand for it. */
  lemma CanonicalExactly(raw: Bytes, v: Json, nfc: Text -> bool)
    requires Valid(v, 0, nfc) && Keyed(v)
    ensures CanonicalJsonBytes(v, nfc) == Some(raw) <==> Shortest(raw, v, nfc) && InForm(raw, v, nfc)
  {
    CanonicalIsInForm(v, nfc);
    hide Print, Denote, Valid, Keyed, ParseStrictJson, SortedKeys, EncodeUtf8, DecodeUtf8, LowerHex, CanonicalJsonBytes;
    if raw == CanonicalJsonBytes(v, nfc).value {
      forall other | Spells(other, v, nfc) ensures |Print(v)| <= |DecodeUtf8(other).value| {
        CanonicalIsShortest(other, v, nfc);
      }
    }
    if Shortest(raw, v, nfc) && InForm(raw, v, nfc) {
      CanonicalIsShortest(raw, v, nfc);
      EncodeDecoded(raw);
    }
  }

  // ---- Known answers ---------------------------------------------------------------------------

  lemma PrintsOne(c: nat, e: Text)
    requires Escape(c) == e
    ensures Print(Str([c])) == [34] + e + [34]
  {
    assert Escaped([c][1..]) == [];
  }

  /** The strings the repository's tests spell out, one character at a time: the short escapes, a
      control character without one, a slash, and a letter beyond ASCII. */
  lemma KnownEscapes()
    ensures Print(Str([8])) == [34, 92, 98, 34] && Print(Str([9])) == [34, 92, 116, 34]
    ensures Print(Str([10])) == [34, 92, 110, 34] && Print(Str([12])) == [34, 92, 102, 34]
    ensures Print(Str([13])) == [34, 92, 114, 34] && Print(Str([34])) == [34, 92, 34, 34]
    ensures Print(Str([92])) == [34, 92, 92, 34] && Print(Str([31])) == [34, 92, 117, 48, 48, 49, 102, 34]
    ensures Print(Str([47])) == [34, 47, 34] && Print(Str([233])) == [34, 233, 34]
  {
    PrintsOne(8, [92, 98]);
    PrintsOne(9, [92, 116]);
    PrintsOne(10, [92, 110]);
    PrintsOne(12, [92, 102]);
    PrintsOne(13, [92, 114]);
    PrintsOne(34, [92, 34]);
    PrintsOne(92, [92, 92]);
    PrintsOne(31, [92, 117, 48, 48, 49, 102]);
    PrintsOne(47, [47]);
    PrintsOne(233, [233]);
  }

  /** As many arrays inside each other as `n`. */
  function Nested(n: nat): Json {
    if n == 0 then Null else Arr([Nested(n - 1)])
  }

  lemma {:induction false} NestedIsValid(n: nat, depth: nat, nfc: Text -> bool)
    ensures Valid(Nested(n), depth, nfc) <==> depth + n <= 64 || n == 0
  {
    if n > 0 {
      NestedIsValid(n - 1, depth + 1, nfc);
      assert Nested(n).items[0] == Nested(n - 1);
    }
  }

  /** The limits: integers of magnitude below 2 ** 53, and 64 levels of nesting. */
  lemma LimitsAreExact(i: int, n: nat, nfc: Text -> bool)
    ensures CanonicalJsonBytes(Int(i), nfc).Some? <==> -9007199254740992 < i < 9007199254740992
    ensures CanonicalJsonBytes(Nested(n), nfc).Some? <==> n <= 64
  {
    ValidatedNeverFails(Int(i), nfc);
    ValidatedNeverFails(Nested(n), nfc);
    NestedIsValid(n, 0, nfc);
  }
}
