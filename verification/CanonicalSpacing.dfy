/**
 What the strict parser takes beside canonical text (rlvr/v3/canonical.py, parse_strict_json):
 spaces, tabs and line ends between any two tokens and around the whole, and the members of an
 object in any order. They are kept as written, and change nothing else.
 */
module CanonicalSpacing {
  import opened Seqs
  import opened Unicode
  import opened Canonical
  import opened CanonicalLaws
  import opened CanonicalIdentity

  /** Space, tab, line feed, carriage return. */
  ghost predicate IsGap(gap: Text) {
    forall i :: 0 <= i < |gap| ==> gap[i] in {32, 9, 10, 13}
  }

  /** The parts with a comma between, and the gap around it. */
  function Listed(parts: seq<Text>, gap: Text): Text {
    if parts == [] then []
    else if |parts| == 1 then parts[0]
    else parts[0] + gap + [COMMA] + gap + Listed(parts[1..], gap)
  }

  /** The value as somebody else may write it: members as they come, a gap at every place. */
  function Loose(v: Json, gap: Text): Text {
    match v
    case Arr(items) =>
      [LBRACKET] + gap + Listed(seq(|items|, i requires 0 <= i < |items| => Loose(items[i], gap)), gap)
      + gap + [RBRACKET]
    case Obj(members) =>
      [LBRACE] + gap
      + Listed(seq(|members|, i requires 0 <= i < |members| =>
          Quoted(members[i].0) + gap + [COLON] + gap + Loose(members[i].1, gap)), gap)
      + gap + [RBRACE]
    case _ => Print(v)
  }

  function LooseItem(gap: Text): Json -> Text {
    (v: Json) => Loose(v, gap)
  }

  function LooseMember(gap: Text): ((Text, Json)) -> Text {
    (m: (Text, Json)) => Quoted(m.0) + gap + [COLON] + gap + Loose(m.1, gap)
  }

  lemma LooseForms(items: seq<Json>, members: seq<(Text, Json)>, gap: Text)
    ensures Loose(Arr(items), gap) == [LBRACKET] + gap + Listed(Map(items, LooseItem(gap)), gap) + gap + [RBRACKET]
    ensures Loose(Obj(members), gap) == [LBRACE] + gap + Listed(Map(members, LooseMember(gap)), gap) + gap + [RBRACE]
  {
    MapIs(items, LooseItem(gap), seq(|items|, i requires 0 <= i < |items| => Loose(items[i], gap)));
    MapIs(members, LooseMember(gap), seq(|members|, i requires 0 <= i < |members| =>
      Quoted(members[i].0) + gap + [COLON] + gap + Loose(members[i].1, gap)));
  }

  lemma {:induction false} SkipsGap(gap: Text, rest: Text)
    requires IsGap(gap)
    ensures SkipSpace(gap + rest) == SkipSpace(rest)
  {
    if gap == [] {
      assert gap + rest == rest;
    } else {
      SkipsGap(gap[1..], rest);
      assert (gap + rest)[1..] == gap[1..] + rest;
    }
  }

  /** A gap and one more character is read up to that character. */
  lemma GapThen(gap: Text, c: nat, rest: Text)
    requires IsGap(gap) && c !in {32, 9, 10, 13}
    ensures SkipSpace(gap + [c] + rest) == [c] + rest
    ensures ([c] + rest)[0] == c && ([c] + rest)[1..] == rest
    ensures gap != [] || c in {COMMA, RBRACKET, RBRACE} ==> EndsNumber(gap + [c] + rest)
  {
    SkipsGap(gap, [c] + rest);
    assert gap + [c] + rest == gap + ([c] + rest);
  }

  ghost predicate LooseBefore(v: Json, gap: Text, rest: Text) {
    ParseValue(Loose(v, gap) + rest) == Some((v, rest))
  }

  ghost predicate ReadsLoosely(v: Json, gap: Text) {
    Opens(Loose(v, gap)) && forall rest :: EndsNumber(rest) ==> LooseBefore(v, gap, rest)
  }

  lemma OpenSkips(t: Text, rest: Text)
    requires Opens(t)
    ensures SkipSpace(t + rest) == t + rest && Opens(t + rest)
  {
  }

  /** Reading on after one item: the bracket, or a comma and the others. */
  lemma ReadsOneItem(t: Text, v: Json, gap: Text, after: Text)
    requires t == Loose(v, gap) + after && ReadsLoosely(v, gap) && EndsNumber(after)
    requires SkipSpace(after) != []
    ensures Opens(t)
    ensures var u := SkipSpace(after);
            && (u[0] == RBRACKET ==> ParseItems(t) == Some(([v], u[1..])))
            && (u[0] == COMMA && ParseItems(SkipSpace(u[1..])).Some? ==>
                  var more := ParseItems(SkipSpace(u[1..])).value;
                  ParseItems(t) == Some(([v] + more.0, more.1)))
  {
    OpenSkips(Loose(v, gap), after);
    assert LooseBefore(v, gap, after);
    hide ParseValue, Loose, SkipSpace;
  }

  lemma {:induction false} ItemsReadLoosely(items: seq<Json>, gap: Text, rest: Text)
    requires IsGap(gap) && items != [] && forall i :: 0 <= i < |items| ==> ReadsLoosely(items[i], gap)
    ensures var t := Listed(Map(items, LooseItem(gap)), gap) + gap + [RBRACKET] + rest;
            Opens(t) && ParseItems(t) == Some((items, rest))
  {
    hide ParseItems, Loose, IsGap, SkipSpace, ReadsLoosely, Listed, EndsNumber;
    ListedForm(Map(items, LooseItem(gap)), gap);
    var parts := Map(items, LooseItem(gap));
    var t := Listed(parts, gap) + gap + [RBRACKET] + rest;
    assert parts[0] == Loose(items[0], gap) && ReadsLoosely(items[0], gap);
    if |items| == 1 {
      var after := gap + [RBRACKET] + rest;
      GapThen(gap, RBRACKET, rest);
      assert t == parts[0] + after;
      ReadsOneItem(t, items[0], gap, after);
      assert items == [items[0]];
    } else {
      var others := items[1..];
      assert parts[1..] == Map(others, LooseItem(gap));
      ItemsReadLoosely(others, gap, rest);
      var inner := Listed(parts[1..], gap) + gap + [RBRACKET] + rest;
      var after := gap + [COMMA] + (gap + inner);
      GapThen(gap, COMMA, gap + inner);
      SkipsGap(gap, inner);
      OpenSkips(inner, []);
      assert inner + [] == inner;
      assert t == parts[0] + after;
      ReadsOneItem(t, items[0], gap, after);
      assert items == [items[0]] + others;
    }
  }

  /** A member's key, its colon and its value, up to what follows. */
  lemma LooseMemberReads(m: (Text, Json), gap: Text, after: Text)
    requires IsGap(gap) && ReadsLoosely(m.1, gap) && EndsNumber(after)
    ensures var t, c := LooseMember(gap)(m) + after, gap + Loose(m.1, gap) + after;
            && t[0] == QUOTE && ParseString(t[1..]) == Some((m.0, gap + [COLON] + c))
            && SkipSpace(gap + [COLON] + c) == [COLON] + c && ([COLON] + c)[1..] == c
            && ParseValue(SkipSpace(c)) == Some((m.1, after))
  {
    hide ParseValue, ParseString, Loose, Escaped, IsGap, SkipSpace;
    var t, c := LooseMember(gap)(m) + after, gap + Loose(m.1, gap) + after;
    StringReadsBack(m.0, gap + [COLON] + c);
    assert t[1..] == Escaped(m.0) + [QUOTE] + (gap + [COLON] + c);
    GapThen(gap, COLON, c);
    SkipsGap(gap, Loose(m.1, gap) + after);
    assert c == gap + (Loose(m.1, gap) + after);
    OpenSkips(Loose(m.1, gap), after);
    assert LooseBefore(m.1, gap, after);
  }

  /** Reading on after one member: the brace, or a comma and the others. */
  lemma ReadsOneMember(t: Text, m: (Text, Json), gap: Text, after: Text)
    requires t == LooseMember(gap)(m) + after && IsGap(gap) && ReadsLoosely(m.1, gap) && EndsNumber(after)
    requires SkipSpace(after) != []
    ensures Opens(t)
    ensures var u := SkipSpace(after);
            && (u[0] == RBRACE ==> ParseMembers(t) == Some(([m], u[1..])))
            && (u[0] == COMMA && ParseMembers(SkipSpace(u[1..])).Some? ==>
                  var more := ParseMembers(SkipSpace(u[1..])).value;
                  ParseMembers(t) == Some(([m] + more.0, more.1)))
  {
    LooseMemberReads(m, gap, after);
    hide ParseValue, ParseString, LooseMember, IsGap, SkipSpace, ReadsLoosely;
  }

  lemma ListedForm(parts: seq<Text>, gap: Text)
    requires parts != []
    ensures Listed(parts, gap) == if |parts| == 1 then parts[0]
                                  else parts[0] + gap + [COMMA] + gap + Listed(parts[1..], gap)
  {
  }

  lemma {:induction false} MembersReadLoosely(members: seq<(Text, Json)>, gap: Text, rest: Text)
    requires IsGap(gap) && members != [] && forall i :: 0 <= i < |members| ==> ReadsLoosely(members[i].1, gap)
    ensures var t := Listed(Map(members, LooseMember(gap)), gap) + gap + [RBRACE] + rest;
            Opens(t) && ParseMembers(t) == Some((members, rest))
  {
    hide ParseMembers, LooseMember, IsGap, SkipSpace, ReadsLoosely, Listed, EndsNumber;
    ListedForm(Map(members, LooseMember(gap)), gap);
    var parts := Map(members, LooseMember(gap));
    var t := Listed(parts, gap) + gap + [RBRACE] + rest;
    assert parts[0] == LooseMember(gap)(members[0]) && ReadsLoosely(members[0].1, gap);
    if |members| == 1 {
      var after := gap + [RBRACE] + rest;
      GapThen(gap, RBRACE, rest);
      assert t == parts[0] + after;
      ReadsOneMember(t, members[0], gap, after);
      assert members == [members[0]];
    } else {
      var others := members[1..];
      assert parts[1..] == Map(others, LooseMember(gap));
      MembersReadLoosely(others, gap, rest);
      var inner := Listed(parts[1..], gap) + gap + [RBRACE] + rest;
      var after := gap + [COMMA] + (gap + inner);
      GapThen(gap, COMMA, gap + inner);
      SkipsGap(gap, inner);
      OpenSkips(inner, []);
      assert inner + [] == inner;
      assert t == parts[0] + after;
      ReadsOneMember(t, members[0], gap, after);
      assert members == [members[0]] + others;
    }
  }

  lemma BracketOpens(t: Text, u: Text)
    requires t != [] && t[0] == LBRACKET && SkipSpace(t[1..]) == u && u != []
    ensures u[0] == RBRACKET ==> ParseValue(t) == Some((Arr([]), u[1..]))
    ensures u[0] != RBRACKET && ParseItems(u).Some? ==>
              ParseValue(t) == Some((Arr(ParseItems(u).value.0), ParseItems(u).value.1))
  {
    hide ParseItems, SkipSpace;
  }

  lemma LooseBraceOpens(t: Text, u: Text)
    requires t != [] && t[0] == LBRACE && SkipSpace(t[1..]) == u && u != []
    ensures u[0] == RBRACE ==> ParseValue(t) == Some((Obj([]), u[1..]))
    ensures u[0] != RBRACE && ParseMembers(u).Some? && UniqueKeys(ParseMembers(u).value.0) ==>
              ParseValue(t) == Some((Obj(ParseMembers(u).value.0), ParseMembers(u).value.1))
  {
    hide ParseMembers, SkipSpace, UniqueKeys;
  }

  /** An opening bracket or brace, a gap, and the rest. */
  lemma OpenGap(c: nat, gap: Text, inner: Text, t: Text)
    requires IsGap(gap) && t == [c] + gap + inner
    ensures t != [] && t[0] == c && SkipSpace(t[1..]) == SkipSpace(inner)
  {
    assert t[1..] == gap + inner;
    SkipsGap(gap, inner);
  }

  lemma NothingListed(gap: Text, c: nat, rest: Text)
    requires IsGap(gap) && (c == RBRACKET || c == RBRACE)
    ensures SkipSpace(Listed([], gap) + gap + [c] + rest) == [c] + rest
    ensures ([c] + rest)[1..] == rest
  {
    assert Listed([], gap) + gap + [c] + rest == gap + [c] + rest;
    GapThen(gap, c, rest);
  }

  lemma OpenIsKept(t: Text)
    requires Opens(t)
    ensures SkipSpace(t) == t && t != [] && t[0] != RBRACKET && t[0] != RBRACE
  {
  }

  lemma ArrReadsLoosely(items: seq<Json>, gap: Text, rest: Text)
    requires IsGap(gap)
    requires forall i :: 0 <= i < |items| ==> ReadsLoosely(items[i], gap)
    ensures LooseBefore(Arr(items), gap, rest)
  {
    hide *;
    LooseForms(items, [], gap);
    var parts := Map(items, LooseItem(gap));
    var inner := Listed(parts, gap) + gap + [RBRACKET] + rest;
    var t := Loose(Arr(items), gap) + rest;
    assert t == [LBRACKET] + gap + inner;
    OpenGap(LBRACKET, gap, inner, t);
    if items == [] {
      assert parts == [];
      NothingListed(gap, RBRACKET, rest);
    } else {
      ItemsReadLoosely(items, gap, rest);
      OpenIsKept(inner);
    }
    BracketOpens(t, SkipSpace(inner));
    LooselyRead(Arr(items), gap, rest);
  }

  lemma LooselyRead(v: Json, gap: Text, rest: Text)
    ensures LooseBefore(v, gap, rest) <==> ParseValue(Loose(v, gap) + rest) == Some((v, rest))
  {
    hide ParseValue, Loose;
  }

  lemma KeysAreUnique(members: seq<(Text, Json)>)
    requires NoDup(Keys(members))
    ensures UniqueKeys(members)
  {
    CardIffNoDup(Keys(members));
  }

  lemma ObjReadsLoosely(members: seq<(Text, Json)>, gap: Text, rest: Text)
    requires IsGap(gap) && NoDup(Keys(members)) && forall i :: 0 <= i < |members| ==> ReadsLoosely(members[i].1, gap)
    ensures LooseBefore(Obj(members), gap, rest)
  {
    hide *;
    KeysAreUnique(members);
    LooseForms([], members, gap);
    var parts := Map(members, LooseMember(gap));
    var inner := Listed(parts, gap) + gap + [RBRACE] + rest;
    var t := Loose(Obj(members), gap) + rest;
    assert t == [LBRACE] + gap + inner;
    OpenGap(LBRACE, gap, inner, t);
    if members == [] {
      assert parts == [];
      NothingListed(gap, RBRACE, rest);
    } else {
      MembersReadLoosely(members, gap, rest);
      OpenIsKept(inner);
    }
    LooseBraceOpens(t, SkipSpace(inner));
    LooselyRead(Obj(members), gap, rest);
  }

  lemma LooseOpens(v: Json, gap: Text)
    requires v.Arr? || v.Obj?
    ensures Opens(Loose(v, gap))
  {
  }

  lemma {:induction false} ReadsAsWritten(v: Json, depth: nat, nfc: Text -> bool, gap: Text)
    requires IsGap(gap) && Valid(v, depth, nfc) && Keyed(v)
    ensures ReadsLoosely(v, gap)
    decreases v
  {
    match v {
      case Arr(items) =>
        forall i | 0 <= i < |items| ensures ReadsLoosely(items[i], gap) {
          ReadsAsWritten(items[i], depth + 1, nfc, gap);
        }
        LooseOpens(v, gap);
        hide Loose, LooseBefore;
        forall rest ensures LooseBefore(v, gap, rest) {
          ArrReadsLoosely(items, gap, rest);
        }
      case Obj(members) =>
        forall i | 0 <= i < |members| ensures ReadsLoosely(members[i].1, gap) {
          ReadsAsWritten(members[i].1, depth + 1, nfc, gap);
        }
        LooseOpens(v, gap);
        hide Loose, LooseBefore;
        forall rest ensures LooseBefore(v, gap, rest) {
          ObjReadsLoosely(members, gap, rest);
        }
      case Str(s) =>
        forall rest ensures Opens(Loose(v, gap)) && LooseBefore(v, gap, rest) {
          StrReadsBack(s, rest);
        }
      case Int(i) =>
        forall rest | EndsNumber(rest) ensures Opens(Loose(v, gap)) && LooseBefore(v, gap, rest) {
          IntReadsBack(i, rest);
        }
        IntReadsBack(i, []);
      case Null =>
        forall rest ensures Opens(Loose(v, gap)) && LooseBefore(v, gap, rest) {
          ConstantReadsBack(v, rest);
        }
      case Bool(_) =>
        forall rest ensures Opens(Loose(v, gap)) && LooseBefore(v, gap, rest) {
          ConstantReadsBack(v, rest);
        }
    }
  }

  lemma {:induction false} AllSkipped(gap: Text)
    requires IsGap(gap)
    ensures SkipSpace(gap) == []
  {
    SkipsGap(gap, []);
    assert gap + [] == gap;
  }

  /** The strict parser reads a value as it is written, members in their order, whatever spaces,
      tabs and line ends stand between the tokens and around them. */
  lemma SpacesDoNotMatter(v: Json, nfc: Text -> bool, gap: Text, raw: Bytes)
    requires IsGap(gap) && Valid(v, 0, nfc) && Keyed(v)
    requires DecodeUtf8(raw) == Some(gap + Loose(v, gap) + gap)
    ensures ParseStrictJson(raw, nfc) == Some(v)
  {
    ReadsAsWritten(v, 0, nfc, gap);
    GapEnds(gap);
    assert Opens(Loose(v, gap)) && LooseBefore(v, gap, gap);
    hide *;
    var text := Loose(v, gap);
    LooselyRead(v, gap, gap);
    SkipsGap(gap, text + gap);
    assert gap + text + gap == gap + (text + gap);
    OpenSkips(text, gap);
    AllSkipped(gap);
    NoByteOrderMark(text + gap);
    NoMarkAfterGap(gap, text + gap);
    StrictlyReadsSpaced(raw, gap + (text + gap), text + gap, gap, v, nfc);
  }

  lemma StrictlyReadsSpaced(raw: Bytes, text: Text, t: Text, rest: Text, v: Json, nfc: Text -> bool)
    requires DecodeUtf8(raw) == Some(text) && text != [] && text[0] != 0xFEFF && Valid(v, 0, nfc)
    requires SkipSpace(text) == t && ParseValue(t) == Some((v, rest)) && SkipSpace(rest) == []
    ensures ParseStrictJson(raw, nfc) == Some(v)
  {
    hide ParseValue, DecodeUtf8, Valid, SkipSpace;
  }

  lemma GapEnds(gap: Text)
    requires IsGap(gap)
    ensures EndsNumber(gap)
  {
  }

  lemma NoMarkAfterGap(gap: Text, t: Text)
    requires IsGap(gap) && t != [] && t[0] != 0xFEFF
    ensures (gap + t)[0] != 0xFEFF
  {
  }
}
