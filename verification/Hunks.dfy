/**
 Repairing the line counts of a unified diff (rlvr/neurons/demo_miner.py, recount_hunks).

 The regular expression's `\d` accepts more than the ASCII digits; which characters it
 accepts is a parameter.
 */
module Hunks {
  import opened Seqs
  import opened Unicode
  import opened Canonical

  const NEWLINE: nat := 10
  const SPACE: nat := 32
  const PLUS: nat := 43

  /** "@@ -", " +" and " @@". */
  const OPENING: Text := [64, 64, SPACE, MINUS]
  const MIDDLE: Text := [SPACE, PLUS]
  const CLOSING: Text := [SPACE, 64, 64]

  /** What is assumed of `\d`: it accepts the ASCII digits, and not the characters around numbers. */
  ghost predicate DigitClass(digit: nat -> bool) {
    (forall c: nat :: IsDigit(c) ==> digit(c)) && !digit(COMMA) && !digit(SPACE) && !digit(NEWLINE)
  }

  // ---- Headers ----------------------------------------------------------------------------------

  datatype Header = Header(oldStart: Text, newStart: Text, section: Text)

  /** How many leading characters are digits. */
  function Span(t: Text, digit: nat -> bool): (n: nat)
    ensures n <= |t|
    ensures forall i :: 0 <= i < n ==> digit(t[i])
    ensures n < |t| ==> !digit(t[n])
  {
    if t != [] && digit(t[0]) then 1 + Span(t[1..], digit) else 0
  }

  ghost predicate Number(t: Text, digit: nat -> bool) {
    t != [] && forall i :: 0 <= i < |t| ==> digit(t[i])
  }

  /** The optional `,\d+`. */
  ghost predicate Count(t: Text, digit: nat -> bool) {
    t == [] || (t[0] == COMMA && Number(t[1..], digit))
  }

  /** What is left after an optional count. */
  function SkipCount(t: Text, digit: nat -> bool): Text {
    if StartsWith(t, [COMMA]) && Span(t[1..], digit) > 0 then t[1..][Span(t[1..], digit)..] else t
  }

  /** A number, and what is left after it and its optional count. */
  function ReadRange(t: Text, digit: nat -> bool): Option<(Text, Text)> {
    var n := Span(t, digit);
    if n == 0 then None else Some((t[..n], SkipCount(t[n..], digit)))
  }

  /** `_HUNK_RE.match(line)`: read left to right, since no part can end in two places. */
  function ParseHeader(line: Text, digit: nat -> bool): Option<Header> {
    if !StartsWith(line, OPENING) then None
    else
      var before := ReadRange(line[|OPENING|..], digit);
      if before.None? || !StartsWith(before.value.1, MIDDLE) then None
      else
        var after := ReadRange(before.value.1[|MIDDLE|..], digit);
        if after.None? || !StartsWith(after.value.1, CLOSING) then None
        else Some(Header(before.value.0, after.value.0, after.value.1[|CLOSING|..]))
  }

  function HeaderText(h: Header, oldCount: Text, newCount: Text): Text {
    OPENING + (h.oldStart + (oldCount + (MIDDLE + (h.newStart + (newCount + (CLOSING + h.section))))))
  }

  /** The regular expression, read as a grammar. */
  ghost predicate Matches(line: Text, h: Header, digit: nat -> bool) {
    exists oldCount, newCount :: WellFormed(h, oldCount, newCount, digit) && line == HeaderText(h, oldCount, newCount)
  }

  ghost predicate WellFormed(h: Header, oldCount: Text, newCount: Text, digit: nat -> bool) {
    Number(h.oldStart, digit) && Number(h.newStart, digit) && Count(oldCount, digit) && Count(newCount, digit)
  }

  lemma Front(a: Text, b: Text)
    ensures StartsWith(a + b, a) && (a + b)[..|a|] == a && (a + b)[|a|..] == b
  {
  }

  lemma {:induction false} SpanOfNumber(word: Text, rest: Text, digit: nat -> bool)
    requires forall i :: 0 <= i < |word| ==> digit(word[i])
    requires rest == [] || !digit(rest[0])
    ensures Span(word + rest, digit) == |word|
  {
    if word == [] {
      assert word + rest == rest;
    } else {
      assert (word + rest)[1..] == word[1..] + rest;
      SpanOfNumber(word[1..], rest, digit);
    }
  }

  lemma CountIsSkipped(count: Text, rest: Text, digit: nat -> bool)
    requires DigitClass(digit) && Count(count, digit) && rest != [] && rest[0] == SPACE
    ensures SkipCount(count + rest, digit) == rest
  {
    var t := count + rest;
    if count == [] {
      assert t == rest;
      assert t[..1][0] != COMMA;
    } else {
      var digits := count[1..];
      assert t[..1] == [COMMA];
      assert t[1..] == digits + rest;
      SpanOfNumber(digits, rest, digit);
      Front(digits, rest);
      hide Span, Number;
    }
  }

  /** A range reads back, whatever follows after a space. */
  lemma RangeReadsBack(word: Text, count: Text, rest: Text, digit: nat -> bool)
    requires DigitClass(digit) && Number(word, digit) && Count(count, digit)
    requires rest != [] && rest[0] == SPACE
    ensures ReadRange(word + (count + rest), digit) == Some((word, rest))
  {
    assert (count + rest)[0] == SPACE || (count + rest)[0] == COMMA;
    SpanOfNumber(word, count + rest, digit);
    Front(word, count + rest);
    CountIsSkipped(count, rest, digit);
    hide SkipCount, Count;
  }

  lemma HeaderReadsBack(h: Header, oldCount: Text, newCount: Text, digit: nat -> bool)
    requires DigitClass(digit) && WellFormed(h, oldCount, newCount, digit)
    ensures ParseHeader(HeaderText(h, oldCount, newCount), digit) == Some(h)
  {
    var tail := CLOSING + h.section;
    var second := h.newStart + (newCount + tail);
    var middle := MIDDLE + second;
    var first := h.oldStart + (oldCount + middle);
    assert middle[0] == SPACE && tail[0] == SPACE;
    RangeReadsBack(h.oldStart, oldCount, middle, digit);
    RangeReadsBack(h.newStart, newCount, tail, digit);
    hide ReadRange, Number, Count, DigitClass, StartsWith;
    Front(OPENING, first);
    Front(MIDDLE, second);
    Front(CLOSING, h.section);
  }

  lemma SkippedIsCount(t: Text, digit: nat -> bool) returns (count: Text)
    ensures Count(count, digit) && t == count + SkipCount(t, digit)
  {
    count := [];
    if StartsWith(t, [COMMA]) && Span(t[1..], digit) > 0 {
      var n := Span(t[1..], digit);
      count := [COMMA] + t[1..][..n];
      assert count[1..] == t[1..][..n];
      assert t[0] == t[..1][0] == COMMA;
      assert t[1..] == t[1..][..n] + t[1..][n..];
      assert t == [COMMA] + t[1..];
    }
  }

  lemma RangeIsNumber(t: Text, digit: nat -> bool) returns (count: Text)
    requires ReadRange(t, digit).Some?
    ensures Number(ReadRange(t, digit).value.0, digit) && Count(count, digit)
    ensures t == ReadRange(t, digit).value.0 + (count + ReadRange(t, digit).value.1)
  {
    var n := Span(t, digit);
    count := SkippedIsCount(t[n..], digit);
    hide Count, SkipCount;
    assert t == t[..n] + t[n..];
  }

  lemma Rejoin(t: Text, front: Text)
    requires StartsWith(t, front)
    ensures t == front + t[|front|..]
  {
  }

  lemma ParsedIsMatched(line: Text, digit: nat -> bool)
    requires ParseHeader(line, digit).Some?
    ensures Matches(line, ParseHeader(line, digit).value, digit)
  {
    var h := ParseHeader(line, digit).value;
    var first := line[|OPENING|..];
    var oldCount := RangeIsNumber(first, digit);
    var middle := ReadRange(first, digit).value.1;
    var second := middle[|MIDDLE|..];
    var newCount := RangeIsNumber(second, digit);
    var tail := ReadRange(second, digit).value.1;
    Rejoin(line, OPENING);
    Rejoin(middle, MIDDLE);
    Rejoin(tail, CLOSING);
    hide ReadRange, Number, Count, StartsWith;
    assert WellFormed(h, oldCount, newCount, digit) && line == HeaderText(h, oldCount, newCount);
  }

  /** The left-to-right reading finds exactly the lines the expression matches, and the
      groups it captures. */
  lemma ParserIsTheExpression(line: Text, h: Header, digit: nat -> bool)
    requires DigitClass(digit)
    ensures ParseHeader(line, digit) == Some(h) <==> Matches(line, h, digit)
  {
    if Matches(line, h, digit) {
      var oldCount, newCount :| WellFormed(h, oldCount, newCount, digit) && line == HeaderText(h, oldCount, newCount);
      HeaderReadsBack(h, oldCount, newCount, digit);
    }
    if ParseHeader(line, digit) == Some(h) {
      ParsedIsMatched(line, digit);
    }
  }

  // ---- Bodies -----------------------------------------------------------------------------------

  predicate IsBody(line: Text) {
    line != [] && line[0] in {SPACE, PLUS, MINUS, BACKSLASH}
  }

  /** Where the body that starts at `end` stops; a blank line belongs to it only if more of
      the body follows. */
  function BodyEnd(lines: seq<Text>, end: nat): (r: nat)
    requires end <= |lines|
    ensures end <= r <= |lines|
    ensures forall k :: end <= k < r ==> IsBody(lines[k]) || lines[k] == []
    ensures r < |lines| ==> !IsBody(lines[r]) && (lines[r] == [] && r + 1 < |lines| ==> !IsBody(lines[r + 1]))
    decreases |lines| - end
  {
    if end < |lines| && (IsBody(lines[end]) || (lines[end] == [] && end + 1 < |lines| && IsBody(lines[end + 1])))
    then BodyEnd(lines, end + 1) else end
  }

  predicate IsOld(line: Text) { line == [] || line[0] == SPACE || line[0] == MINUS }
  predicate IsNew(line: Text) { line == [] || line[0] == SPACE || line[0] == PLUS }

  function Tally(lines: seq<Text>, p: Text -> bool): nat {
    if lines == [] then 0 else Tally(lines[..|lines| - 1], p) + if p(lines[|lines| - 1]) then 1 else 0
  }

  function Counted(n: nat): Text {
    [COMMA] + Digits(n)
  }

  /** Line i of the repaired patch: a header gets the counts of the body under it. */
  function Fixed(lines: seq<Text>, i: nat, digit: nat -> bool): Text
    requires i < |lines|
  {
    var header := ParseHeader(lines[i], digit);
    if header.None? then lines[i]
    else
      var body := lines[i + 1..BodyEnd(lines, i + 1)];
      HeaderText(header.value, Counted(Tally(body, IsOld)), Counted(Tally(body, IsNew)))
  }

  function Recounted(lines: seq<Text>, digit: nat -> bool): (r: seq<Text>)
    ensures |r| == |lines|
  {
    seq(|lines|, i requires 0 <= i < |lines| => Fixed(lines, i, digit))
  }

  /** A line of a body is never a header, so the loop that jumps over bodies misses none. */
  lemma BodiesHoldNoHeaders(line: Text, digit: nat -> bool)
    requires IsBody(line) || line == []
    ensures ParseHeader(line, digit).None?
  {
    assert OPENING[0] == 64;
  }

  method CountLines(body: seq<Text>, p: Text -> bool) returns (n: nat)
    ensures n == Tally(body, p)
  {
    n := 0;
    for i := 0 to |body|
      invariant n == Tally(body[..i], p)
    {
      assert body[..i + 1][..i] == body[..i];
      if p(body[i]) {
        n := n + 1;
      }
    }
    assert body[..|body|] == body;
  }

  method FindBodyEnd(lines: seq<Text>, start: nat) returns (end: nat)
    requires start <= |lines|
    ensures end == BodyEnd(lines, start)
  {
    end := start;
    while end < |lines| && (IsBody(lines[end]) || lines[end] == [])
      invariant start <= end <= |lines|
      invariant BodyEnd(lines, end) == BodyEnd(lines, start)
    {
      if lines[end] == [] && (end + 1 == |lines| || !IsBody(lines[end + 1])) {
        break;
      }
      end := end + 1;
    }
  }

  lemma BodyIsKept(lines: seq<Text>, index: nat, digit: nat -> bool)
    requires index < |lines|
    ensures var out, end := Recounted(lines, digit), BodyEnd(lines, index + 1);
            out[..end] == out[..index] + [out[index]] + lines[index + 1..end]
  {
    var out, end := Recounted(lines, digit), BodyEnd(lines, index + 1);
    forall k | index < k < end ensures out[k] == lines[k] {
      BodiesHoldNoHeaders(lines[k], digit);
    }
    hide Fixed, BodyEnd, Recounted;
    assert out[index + 1..end] == lines[index + 1..end];
    assert out[..end] == out[..index] + [out[index]] + out[index + 1..end];
  }

  lemma FrontGrows(lines: seq<Text>, index: nat, digit: nat -> bool)
    requires index < |lines|
    ensures Recounted(lines, digit)[index] == Fixed(lines, index, digit)
    ensures Recounted(lines, digit)[..index + 1] == Recounted(lines, digit)[..index] + [Fixed(lines, index, digit)]
  {
    hide Fixed;
  }

  method RecountLines(lines: seq<Text>, digit: nat -> bool) returns (out: seq<Text>)
    ensures out == Recounted(lines, digit)
  {
    out := [];
    var index := 0;
    hide Recounted;
    while index < |lines|
      invariant index <= |lines| && out == Recounted(lines, digit)[..index]
    {
      FrontGrows(lines, index, digit);
      hide ParseHeader, HeaderText, Tally, BodyEnd, Counted;
      var header := ParseHeader(lines[index], digit);
      if header.None? {
        out := out + [lines[index]];
        index := index + 1;
        continue;
      }
      var end := FindBodyEnd(lines, index + 1);
      BodyIsKept(lines, index, digit);
      var body := lines[index + 1..end];
      var removed := CountLines(body, IsOld);
      var added := CountLines(body, IsNew);
      out := out + [HeaderText(header.value, Counted(removed), Counted(added))] + body;
      index := end;
    }
  }

  /** `recount_hunks`: bytes that are not UTF-8 are returned as they are. */
  method RecountHunks(patch: Bytes, digit: nat -> bool) returns (out: Bytes)
    requires DigitClass(digit)
    ensures out == RecountBytes(patch, digit)
  {
    var text := DecodeUtf8(patch);
    if text.None? {
      return patch;
    }
    EncodeDecoded(patch);
    RepairedText(text.value, digit);
    var lines := RecountLines(Split(text.value, NEWLINE), digit);
    out := EncodeUtf8(JoinBy(lines, NEWLINE));
  }

  function RecountBytes(patch: Bytes, digit: nat -> bool): Bytes {
    var text := DecodeUtf8(patch);
    if text.None? then patch
    else
      var repaired := JoinBy(Recounted(Split(text.value, NEWLINE), digit), NEWLINE);
      if Scalars(repaired) then EncodeUtf8(repaired) else patch
  }

  // ---- What the repair keeps --------------------------------------------------------------------

  lemma {:induction false} DigitsAreDigits(n: nat)
    ensures forall i :: 0 <= i < |Digits(n)| ==> IsDigit(Digits(n)[i])
    decreases n
  {
    if n >= 10 {
      DigitsAreDigits(n / 10);
    }
  }

  lemma CountedIsCount(n: nat, digit: nat -> bool)
    requires DigitClass(digit)
    ensures Count(Counted(n), digit)
    ensures Clean(Counted(n))
  {
    DigitsAreDigits(n);
    assert Counted(n)[1..] == Digits(n);
  }

  /** A repaired line: still a header with the same groups, or untouched. */
  lemma FixedLine(lines: seq<Text>, i: nat, digit: nat -> bool)
    requires DigitClass(digit) && i < |lines|
    ensures ParseHeader(Fixed(lines, i, digit), digit) == ParseHeader(lines[i], digit)
    ensures ParseHeader(lines[i], digit).None? ==> Fixed(lines, i, digit) == lines[i]
  {
    if ParseHeader(lines[i], digit).Some? {
      var h := ParseHeader(lines[i], digit).value;
      var body := lines[i + 1..BodyEnd(lines, i + 1)];
      ParsedIsMatched(lines[i], digit);
      CountedIsCount(Tally(body, IsOld), digit);
      CountedIsCount(Tally(body, IsNew), digit);
      hide Counted, Tally, ParseHeader, BodyEnd, HeaderText, Number, Count, Clean;
      assert WellFormed(h, Counted(Tally(body, IsOld)), Counted(Tally(body, IsNew)), digit);
      HeaderReadsBack(h, Counted(Tally(body, IsOld)), Counted(Tally(body, IsNew)), digit);
    }
  }

  lemma FixedClass(lines: seq<Text>, i: nat, digit: nat -> bool)
    requires i < |lines|
    ensures IsBody(Fixed(lines, i, digit)) == IsBody(lines[i]) && (Fixed(lines, i, digit) == [] <==> lines[i] == [])
  {
    if ParseHeader(lines[i], digit).Some? {
      BodiesAreApart(lines[i], digit);
      assert Fixed(lines, i, digit)[0] == OPENING[0];
    }
  }

  lemma BodiesAreApart(line: Text, digit: nat -> bool)
    requires ParseHeader(line, digit).Some?
    ensures line != [] && !IsBody(line)
  {
    if IsBody(line) || line == [] {
      BodiesHoldNoHeaders(line, digit);
    }
  }

  predicate IsAdded(line: Text) { line != [] && line[0] == 43 }
  predicate IsRemoved(line: Text) { line != [] && line[0] == 45 }
  predicate IsNote(line: Text) { line != [] && line[0] == 92 }

  /** The two counts are of the two files: the old side of a body is what remains without the added
      lines and the notes, the new side what remains without the removed ones. */
  lemma {:induction false} CountsAreSides(body: seq<Text>)
    requires forall k :: 0 <= k < |body| ==> IsBody(body[k]) || body[k] == []
    ensures Tally(body, IsOld) + Tally(body, IsAdded) + Tally(body, IsNote) == |body|
    ensures Tally(body, IsNew) + Tally(body, IsRemoved) + Tally(body, IsNote) == |body|
  {
    if body != [] {
      CountsAreSides(body[..|body| - 1]);
    }
  }

  /** The number of lines and every line that is not a header are kept, and a header keeps
      its starts and section and gets the counts of the body under it in the result. */
  lemma RepairKeepsLines(lines: seq<Text>, digit: nat -> bool, i: nat)
    requires DigitClass(digit) && i < |lines|
    ensures var out := Recounted(lines, digit);
            && |out| == |lines|
            && ParseHeader(out[i], digit) == ParseHeader(lines[i], digit)
            && (ParseHeader(lines[i], digit).None? ==> out[i] == lines[i])
            && (ParseHeader(lines[i], digit).Some? ==>
                  var body := out[i + 1..BodyEnd(out, i + 1)];
                  out[i] == HeaderText(ParseHeader(lines[i], digit).value, Counted(Tally(body, IsOld)),
                      Counted(Tally(body, IsNew))))
  {
    FixedLine(lines, i, digit);
    hide ParseHeader, HeaderText;
    if ParseHeader(lines[i], digit).Some? {
      SameBody(lines, digit, i + 1);
    }
  }

  lemma SameClasses(lines: seq<Text>, digit: nat -> bool)
    requires DigitClass(digit)
    ensures var out := Recounted(lines, digit);
            forall k :: 0 <= k < |lines| ==> IsBody(out[k]) == IsBody(lines[k]) && (out[k] == [] <==> lines[k] == [])
  {
    forall k | 0 <= k < |lines|
      ensures IsBody(Recounted(lines, digit)[k]) == IsBody(lines[k])
          && (Recounted(lines, digit)[k] == [] <==> lines[k] == [])
    {
      FixedClass(lines, k, digit);
    }
  }

  lemma {:induction false} SameEnd(lines: seq<Text>, out: seq<Text>, end: nat)
    requires |out| == |lines| && end <= |lines|
    requires forall k :: 0 <= k < |lines| ==> IsBody(out[k]) == IsBody(lines[k]) && (out[k] == [] <==> lines[k] == [])
    ensures BodyEnd(out, end) == BodyEnd(lines, end)
    decreases |lines| - end
  {
    hide IsBody;
    if end < |lines| {
      SameEnd(lines, out, end + 1);
    }
  }

  /** Bodies are where they were and hold what they held. */
  lemma SameBody(lines: seq<Text>, digit: nat -> bool, start: nat)
    requires DigitClass(digit) && start <= |lines|
    ensures var out := Recounted(lines, digit);
            && BodyEnd(out, start) == BodyEnd(lines, start)
            && out[start..BodyEnd(out, start)] == lines[start..BodyEnd(lines, start)]
  {
    var out := Recounted(lines, digit);
    SameClasses(lines, digit);
    SameEnd(lines, out, start);
    forall k | start <= k < BodyEnd(lines, start) ensures out[k] == lines[k] {
      BodiesHoldNoHeaders(lines[k], digit);
    }
  }

  /** Repairing twice is repairing once. */
  lemma RepairIsIdempotent(lines: seq<Text>, digit: nat -> bool)
    requires DigitClass(digit)
    ensures Recounted(Recounted(lines, digit), digit) == Recounted(lines, digit)
  {
    var out := Recounted(lines, digit);
    forall i | 0 <= i < |lines| ensures Fixed(out, i, digit) == out[i] {
      RepairKeepsLines(lines, digit, i);
      hide BodyEnd, ParseHeader, HeaderText, Tally;
    }
  }

  predicate Clean(t: Text) {
    NEWLINE !in t && Scalars(t)
  }

  lemma CleanParts(a: Text, b: Text)
    ensures Clean(a + b) <==> Clean(a) && Clean(b)
  {
    assert forall i :: 0 <= i < |a| ==> (a + b)[i] == a[i];
    assert forall i :: 0 <= i < |b| ==> (a + b)[|a| + i] == b[i];
  }

  lemma HeaderIsClean(h: Header, oldCount: Text, newCount: Text)
    ensures Clean(HeaderText(h, oldCount, newCount)) <==>
            Clean(h.oldStart) && Clean(oldCount) && Clean(h.newStart) && Clean(newCount) && Clean(h.section)
  {
    assert Clean(OPENING) && Clean(MIDDLE) && Clean(CLOSING);
    hide Clean;
    var tail := CLOSING + h.section;
    var second := h.newStart + (newCount + tail);
    var first := h.oldStart + (oldCount + (MIDDLE + second));
    CleanParts(OPENING, first);
    CleanParts(h.oldStart, oldCount + (MIDDLE + second));
    CleanParts(oldCount, MIDDLE + second);
    CleanParts(MIDDLE, second);
    CleanParts(h.newStart, newCount + tail);
    CleanParts(newCount, tail);
    CleanParts(CLOSING, h.section);
  }

  lemma FixedIsClean(lines: seq<Text>, i: nat, digit: nat -> bool)
    requires DigitClass(digit) && i < |lines| && Clean(lines[i])
    ensures Clean(Fixed(lines, i, digit))
  {
    if ParseHeader(lines[i], digit).Some? {
      var h := ParseHeader(lines[i], digit).value;
      var body := lines[i + 1..BodyEnd(lines, i + 1)];
      ParsedIsMatched(lines[i], digit);
      CountedIsCount(Tally(body, IsOld), digit);
      CountedIsCount(Tally(body, IsNew), digit);
      hide ParseHeader, Counted, Tally, BodyEnd, HeaderText, Clean;
      var oldCount, newCount :| WellFormed(h, oldCount, newCount, digit)
          && lines[i] == HeaderText(h, oldCount, newCount);
      HeaderIsClean(h, oldCount, newCount);
      HeaderIsClean(h, Counted(Tally(body, IsOld)), Counted(Tally(body, IsNew)));
    }
  }

  lemma RepairedText(text: Text, digit: nat -> bool)
    requires DigitClass(digit) && Scalars(text)
    ensures var repaired := Recounted(Split(text, NEWLINE), digit);
            && Scalars(JoinBy(repaired, NEWLINE))
            && Split(JoinBy(repaired, NEWLINE), NEWLINE) == repaired
  {
    var lines := Split(text, NEWLINE);
    SplitPieces(text, NEWLINE);
    var repaired := Recounted(lines, digit);
    forall i | 0 <= i < |repaired| ensures Clean(repaired[i]) {
      FixedIsClean(lines, i, digit);
    }
    hide Recounted, Split, JoinBy;
    JoinOfScalars(repaired, NEWLINE);
    SplitOfJoin(repaired, NEWLINE);
  }

  /** The same of the bytes: repairing a repaired patch changes nothing. */
  lemma BytesRepairIsIdempotent(patch: Bytes, digit: nat -> bool)
    requires DigitClass(digit)
    ensures RecountBytes(RecountBytes(patch, digit), digit) == RecountBytes(patch, digit)
  {
    var text := DecodeUtf8(patch);
    if text.Some? {
      EncodeDecoded(patch);
      RepairedText(text.value, digit);
      RepairIsIdempotent(Split(text.value, NEWLINE), digit);
      var repaired := JoinBy(Recounted(Split(text.value, NEWLINE), digit), NEWLINE);
      hide Recounted, Split, JoinBy;
      DecodeEncoded(repaired);
    }
  }
}
