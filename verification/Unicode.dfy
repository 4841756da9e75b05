/**
 Text as code points, and the two encodings canonical JSON depends on: UTF-8 for the bytes
 and UTF-16 (big endian) for the order of object keys.
 */
module Unicode {
  import opened Seqs

  /** A Python string: code points, surrogates included. */
  type Text = seq<nat>

  predicate Surrogate(c: nat) {
    0xD800 <= c <= 0xDFFF
  }

  predicate Scalar(c: nat) {
    c <= 0x10FFFF && !Surrogate(c)
  }

  predicate Scalars(t: Text) {
    forall i :: 0 <= i < |t| ==> Scalar(t[i])
  }

  // ---- Splitting ----------------------------------------------------------------------------

  /** `t.split(sep)` for a one-character separator. */
  function Split(t: Text, sep: nat): (r: seq<Text>)
    ensures r != []
  {
    if t == [] then [[]]
    else
      var rest := Split(t[1..], sep);
      if t[0] == sep then [[]] + rest else [[t[0]] + rest[0]] + rest[1..]
  }

  /** `sep.join(parts)`. */
  function JoinBy(parts: seq<Text>, sep: nat): Text
    requires parts != []
  {
    if |parts| == 1 then parts[0] else parts[0] + [sep] + JoinBy(parts[1..], sep)
  }

  lemma {:induction false} SplitPieces(t: Text, sep: nat)
    ensures forall i :: 0 <= i < |Split(t, sep)| ==> sep !in Split(t, sep)[i]
    ensures Scalars(t) ==> forall i :: 0 <= i < |Split(t, sep)| ==> Scalars(Split(t, sep)[i])
  {
    if t != [] {
      SplitPieces(t[1..], sep);
    }
  }

  lemma {:induction false} SplitWord(word: Text, rest: Text, sep: nat)
    requires sep !in word
    ensures Split(word, sep) == [word]
    ensures Split(word + [sep] + rest, sep) == [word] + Split(rest, sep)
  {
    var t := word + [sep] + rest;
    if word == [] {
      assert t[1..] == rest;
    } else {
      SplitWord(word[1..], rest, sep);
      assert t[1..] == word[1..] + [sep] + rest;
      assert word == [word[0]] + word[1..];
    }
  }

  lemma {:induction false} SplitOfJoin(parts: seq<Text>, sep: nat)
    requires parts != [] && forall i :: 0 <= i < |parts| ==> sep !in parts[i]
    ensures Split(JoinBy(parts, sep), sep) == parts
  {
    if |parts| == 1 {
      SplitWord(parts[0], [], sep);
    } else {
      SplitOfJoin(parts[1..], sep);
      SplitWord(parts[0], JoinBy(parts[1..], sep), sep);
      assert parts == [parts[0]] + parts[1..];
    }
  }

  lemma {:induction false} JoinOfScalars(parts: seq<Text>, sep: nat)
    requires parts != [] && Scalar(sep) && forall i :: 0 <= i < |parts| ==> Scalars(parts[i])
    ensures Scalars(JoinBy(parts, sep))
  {
    if |parts| > 1 {
      JoinOfScalars(parts[1..], sep);
    }
  }

  // ---- UTF-8 --------------------------------------------------------------------------------

  function Utf8Char(c: nat): (r: Bytes)
    requires Scalar(c)
    ensures 1 <= |r| <= 4
  {
    if c < 0x80 then [c]
    else if c < 0x800 then [0xC0 + c / 64, 0x80 + c % 64]
    else if c < 0x10000 then [0xE0 + c / 64 / 64, 0x80 + c / 64 % 64, 0x80 + c % 64]
    else [0xF0 + c / 64 / 64 / 64, 0x80 + c / 64 / 64 % 64, 0x80 + c / 64 % 64, 0x80 + c % 64]
  }

  function EncodeUtf8(t: Text): Bytes
    requires Scalars(t)
  {
    if t == [] then [] else Utf8Char(t[0]) + EncodeUtf8(t[1..])
  }

  predicate Continues(b: Bytes, i: nat) {
    i < |b| && 0x80 <= b[i] < 0xC0
  }

  /** Six more bits from a continuation byte. */
  function Six(high: nat, b: nat): nat
    requires 0x80 <= b < 0xC0
  {
    high * 64 + (b - 0x80)
  }

  lemma SixSplits(high: nat, b: nat)
    requires 0x80 <= b < 0xC0
    ensures Six(high, b) / 64 == high && 0x80 + Six(high, b) % 64 == b
  {
  }

  lemma SixJoins(c: nat)
    ensures Six(c / 64, 0x80 + c % 64) == c
  {
  }

  /** The first code point and how many bytes it takes; overlong forms, surrogates and
      anything above U+10FFFF are refused. */
  function DecodeOne(b: Bytes): (r: Option<(nat, nat)>)
    requires b != []
    ensures r.Some? ==> 1 <= r.value.1 <= |b| && Scalar(r.value.0)
  {
    if b[0] < 0x80 then Some((b[0], 1))
    else if 0xC0 <= b[0] < 0xE0 && Continues(b, 1) then
      var c := Six(b[0] - 0xC0, b[1]);
      if c >= 0x80 then Some((c, 2)) else None
    else if 0xE0 <= b[0] < 0xF0 && Continues(b, 1) && Continues(b, 2) then
      var c := Six(Six(b[0] - 0xE0, b[1]), b[2]);
      if c >= 0x800 && Scalar(c) then Some((c, 3)) else None
    else if 0xF0 <= b[0] < 0xF8 && Continues(b, 1) && Continues(b, 2) && Continues(b, 3) then
      var c := Six(Six(Six(b[0] - 0xF0, b[1]), b[2]), b[3]);
      if c >= 0x10000 && Scalar(c) then Some((c, 4)) else None
    else None
  }

  function DecodeUtf8(b: Bytes): (r: Option<Text>)
  {
    if b == [] then Some([])
    else
      var one := DecodeOne(b);
      if one.None? then None
      else
        var rest := DecodeUtf8(b[one.value.1..]);
        if rest.None? then None else Some([one.value.0] + rest.value)
  }

  lemma DecodeOneEncoded(c: nat, rest: Bytes)
    requires Scalar(c)
    ensures DecodeOne(Utf8Char(c) + rest) == Some((c, |Utf8Char(c)|))
  {
    SixJoins(c);
    SixJoins(c / 64);
    SixJoins(c / 64 / 64);
    hide Six;
  }

  lemma {:induction false} DecodeEncoded(t: Text)
    requires Scalars(t)
    ensures DecodeUtf8(EncodeUtf8(t)) == Some(t)
  {
    if t != [] {
      var first, rest := Utf8Char(t[0]), EncodeUtf8(t[1..]);
      DecodeEncoded(t[1..]);
      DecodeOneEncoded(t[0], rest);
      assert (first + rest)[|first|..] == rest;
      assert t == [t[0]] + t[1..];
    }
  }

  /** Only encodings decode: UTF-8 is a bijection between scalar texts and accepted bytes. */
  lemma {:induction false} EncodeDecoded(b: Bytes)
    requires DecodeUtf8(b).Some?
    ensures Scalars(DecodeUtf8(b).value) && EncodeUtf8(DecodeUtf8(b).value) == b
  {
    if b != [] {
      var n := DecodeOne(b).value.1;
      var t, rest := DecodeUtf8(b).value, DecodeUtf8(b[n..]).value;
      EncodeDecoded(b[n..]);
      EncodeDecodedOne(b);
      assert t[0] == DecodeOne(b).value.0 && t[1..] == rest;
      hide DecodeOne, Utf8Char, DecodeUtf8;
      assert EncodeUtf8(t) == b[..n] + b[n..];
      assert b == b[..n] + b[n..];
    }
  }

  lemma EncodeDecodedOne(b: Bytes)
    requires b != [] && DecodeOne(b).Some?
    ensures var (c, n) := DecodeOne(b).value; Utf8Char(c) == b[..n]
  {
    var n := DecodeOne(b).value.1;
    if n == 2 {
      SixSplits(b[0] - 0xC0, b[1]);
    } else if n == 3 {
      SixSplits(b[0] - 0xE0, b[1]);
      SixSplits(Six(b[0] - 0xE0, b[1]), b[2]);
    } else if n == 4 {
      SixSplits(b[0] - 0xF0, b[1]);
      SixSplits(Six(b[0] - 0xF0, b[1]), b[2]);
      SixSplits(Six(Six(b[0] - 0xF0, b[1]), b[2]), b[3]);
    }
  }

  /** One character of each length, as the standard encodes it. */
  lemma KnownEncodings()
    ensures Utf8Char(0x41) == [0x41] && Utf8Char(0xE9) == [0xC3, 0xA9]
    ensures Utf8Char(0x20AC) == [0xE2, 0x82, 0xAC] && Utf8Char(0x1F600) == [0xF0, 0x9F, 0x98, 0x80]
    ensures Utf16Char(0x20AC) == [0x20AC] && Utf16Char(0x1F600) == [0xD83D, 0xDE00]
  {
  }

  // ---- UTF-16 ---------------------------------------------------------------------------------

  function Utf16Char(c: nat): (r: seq<nat>)
    ensures 1 <= |r| <= 2
  {
    if c < 0x10000 then [c] else [0xD800 + (c - 0x10000) / 1024, 0xDC00 + (c - 0x10000) % 1024]
  }

  function Utf16(t: Text): (r: seq<nat>) {
    if t == [] then [] else Utf16Char(t[0]) + Utf16(t[1..])
  }

  function BigEndian(units: seq<nat>): Bytes {
    if units == [] then [] else [units[0] / 256, units[0] % 256] + BigEndian(units[1..])
  }

  /** `key.encode("utf-16-be")`. */
  function Utf16Be(t: Text): Bytes {
    BigEndian(Utf16(t))
  }

  /** Python's comparison of byte strings, and of any sequence of numbers. */
  predicate LexLeq(a: seq<nat>, b: seq<nat>) {
    a == [] || (b != [] && (a[0] < b[0] || (a[0] == b[0] && LexLeq(a[1..], b[1..]))))
  }

  lemma {:induction false} LexTotal(a: seq<nat>, b: seq<nat>)
    ensures LexLeq(a, b) || LexLeq(b, a)
    ensures LexLeq(a, b) && LexLeq(b, a) ==> a == b
  {
    if a != [] && b != [] && a[0] == b[0] {
      LexTotal(a[1..], b[1..]);
      assert a == [a[0]] + a[1..] && b == [b[0]] + b[1..];
    }
  }

  lemma {:induction false} LexTransitive(a: seq<nat>, b: seq<nat>, c: seq<nat>)
    requires LexLeq(a, b) && LexLeq(b, c)
    ensures LexLeq(a, c)
  {
    if a != [] && a[0] == b[0] && b[0] == c[0] {
      LexTransitive(a[1..], b[1..], c[1..]);
    }
  }

  /** Comparing big-endian bytes compares code units, the order RFC 8785 section 3.2.3 asks for. */
  lemma {:induction false} BytesCompareUnits(a: seq<nat>, b: seq<nat>)
    ensures LexLeq(BigEndian(a), BigEndian(b)) <==> LexLeq(a, b)
  {
    if a != [] && b != [] {
      BytesCompareUnits(a[1..], b[1..]);
      var x, y := BigEndian(a), BigEndian(b);
      assert x[1..] == [a[0] % 256] + BigEndian(a[1..]) && y[1..] == [b[0] % 256] + BigEndian(b[1..]);
      assert x[1..][1..] == BigEndian(a[1..]) && y[1..][1..] == BigEndian(b[1..]);
    }
  }

  lemma {:induction false} Utf16Injective(a: Text, b: Text)
    requires Scalars(a) && Scalars(b) && Utf16(a) == Utf16(b)
    ensures a == b
  {
    if a == [] {
      assert b == [];
    } else {
      assert b != [];
      assert Utf16(a)[0] == Utf16Char(a[0])[0] && Utf16(b)[0] == Utf16Char(b[0])[0];
      UnitDecides(a[0], b[0], Utf16(a[1..]), Utf16(b[1..]));
      var n := |Utf16Char(a[0])|;
      assert Utf16(a)[n..] == Utf16(a[1..]) && Utf16(b)[n..] == Utf16(b[1..]);
      Utf16Injective(a[1..], b[1..]);
      assert a == [a[0]] + a[1..] && b == [b[0]] + b[1..];
    }
  }

  lemma UnitDecides(c: nat, d: nat, x: seq<nat>, y: seq<nat>)
    requires Scalar(c) && Scalar(d) && Utf16Char(c) + x == Utf16Char(d) + y
    ensures c == d
  {
    var l, r := Utf16Char(c) + x, Utf16Char(d) + y;
    assert l[0] == Utf16Char(c)[0] && r[0] == Utf16Char(d)[0];
    if c >= 0x10000 && d >= 0x10000 {
      assert l[1] == Utf16Char(c)[1] && r[1] == Utf16Char(d)[1];
    }
  }
}
