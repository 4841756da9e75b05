/**
 Canonical JSON (rlvr/v3/canonical.py): the integer-only subset of RFC 8785 that task
 identities are hashed over. Text is a sequence of code points, bytes are UTF-8. The Unicode
 NFC test is a parameter.
 */
module Canonical {
  import opened Seqs
  import opened Sorting
  import opened Unicode

  /** A Python value. A dictionary is its list of items in insertion order; everything the
      protocol does not support (floats, other types, keys that are not strings) is `Other`. */
  datatype Json =
    | Null
    | Bool(b: bool)
    | Str(s: Text)
    | Int(i: int)
    | Arr(items: seq<Json>)
    | Obj(members: seq<(Text, Json)>)
    | Other

  const SAFE_INTEGER_MAX: int := 9007199254740991
  const MAX_NESTING_DEPTH: nat := 64

  const QUOTE: nat := 34
  const BACKSLASH: nat := 92
  const COMMA: nat := 44
  const COLON: nat := 58
  const LBRACKET: nat := 91
  const RBRACKET: nat := 93
  const LBRACE: nat := 123
  const RBRACE: nat := 125
  const MINUS: nat := 45
  const ZERO: nat := 48
  const LOWER_U: nat := 117

  const NULL_TEXT: Text := [110, 117, 108, 108]
  const TRUE_TEXT: Text := [116, 114, 117, 101]
  const FALSE_TEXT: Text := [102, 97, 108, 115, 101]

  // ---- Validation ---------------------------------------------------------------------------

  predicate ValidText(t: Text, nfc: Text -> bool) {
    nfc(t) && Scalars(t)
  }

  predicate SafeInteger(i: int) {
    -SAFE_INTEGER_MAX <= i <= SAFE_INTEGER_MAX
  }

  /** `_validate_json_value` accepts. */
  predicate Valid(v: Json, depth: nat, nfc: Text -> bool) {
    match v
    case Null => true
    case Bool(_) => true
    case Str(s) => ValidText(s, nfc)
    case Int(i) => SafeInteger(i)
    case Arr(items) =>
      depth < MAX_NESTING_DEPTH && forall i :: 0 <= i < |items| ==> Valid(items[i], depth + 1, nfc)
    case Obj(members) =>
      depth < MAX_NESTING_DEPTH
      && forall i :: 0 <= i < |members| ==> ValidText(members[i].0, nfc) && Valid(members[i].1, depth + 1, nfc)
    case Other => false
  }

  function Keys<T>(members: seq<(Text, T)>): (r: seq<Text>)
    ensures |r| == |members|
  {
    seq(|members|, i requires 0 <= i < |members| => members[i].0)
  }

  /** Dictionaries have no key twice: what being a dictionary means for the list of items. */
  ghost predicate Keyed(v: Json) {
    match v
    case Arr(items) => forall i :: 0 <= i < |items| ==> Keyed(items[i])
    case Obj(members) => NoDup(Keys(members)) && forall i :: 0 <= i < |members| ==> Keyed(members[i].1)
    case _ => true
  }

  // ---- Printing --------------------------------------------------------------------------------

  /** `str(n)` of a natural number. */
  function Digits(n: nat): (r: Text)
    ensures r != []
  {
    if n < 10 then [ZERO + n] else Digits(n / 10) + [ZERO + n % 10]
  }

  function Decimal(i: int): Text {
    if i < 0 then [MINUS] + Digits(-i) else Digits(i)
  }

  function HexDigit(d: nat): nat {
    if d < 10 then ZERO + d else 87 + d
  }

  /** One character inside quotes, as `json.dumps(..., ensure_ascii=False)` writes it. */
  function Escape(c: nat): Text {
    if c == QUOTE || c == BACKSLASH then [BACKSLASH, c]
    else if c == 8 then [BACKSLASH, 98]
    else if c == 12 then [BACKSLASH, 102]
    else if c == 10 then [BACKSLASH, 110]
    else if c == 13 then [BACKSLASH, 114]
    else if c == 9 then [BACKSLASH, 116]
    else if c < 32 then [BACKSLASH, LOWER_U, ZERO, ZERO, HexDigit(c / 16), HexDigit(c % 16)]
    else [c]
  }

  function Escaped(s: Text): Text {
    if s == [] then [] else Escape(s[0]) + Escaped(s[1..])
  }

  function Quoted(s: Text): Text {
    [QUOTE] + Escaped(s) + [QUOTE]
  }

  /** `",".join(parts)`. */
  function Join(parts: seq<Text>): Text {
    if parts == [] then []
    else if |parts| == 1 then parts[0]
    else parts[0] + [COMMA] + Join(parts[1..])
  }

  /** The order of keys: `sorted(value, key=lambda key: key.encode("utf-16-be"))`. */
  predicate KeyLeq<T>(a: (Text, T), b: (Text, T)) {
    LexLeq(Utf16Be(a.0), Utf16Be(b.0))
  }

  function MemberText(m: (Text, Text)): Text {
    Quoted(m.0) + [COLON] + m.1
  }

  function MemberTexts(members: seq<(Text, Text)>): (r: seq<Text>)
    ensures |r| == |members|
  {
    seq(|members|, i requires 0 <= i < |members| => MemberText(members[i]))
  }

  /** The text `_serialize` builds when it does not raise. */
  function Print(v: Json): Text {
    match v
    case Null => NULL_TEXT
    case Bool(b) => if b then TRUE_TEXT else FALSE_TEXT
    case Str(s) => Quoted(s)
    case Int(i) => Decimal(i)
    case Arr(items) => [LBRACKET] + Join(seq(|items|, i requires 0 <= i < |items| => Print(items[i]))) + [RBRACKET]
    case Obj(members) =>
      var printed := seq(|members|, i requires 0 <= i < |members| => (members[i].0, Print(members[i].1)));
      [LBRACE] + Join(MemberTexts(Sort(printed, KeyLeq<Text>))) + [RBRACE]
    case Other => []
  }

  /** `_serialize` raises: an unsupported value, or too deep. */
  predicate Raises(v: Json, depth: nat) {
    match v
    case Arr(items) => depth >= MAX_NESTING_DEPTH || exists i :: 0 <= i < |items| && Raises(items[i], depth + 1)
    case Obj(members) => depth >= MAX_NESTING_DEPTH || exists i :: 0 <= i < |members| && Raises(members[i].1, depth + 1)
    case Other => true
    case _ => false
  }

  function CanonicalJsonBytes(v: Json, nfc: Text -> bool): Option<Bytes> {
    if !Valid(v, 0, nfc) then None
    else if Raises(v, 0) || !Scalars(Print(v)) then None
    else Some(EncodeUtf8(Print(v)))
  }

  // ---- Parsing ----------------------------------------------------------------------------------

  function SkipSpace(t: Text): (r: Text)
    ensures |r| <= |t|
  {
    if t != [] && t[0] in {32, 9, 10, 13} then SkipSpace(t[1..]) else t
  }

  predicate IsDigit(c: nat) {
    ZERO <= c <= 57
  }

  function HexValue(c: nat): Option<nat> {
    if IsDigit(c) then Some(c - ZERO)
    else if 97 <= c <= 102 then Some(c - 87)
    else if 65 <= c <= 70 then Some(c - 55)
    else None
  }

  /** Four hexadecimal digits. */
  function ReadHex(t: Text): (r: Option<nat>)
    ensures r.Some? ==> |t| >= 4
  {
    if |t| < 4 then None
    else
      var (a, b, c, d) := (HexValue(t[0]), HexValue(t[1]), HexValue(t[2]), HexValue(t[3]));
      if a.None? || b.None? || c.None? || d.None? then None
      else Some(((a.value * 16 + b.value) * 16 + c.value) * 16 + d.value)
  }

  /** What follows a backslash; a surrogate pair is joined. */
  function ReadEscape(t: Text): (r: Option<(nat, Text)>)
    ensures r.Some? ==> |r.value.1| < |t|
  {
    if t == [] then None
    else if t[0] in {QUOTE, BACKSLASH, 47} then Some((t[0], t[1..]))
    else if t[0] == 98 then Some((8, t[1..]))
    else if t[0] == 102 then Some((12, t[1..]))
    else if t[0] == 110 then Some((10, t[1..]))
    else if t[0] == 114 then Some((13, t[1..]))
    else if t[0] == 116 then Some((9, t[1..]))
    else if t[0] == LOWER_U && ReadHex(t[1..]).Some? then
      var unit, rest := ReadHex(t[1..]).value, t[5..];
      if 0xD800 <= unit <= 0xDBFF && |rest| >= 2 && rest[0] == BACKSLASH && rest[1] == LOWER_U then
        var low := ReadHex(rest[2..]);
        if low.None? then None
        else if 0xDC00 <= low.value <= 0xDFFF then
          Some((0x10000 + (unit - 0xD800) * 1024 + (low.value - 0xDC00), rest[6..]))
        else Some((unit, rest))
      else Some((unit, rest))
    else None
  }

  /** The rest of a string after its opening quote. */
  function ParseString(t: Text): (r: Option<(Text, Text)>)
    ensures r.Some? ==> |r.value.1| < |t|
    decreases |t|
  {
    if t == [] || (t[0] < 32) then None
    else if t[0] == QUOTE then Some(([], t[1..]))
    else
      var one := if t[0] == BACKSLASH then ReadEscape(t[1..]) else Some((t[0], t[1..]));
      if one.None? then None
      else
        var more := ParseString(one.value.1);
        if more.None? then None else Some(([one.value.0] + more.value.0, more.value.1))
  }

  function TakeDigits(t: Text, acc: nat): (r: (nat, Text))
    ensures |r.1| <= |t|
  {
    if t != [] && IsDigit(t[0]) then TakeDigits(t[1..], acc * 10 + (t[0] - ZERO)) else (acc, t)
  }

  /** An integer in range. A fraction or an exponent is refused, and so is anything that
      merely begins like one. */
  function ParseNumber(t: Text): (r: Option<(Json, Text)>)
    requires t != []
    ensures r.Some? ==> |r.value.1| < |t|
  {
    var digits := if t[0] == MINUS then t[1..] else t;
    if digits == [] || !IsDigit(digits[0]) then None
    else
      var (n, rest) := if digits[0] == ZERO then (0, digits[1..]) else TakeDigits(digits[1..], digits[0] - ZERO);
      if rest != [] && rest[0] in {46, 69, 101} then None
      else if n > SAFE_INTEGER_MAX then None
      else Some((Int(if t[0] == MINUS then -n else n), rest))
  }

  predicate StartsWith(t: Text, word: Text) {
    |word| <= |t| && t[..|word|] == word
  }

  function ParseValue(t: Text): (r: Option<(Json, Text)>)
    ensures r.Some? ==> |r.value.1| < |t|
    decreases |t|, 0
  {
    if t == [] then None
    else if t[0] == QUOTE then
      var s := ParseString(t[1..]);
      if s.None? then None else Some((Str(s.value.0), s.value.1))
    else if t[0] == LBRACKET then
      var u := SkipSpace(t[1..]);
      if u != [] && u[0] == RBRACKET then Some((Arr([]), u[1..]))
      else
        var items := ParseItems(u);
        if items.None? then None else Some((Arr(items.value.0), items.value.1))
    else if t[0] == LBRACE then
      var u := SkipSpace(t[1..]);
      if u != [] && u[0] == RBRACE then Some((Obj([]), u[1..]))
      else
        var members := ParseMembers(u);
        if members.None? || !UniqueKeys(members.value.0) then None else Some((Obj(members.value.0), members.value.1))
    else if StartsWith(t, NULL_TEXT) then Some((Null, t[4..]))
    else if StartsWith(t, TRUE_TEXT) then Some((Bool(true), t[4..]))
    else if StartsWith(t, FALSE_TEXT) then Some((Bool(false), t[5..]))
    else ParseNumber(t)
  }

  /** One or more items and the closing bracket. */
  function ParseItems(t: Text): (r: Option<(seq<Json>, Text)>)
    ensures r.Some? ==> |r.value.1| < |t|
    decreases |t|, 1
  {
    var first := ParseValue(t);
    if first.None? then None
    else
      var u := SkipSpace(first.value.1);
      if u == [] then None
      else if u[0] == RBRACKET then Some(([first.value.0], u[1..]))
      else if u[0] != COMMA then None
      else
        var more := ParseItems(SkipSpace(u[1..]));
        if more.None? then None else Some(([first.value.0] + more.value.0, more.value.1))
  }

  /** One or more members and the closing brace. */
  function ParseMembers(t: Text): (r: Option<(seq<(Text, Json)>, Text)>)
    ensures r.Some? ==> |r.value.1| < |t|
    decreases |t|, 1
  {
    if t == [] || t[0] != QUOTE then None
    else
      var key := ParseString(t[1..]);
      if key.None? then None
      else
        var c := SkipSpace(key.value.1);
        if c == [] || c[0] != COLON then None
        else
          var value := ParseValue(SkipSpace(c[1..]));
          if value.None? then None
          else
            var u := SkipSpace(value.value.1);
            if u == [] then None
            else if u[0] == RBRACE then Some(([(key.value.0, value.value.0)], u[1..]))
            else if u[0] != COMMA then None
            else
              var more := ParseMembers(SkipSpace(u[1..]));
              if more.None? then None
              else Some(([(key.value.0, value.value.0)] + more.value.0, more.value.1))
  }

  predicate UniqueKeys<T>(pairs: seq<(Text, T)>) {
    |ToSet(Keys(pairs))| == |pairs|
  }

  /** The dictionary a list of items stands for. */
  function AsMap<T>(pairs: seq<(Text, T)>): map<Text, T> {
    if pairs == [] then map[]
    else
      var n := |pairs| - 1;
      AsMap(pairs[..n])[pairs[n].0 := pairs[n].1]
  }

  lemma {:induction false} AsMapKeys<T>(pairs: seq<(Text, T)>)
    ensures AsMap(pairs).Keys == ToSet(Keys(pairs))
  {
    if pairs != [] {
      var n := |pairs| - 1;
      AsMapKeys(pairs[..n]);
      assert Keys(pairs) == Keys(pairs[..n]) + [pairs[n].0];
    }
  }

  ghost predicate NoRepeat(pairs: seq<(Text, Json)>, n: nat) {
    n <= |pairs| && NoDup(Keys(pairs[..n]))
  }

  lemma OneMorePair(pairs: seq<(Text, Json)>, i: nat)
    requires i < |pairs| && NoRepeat(pairs, i)
    ensures AsMap(pairs[..i + 1]) == AsMap(pairs[..i])[pairs[i].0 := pairs[i].1]
    ensures if pairs[i].0 in AsMap(pairs[..i]) then !NoDup(Keys(pairs)) else NoRepeat(pairs, i + 1)
  {
    var some, more := pairs[..i], pairs[..i + 1];
    assert more[..i] == some;
    AsMapKeys(some);
    hide AsMap;
    assert Keys(more) == Keys(some) + [pairs[i].0];
    AddLast(Keys(some), pairs[i].0);
    if pairs[i].0 in AsMap(some) {
      var k :| 0 <= k < i && Keys(some)[k] == pairs[i].0;
      assert Keys(pairs)[k] == Keys(pairs)[i];
    }
  }

  /** `_object_from_pairs`: fill a dictionary, refusing a key that is already in it. */
  method ObjectFromPairs(pairs: seq<(Text, Json)>) returns (r: Option<map<Text, Json>>)
    ensures r == if UniqueKeys(pairs) then Some(AsMap(pairs)) else None
  {
    var result: map<Text, Json> := map[];
    CardIffNoDup(Keys(pairs));
    for i := 0 to |pairs|
      invariant result == AsMap(pairs[..i]) && NoRepeat(pairs, i)
    {
      OneMorePair(pairs, i);
      hide AsMap, NoDup, NoRepeat, Keys;
      if pairs[i].0 in result {
        return None;
      }
      result := result[pairs[i].0 := pairs[i].1];
    }
    assert pairs[..|pairs|] == pairs;
    return Some(result);
  }

  function ParseStrictJson(raw: Bytes, nfc: Text -> bool): Option<Json> {
    var text := DecodeUtf8(raw);
    if text.None? || (text.value != [] && text.value[0] == 0xFEFF) then None
    else
      var parsed := ParseValue(SkipSpace(text.value));
      if parsed.None? || SkipSpace(parsed.value.1) != [] then None
      else if Valid(parsed.value.0, 0, nfc) then Some(parsed.value.0)
      else None
  }
}
