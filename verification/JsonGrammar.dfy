/**
 The value trees of mybot_json.c and the specification of its parser: for a text t
 and a position p in it, the value that starts there and the position after it.
 */
module JsonGrammar {
  import opened CText

  datatype Value =
    | Null
    | False
    | True
    | Number(n: int)
      // A number written with a fraction or an exponent: mantissa * 10^exponent.
    | Fraction(mantissa: int, exponent: int)
    | String(text: Str)
    | Array(items: seq<Value>)
    | Object(members: seq<Member>)

  datatype Member = Member(name: Str, value: Value)

  datatype Parsed<T> = Fail | Ok(value: T, end: nat)

  const QUOTE: Byte := 34
  const BACKSLASH: Byte := 92
  const MAX_NESTING: nat := 32

  const NULL_TEXT: Str := Bytes("null")
  const FALSE_TEXT: Str := Bytes("false")
  const TRUE_TEXT: Str := Bytes("true")

  const ULLONG_MAX: int := 0xFFFF_FFFF_FFFF_FFFF
  const LLONG_MAX: int := 0x7FFF_FFFF_FFFF_FFFF
  const LLONG_MIN: int := -0x8000_0000_0000_0000
  const INT_MAX: int := 0x7FFF_FFFF

  // ---------------------------------------------------------------- whitespace

  predicate IsSpace(b: Byte) {
    b == ' ' as int || b == '\t' as int || b == '\n' as int || b == '\r' as int
  }

  function Skip(t: Text, p: nat): (r: nat)
    requires p < |t|
    ensures p <= r < |t| && !IsSpace(t[r])
    decreases |t| - p
  {
    if IsSpace(t[p]) then Skip(t, p + 1) else p
  }

  // ------------------------------------------------------------------- strings

  /** The UTF-8 encoding of a code point, RFC 3629 section 3. */
  function Utf8(cp: nat): (r: Str)
    requires cp < 0x110000
    ensures 1 <= |r| <= 4
    ensures cp < 0x10000 ==> |r| <= 3
    ensures cp != 0 ==> NulFree(r)
  {
    if cp < 0x80 then [cp]
    else if cp < 0x800 then [0xC0 + cp / 64, 0x80 + cp % 64]
    else if cp < 0x10000 then [0xE0 + cp / 64 / 64, 0x80 + cp / 64 % 64, 0x80 + cp % 64]
    else [0xF0 + cp / 64 / 64 / 64, 0x80 + cp / 64 / 64 % 64, 0x80 + cp / 64 % 64, 0x80 + cp % 64]
  }

  predicate IsHex4(t: Text, p: nat) {
    p + 4 < |t| && IsHex(t[p]) && IsHex(t[p + 1]) && IsHex(t[p + 2]) && IsHex(t[p + 3])
  }

  function Hex4(t: Text, p: nat): (r: nat)
    requires IsHex4(t, p)
    ensures r < 0x10000
  {
    ((HexVal(t[p]) * 16 + HexVal(t[p + 1])) * 16 + HexVal(t[p + 2])) * 16 + HexVal(t[p + 3])
  }

  predicate IsHighSurrogate(u: nat) { 0xD800 <= u <= 0xDBFF }
  predicate IsLowSurrogate(u: nat) { 0xDC00 <= u <= 0xDFFF }

  /** The code point a UTF-16 surrogate pair stands for. */
  function Supplementary(high: nat, low: nat): (r: nat)
    requires IsHighSurrogate(high) && IsLowSurrogate(low)
    ensures 0x10000 <= r < 0x110000
  {
    0x10000 + (high - 0xD800) * 0x400 + (low - 0xDC00)
  }

  /** A \u escape, read from just after the 'u'. */
  function PUnicode(t: Text, p: nat): (r: Parsed<Str>)
    requires p < |t|
    ensures r.Ok? ==> p + 4 <= r.end < |t| && NulFree(r.value) && |r.value| + 1 <= r.end - p
  {
    if !IsHex4(t, p) || Hex4(t, p) == 0 || IsLowSurrogate(Hex4(t, p)) then Fail
    else if IsHighSurrogate(Hex4(t, p)) then
      if t[p + 4] == BACKSLASH && t[p + 5] == 'u' as int &&
         IsHex4(t, p + 6) && IsLowSurrogate(Hex4(t, p + 6))
      then Ok(Utf8(Supplementary(Hex4(t, p), Hex4(t, p + 6))), p + 10)
      else Fail
    else Ok(Utf8(Hex4(t, p)), p + 4)
  }

  /** The byte a one-letter escape stands for. */
  function Unescape(letter: Byte): Byte {
    if letter == 'b' as int then 8
    else if letter == 'f' as int then 12
    else if letter == 'n' as int then 10
    else if letter == 'r' as int then 13
    else if letter == 't' as int then 9
    else letter
  }

  predicate IsSimpleEscape(letter: Byte) {
    letter == QUOTE || letter == BACKSLASH || letter == '/' as int || letter == 'b' as int ||
    letter == 'f' as int || letter == 'n' as int || letter == 'r' as int || letter == 't' as int
  }

  /** An escape sequence, read from just after the backslash. */
  function PEscape(t: Text, p: nat): (r: Parsed<Str>)
    requires p < |t|
    ensures r.Ok? ==> p < r.end < |t| && NulFree(r.value)
  {
    if IsSimpleEscape(t[p]) then Ok([Unescape(t[p])], p + 1)
    else if t[p] == 'u' as int then PUnicode(t, p + 1)
    else Fail
  }

  function Prepend<T>(head: seq<T>, tail: Parsed<seq<T>>): Parsed<seq<T>> {
    match tail
    case Fail => Fail
    case Ok(value, end) => Ok(head + value, end)
  }

  lemma PrependNothing<T>(tail: Parsed<seq<T>>)
    ensures Prepend([], tail) == tail
  {
    if tail.Ok? { assert [] + tail.value == tail.value; }
  }

  lemma PrependTwice<T>(a: seq<T>, b: seq<T>, tail: Parsed<seq<T>>)
    ensures Prepend(a, Prepend(b, tail)) == Prepend(a + b, tail)
  {
    if tail.Ok? { assert a + (b + tail.value) == a + b + tail.value; }
  }

  /** The characters of a string literal, read from just after its opening quote. */
  function PChars(t: Text, p: nat): (r: Parsed<Str>)
    requires p < |t|
    ensures r.Ok? ==> p < r.end < |t| && NulFree(r.value)
    decreases |t| - p
  {
    if t[p] == QUOTE then Ok([], p + 1)
    else if t[p] < 0x20 then Fail
    else if t[p] != BACKSLASH then Prepend([t[p]], PChars(t, p + 1))
    else
      match PEscape(t, p + 1)
      case Fail => Fail
      case Ok(bytes, end) => Prepend(bytes, PChars(t, end))
  }

  function PString(t: Text, p: nat): (r: Parsed<Str>)
    requires p < |t|
    ensures r.Ok? ==> p < r.end < |t| && NulFree(r.value)
  {
    if t[p] == QUOTE then PChars(t, p + 1) else Fail
  }

  // ------------------------------------------------------------------- numbers

  function Digit(b: Byte): nat
    requires IsDigit(b)
  {
    b - '0' as int
  }

  /** Continue an integer n with the digits at p; exceeding the limit fails. */
  function PDigits(t: Text, p: nat, n: nat, limit: int): (r: Parsed<nat>)
    requires p < |t|
    ensures r.Ok? ==> p <= r.end < |t| && !IsDigit(t[r.end])
    ensures r.Ok? && IsDigit(t[p]) ==> p < r.end
    ensures r.Ok? && n <= limit ==> r.value <= limit
    decreases |t| - p
  {
    if !IsDigit(t[p]) then Ok(n, p)
    else if n * 10 + Digit(t[p]) > limit then Fail
    else PDigits(t, p + 1, n * 10 + Digit(t[p]), limit)
  }

  /** The integer part: "0", or a non-zero digit and more digits. */
  function PInteger(t: Text, p: nat): (r: Parsed<nat>)
    requires p < |t|
    ensures r.Ok? ==> p < r.end < |t| && r.value <= ULLONG_MAX
  {
    if t[p] == '0' as int then Ok(0, p + 1)
    else if IsDigit(t[p]) then PDigits(t, p, 0, ULLONG_MAX)
    else Fail
  }

  /** Fraction digits appended to mantissa m, with the decimal scale so far. */
  function PFraction(t: Text, p: nat, m: nat, scale: int): (r: Parsed<(nat, int)>)
    requires p < |t|
    ensures r.Ok? ==> p <= r.end < |t| && !IsDigit(t[r.end])
    decreases |t| - p
  {
    if !IsDigit(t[p]) then Ok((m, scale), p)
    else if scale == LLONG_MIN then Fail
    else PFraction(t, p + 1, m * 10 + Digit(t[p]), scale - 1)
  }

  /** An exponent, read from just after the 'e'. */
  function PExponent(t: Text, p: nat): (r: Parsed<int>)
    requires p < |t|
    ensures r.Ok? ==> p < r.end < |t|
  {
    var q := if t[p] == '+' as int || t[p] == '-' as int then p + 1 else p;
    if !IsDigit(t[q]) then Fail
    else
      match PDigits(t, q, 0, INT_MAX)
      case Fail => Fail
      case Ok(e, end) => Ok(Signed(t[p] == '-' as int, e), end)
  }

  /** -2^63 <= m * 10^e < 2^63, in exact arithmetic. */
  predicate InRange(m: int, e: int) {
    if e >= 0 then LLONG_MIN <= m * Pow10(e) <= LLONG_MAX
    else LLONG_MIN * Pow10(-e) <= m < (LLONG_MAX + 1) * Pow10(-e)
  }

  function Signed(negative: bool, n: nat): int { if negative then 0 - n else n }

  predicate IsExponentMark(b: Byte) { b == 'e' as int || b == 'E' as int }

  /** The value of a number whose mantissa and scale are known, at its exponent if it has one. */
  function PScaled(t: Text, p: nat, negative: bool, m: nat, scale: int): (r: Parsed<Value>)
    requires p < |t|
    ensures r.Ok? ==> p <= r.end < |t| && r.value.Fraction?
  {
    match if IsExponentMark(t[p]) then PExponent(t, p + 1) else Ok(0, p)
    case Fail => Fail
    case Ok(e, end) =>
      if InRange(Signed(negative, m), scale + e) then Ok(Fraction(Signed(negative, m), scale + e), end)
      else Fail
  }

  /** What follows the integer part n of a number. */
  function PTail(t: Text, q: nat, negative: bool, n: nat): (r: Parsed<Value>)
    requires q < |t|
    ensures r.Ok? ==> q <= r.end < |t|
    ensures r.Ok? ==> r.value.Fraction? || (r.value.Number? && LLONG_MIN <= r.value.n <= LLONG_MAX)
  {
    if t[q] == '.' as int then
      if !IsDigit(t[q + 1]) then Fail
      else
        match PFraction(t, q + 1, n, 0)
        case Fail => Fail
        case Ok((m, scale), end) => PScaled(t, end, negative, m, scale)
    else if IsExponentMark(t[q]) then PScaled(t, q, negative, n, 0)
    else if LLONG_MIN <= Signed(negative, n) <= LLONG_MAX then Ok(Number(Signed(negative, n)), q)
    else Fail
  }

  function PNumber(t: Text, p: nat): (r: Parsed<Value>)
    requires p < |t|
    ensures r.Ok? ==> p < r.end < |t|
    ensures r.Ok? ==> r.value.Fraction? || (r.value.Number? && LLONG_MIN <= r.value.n <= LLONG_MAX)
  {
    var negative := t[p] == '-' as int;
    match PInteger(t, if negative then p + 1 else p)
    case Fail => Fail
    case Ok(n, q) => PTail(t, q, negative, n)
  }

  // -------------------------------------------------------------------- values

  predicate LooksAt(t: Text, p: nat, word: Str) {
    p + |word| < |t| && Reads(t, p, word)
  }

  function PValue(t: Text, p: nat, depth: nat): (r: Parsed<Value>)
    requires p < |t|
    ensures r.Ok? ==> p < r.end < |t|
    decreases |t| - p - 1, 5
  {
    if LooksAt(t, p, NULL_TEXT) then Ok(Null, p + 4)
    else if LooksAt(t, p, FALSE_TEXT) then Ok(False, p + 5)
    else if LooksAt(t, p, TRUE_TEXT) then Ok(True, p + 4)
    else PMarked(t, p, depth)
  }

  /** A value told apart by its first byte. */
  function PMarked(t: Text, p: nat, depth: nat): (r: Parsed<Value>)
    requires p < |t|
    ensures r.Ok? ==> p < r.end < |t|
    decreases |t| - p - 1, 4
  {
    if t[p] == QUOTE then
      match PString(t, p)
      case Fail => Fail
      case Ok(text, end) => Ok(String(text), end)
    else if t[p] == '-' as int || IsDigit(t[p]) then PNumber(t, p)
    else if t[p] == '[' as int then PArray(t, p, depth)
    else if t[p] == '{' as int then PObject(t, p, depth)
    else Fail
  }

  function PArray(t: Text, p: nat, depth: nat): (r: Parsed<Value>)
    requires p < |t| && t[p] == '[' as int
    ensures r.Ok? ==> p < r.end < |t|
    decreases |t| - p - 1, 3
  {
    if depth >= MAX_NESTING then Fail
    else if t[Skip(t, p + 1)] == ']' as int then Ok(Array([]), Skip(t, p + 1) + 1)
    else
      match PItems(t, p + 1, depth)
      case Fail => Fail
      case Ok(items, end) => Ok(Array(items), end)
  }

  function PObject(t: Text, p: nat, depth: nat): (r: Parsed<Value>)
    requires p < |t| && t[p] == '{' as int
    ensures r.Ok? ==> p < r.end < |t|
    decreases |t| - p - 1, 3
  {
    if depth >= MAX_NESTING then Fail
    else if t[Skip(t, p + 1)] == '}' as int then Ok(Object([]), Skip(t, p + 1) + 1)
    else
      match PMembers(t, p + 1, depth)
      case Fail => Fail
      case Ok(members, end) => Ok(Object(members), end)
  }

  /** The items of a non-empty array up to and including its closing bracket. */
  function PItems(t: Text, p: nat, depth: nat): (r: Parsed<seq<Value>>)
    requires p < |t|
    ensures r.Ok? ==> p < r.end < |t|
    decreases |t| - p - 1, 6
  {
    match PValue(t, Skip(t, p), depth + 1)
    case Fail => Fail
    case Ok(item, end) =>
      var q := Skip(t, end);
      if t[q] == ',' as int then Prepend([item], PItems(t, q + 1, depth))
      else if t[q] == ']' as int then Ok([item], q + 1)
      else Fail
  }

  /** One name, colon and value of an object. */
  function PMember(t: Text, p: nat, depth: nat): (r: Parsed<Member>)
    requires p < |t|
    ensures r.Ok? ==> p < r.end < |t|
    decreases |t| - p - 1, 6
  {
    match PString(t, Skip(t, p))
    case Fail => Fail
    case Ok(name, end) =>
      var q := Skip(t, end);
      if t[q] != ':' as int then Fail
      else
        match PValue(t, Skip(t, q + 1), depth + 1)
        case Fail => Fail
        case Ok(value, end) => Ok(Member(name, value), end)
  }

  /** The members of a non-empty object up to and including its closing brace. */
  function PMembers(t: Text, p: nat, depth: nat): (r: Parsed<seq<Member>>)
    requires p < |t|
    ensures r.Ok? ==> p < r.end < |t|
    decreases |t| - p - 1, 7
  {
    match PMember(t, p, depth)
    case Fail => Fail
    case Ok(member, end) =>
      var q := Skip(t, end);
      if t[q] == ',' as int then Prepend([member], PMembers(t, q + 1, depth))
      else if t[q] == '}' as int then Ok([member], q + 1)
      else Fail
  }

  /** mybot_json_parse: one value and nothing but whitespace after it. */
  function Parse(t: Text): Option<Value> {
    match PValue(t, Skip(t, 0), 0)
    case Fail => None
    case Ok(v, end) => if t[Skip(t, end)] == 0 then Some(v) else None
  }
}
