/**
 The strings and numbers of JSON as texts may spell them (RFC 8259 sections 6 and 7), defined apart
 from the parser, and the proof that the parser reads exactly these spellings.
 */
module JsonLiterals {
  import opened CText
  import opened JsonGrammar
  import opened JsonRoundTrip
  import opened JsonUnicode

  // -------------------------------------------------------------------- strings

  /** The letters of the short escapes and the bytes they stand for. */
  const LETTERS: Str := Bytes("\"\\/bfnrt")
  const MEANT: Str := [34, 92, 47, 8, 12, 10, 13, 9]

  /** A piece of a string: a byte as it is, a short escape, or an escape of UTF-16 code units. */
  datatype Piece = Plain(b: Byte) | Short(letter: nat) | Units(high: Nibbles, low: Nibbles, codePoint: nat)

  predicate IsPiece(piece: Piece) {
    match piece
    case Plain(b) => b >= 32 && b != QUOTE && b != BACKSLASH
    case Short(letter) => letter < 8
    case Units(high, low, cp) =>
      cp != 0 && !IsHighSurrogate(cp) && !IsLowSurrogate(cp) && Encodes(high, low, cp)
  }

  predicate ArePieces(pieces: seq<Piece>) { forall i :: 0 <= i < |pieces| ==> IsPiece(pieces[i]) }

  function PieceText(piece: Piece): (r: Str)
    requires IsPiece(piece)
    ensures |r| > 0
  {
    match piece
    case Plain(b) => [b]
    case Short(letter) => [BACKSLASH, LETTERS[letter]]
    case Units(high, low, cp) => [BACKSLASH] + EscapeText(high, low)
  }

  function PieceBytes(piece: Piece): Str
    requires IsPiece(piece)
  {
    match piece
    case Plain(b) => [b]
    case Short(letter) => [MEANT[letter]]
    case Units(high, low, cp) => Utf8(cp)
  }

  function PiecesText(pieces: seq<Piece>): Str
    requires ArePieces(pieces)
  {
    if pieces == [] then [] else PieceText(pieces[0]) + PiecesText(pieces[1..])
  }

  function PiecesBytes(pieces: seq<Piece>): Str
    requires ArePieces(pieces)
  {
    if pieces == [] then [] else PieceBytes(pieces[0]) + PiecesBytes(pieces[1..])
  }

  function StringText(pieces: seq<Piece>): (r: Str)
    requires ArePieces(pieces)
    ensures |r| > 0 && r[0] == QUOTE
  {
    [QUOTE] + (PiecesText(pieces) + [QUOTE])
  }

  lemma LettersMean(k: nat)
    requires k < 8
    ensures IsSimpleEscape(LETTERS[k]) && Unescape(LETTERS[k]) == MEANT[k]
  {
    assert LETTERS[k] == "\"\\/bfnrt"[k] as int;
  }

  lemma LetterOf(b: Byte) returns (k: nat)
    requires IsSimpleEscape(b)
    ensures k < 8 && LETTERS[k] == b
  {
    k := if b == 34 then 0 else if b == 92 then 1 else if b == '/' as int then 2 else if b == 'b' as int then 3
         else if b == 'f' as int then 4 else if b == 'n' as int then 5 else if b == 'r' as int then 6 else 7;
    assert LETTERS[k] == "\"\\/bfnrt"[k] as int;
  }

  lemma PieceParses(t: Text, p: nat, piece: Piece)
    requires IsPiece(piece) && LooksAt(t, p, PieceText(piece))
    ensures piece.Plain? ==> t[p] == piece.b
    ensures !piece.Plain? ==>
      t[p] == BACKSLASH && PEscape(t, p + 1) == Ok(PieceBytes(piece), p + |PieceText(piece)|)
  {
    hide PUnicode, LooksAt, EscapeText, Encodes, Unescape, IsSimpleEscape;
    Head(t, p, PieceText(piece));
    match piece {
      case Plain(_) =>
      case Short(letter) =>
        Within(t, p, PieceText(piece));
        ReadsEach(t, p, PieceText(piece), 1);
        LettersMean(letter);
      case Units(high, low, cp) =>
        Split(t, p, [BACKSLASH], EscapeText(high, low));
        EscapedCodePointParses(t, p + 1, cp, high, low);
    }
  }

  lemma Within(t: Text, p: nat, word: Str)
    requires LooksAt(t, p, word)
    ensures p + |word| < |t| && Reads(t, p, word)
  {
  }

  lemma {:induction false} PiecesParse(t: Text, p: nat, pieces: seq<Piece>)
    requires ArePieces(pieces) && LooksAt(t, p, PiecesText(pieces) + [QUOTE])
    ensures PChars(t, p) == Ok(PiecesBytes(pieces), p + |PiecesText(pieces)| + 1)
    decreases |pieces|
  {
    hide PEscape, LooksAt, PieceText, PieceBytes;
    Split(t, p, PiecesText(pieces), [QUOTE]);
    Head(t, p + |PiecesText(pieces)|, [QUOTE]);
    if pieces != [] {
      var first, others := PieceText(pieces[0]), PiecesText(pieces[1..]);
      assert PiecesText(pieces) + [QUOTE] == first + (others + [QUOTE]);
      Split(t, p, first, others + [QUOTE]);
      PieceParses(t, p, pieces[0]);
      PlainPiece(pieces[0]);
      PiecesParse(t, p + |first|, pieces[1..]);
    }
  }

  lemma PlainPiece(piece: Piece)
    requires IsPiece(piece)
    ensures piece.Plain? ==> PieceText(piece) == PieceBytes(piece) == [piece.b]
  {
  }

  /** Every spelling of a string is read as the string it spells. */
  lemma SpeltStringParses(t: Text, p: nat, pieces: seq<Piece>)
    requires ArePieces(pieces) && LooksAt(t, p, StringText(pieces))
    ensures t[p] == QUOTE && PString(t, p) == Ok(PiecesBytes(pieces), p + |StringText(pieces)|)
  {
    Split(t, p, [QUOTE], PiecesText(pieces) + [QUOTE]);
    Head(t, p, [QUOTE]);
    PiecesParse(t, p + 1, pieces);
  }

  // the other way: what is read was spelt

  lemma HexSpells(t: Text, p: nat) returns (ns: Nibbles)
    requires IsHex4(t, p)
    ensures |ns| == 4 && t[p..p + 4] == HexSpelt(ns) && Base16(ns) == Hex4(t, p)
  {
    var a := NibbleOf(t[p]);
    var b := NibbleOf(t[p + 1]);
    var c := NibbleOf(t[p + 2]);
    var d := NibbleOf(t[p + 3]);
    ns := [a, b, c, d];
    Base16Four(ns);
  }

  lemma UnicodeSpelt(t: Text, p: nat) returns (piece: Piece)
    requires p < |t| && PUnicode(t, p).Ok?
    ensures piece.Units? && IsPiece(piece) && PieceBytes(piece) == PUnicode(t, p).value
    ensures ['u' as int] + t[p..PUnicode(t, p).end] == EscapeText(piece.high, piece.low)
  {
    hide Hex4, IsHex4, Base16, HexSpelt, Utf8;
    var high := HexSpells(t, p);
    if IsHighSurrogate(Hex4(t, p)) {
      var low := HexSpells(t, p + 6);
      PairsAreCodePoints(Hex4(t, p), Hex4(t, p + 6));
      piece := Units(high, low, Supplementary(Hex4(t, p), Hex4(t, p + 6)));
      assert t[p..p + 10] == t[p..p + 4] + [t[p + 4], t[p + 5]] + t[p + 6..p + 10];
    } else {
      piece := Units(high, [], Hex4(t, p));
    }
  }

  lemma EscapeSpelt(t: Text, p: nat) returns (piece: Piece)
    requires p < |t| && PEscape(t, p).Ok?
    ensures IsPiece(piece) && PieceBytes(piece) == PEscape(t, p).value
    ensures PieceText(piece) == [BACKSLASH] + t[p..PEscape(t, p).end]
  {
    hide PUnicode, Encodes, EscapeText;
    if IsSimpleEscape(t[p]) {
      var k := LetterOf(t[p]);
      LettersMean(k);
      piece := Short(k);
    } else {
      piece := UnicodeSpelt(t, p + 1);
      assert t[p..PEscape(t, p).end] == ['u' as int] + t[p + 1..PEscape(t, p).end];
    }
  }

  /** The first piece of a string body, and where the next one starts. */
  lemma FirstSpelt(t: Text, p: nat) returns (piece: Piece, next: nat)
    requires p < |t| && PChars(t, p).Ok? && t[p] != QUOTE
    ensures p < next < |t| && PChars(t, next).Ok? && PChars(t, next).end == PChars(t, p).end
    ensures IsPiece(piece) && PieceText(piece) == t[p..next]
    ensures PChars(t, p).value == PieceBytes(piece) + PChars(t, next).value
  {
    hide PEscape;
    if t[p] == BACKSLASH {
      hide IsPiece, PieceText, PieceBytes;
      piece := EscapeSpelt(t, p + 1);
      next := PEscape(t, p + 1).end;
      assert t[p..next] == [t[p]] + t[p + 1..next];
    } else {
      piece, next := Plain(t[p]), p + 1;
    }
  }

  lemma {:induction false} CharsSpelt(t: Text, p: nat) returns (pieces: seq<Piece>)
    requires p < |t| && PChars(t, p).Ok?
    ensures ArePieces(pieces) && PiecesBytes(pieces) == PChars(t, p).value
    ensures PiecesText(pieces) + [QUOTE] == t[p..PChars(t, p).end]
    decreases |t| - p
  {
    hide PEscape, IsPiece, PieceText, PieceBytes;
    if t[p] == QUOTE {
      pieces := [];
    } else {
      var piece, next := FirstSpelt(t, p);
      var rest := CharsSpelt(t, next);
      pieces := [piece] + rest;
      assert pieces[1..] == rest;
      Rejoined(t, p, next, PChars(t, p).end, PiecesText(rest));
    }
  }

  lemma Rejoined(t: Str, a: nat, b: nat, c: nat, text: Str)
    requires a <= b <= c <= |t| && text + [QUOTE] == t[b..c]
    ensures t[a..b] + text + [QUOTE] == t[a..c]
  {
    assert t[a..b] + text + [QUOTE] == t[a..b] + (text + [QUOTE]);
  }

  lemma StringSpelt(t: Text, p: nat) returns (pieces: seq<Piece>)
    requires p < |t| && PString(t, p).Ok?
    ensures ArePieces(pieces) && PiecesBytes(pieces) == PString(t, p).value
    ensures StringText(pieces) == t[p..PString(t, p).end]
  {
    hide PChars;
    pieces := CharsSpelt(t, p + 1);
    assert t[p..PString(t, p).end] == [QUOTE] + t[p + 1..PString(t, p).end];
  }

  // -------------------------------------------------------------------- numbers

  /** An exponent with its mark and its sign, if it has any. */
  datatype Exponent = NoExponent | Exponent(mark: Byte, sign: Str, digits: Str)

  datatype Numeral = Numeral(negative: bool, whole: Str, fraction: Str, exponent: Exponent)

  predicate IsExponent(e: Exponent) {
    e.Exponent? ==>
      (e.mark == 'e' as int || e.mark == 'E' as int) &&
      (e.sign == [] || e.sign == ['+' as int] || e.sign == ['-' as int]) && e.digits != [] && AllDigits(e.digits)
  }

  predicate IsNumeral(n: Numeral) {
    n.whole != [] && AllDigits(n.whole) && (n.whole[0] == '0' as int ==> |n.whole| == 1) &&
    AllDigits(n.fraction) && IsExponent(n.exponent)
  }

  function ExponentText(e: Exponent): Str {
    if e.NoExponent? then [] else [e.mark] + (e.sign + e.digits)
  }

  /** The fraction with its point, if there is any. */
  function TailText(n: Numeral): Str {
    (if n.fraction == [] then [] else ['.' as int] + n.fraction) + ExponentText(n.exponent)
  }

  function NumeralText(n: Numeral): Str {
    (if n.negative then ['-' as int] else []) + (n.whole + TailText(n))
  }

  /** The power of ten an exponent stands for; the parser takes it only up to the limit of int. */
  function Power(e: Exponent): Option<int>
    requires IsExponent(e)
  {
    if e.NoExponent? then Some(0)
    else if Decimal(e.digits) > 2147483647 then None
    else Some(if e.sign == ['-' as int] then 0 - Decimal(e.digits) else Decimal(e.digits))
  }

  predicate IsWhole(n: Numeral) { n.fraction == [] && n.exponent.NoExponent? }

  /** 10^e. */
  function Ten(e: int): real
    decreases if e < 0 then 0 - e else e
  {
    if e == 0 then 1.0 else if e > 0 then 10.0 * Ten(e - 1) else Ten(e + 1) / 10.0
  }

  /** The value is one a 64-bit integer can be cut off from. */
  ghost predicate Within64(mantissa: int, scale: int) {
    -9223372036854775808.0 <= mantissa as real * Ten(scale) < 9223372036854775808.0
  }

  lemma {:induction false} TenIsPow10(k: nat)
    ensures Ten(k) == Pow10(k) as real && Ten(0 - k) * (Pow10(k) as real) == 1.0
  {
    if k > 0 {
      TenIsPow10(k - 1);
      var small, power := Ten(0 - (k - 1)), Pow10(k - 1) as real;
      assert Ten(0 - k) == small / 10.0;
      assert small / 10.0 * (10.0 * power) == small * power;
    }
  }

  /** Multiplying an inequality by a positive number. */
  lemma Scaling(a: real, b: real, c: real)
    requires c > 0.0
    ensures a <= b <==> a * c <= b * c
  {
    if a <= b {
      assert (b - a) * c >= 0.0;
    } else {
      assert (a - b) * c > 0.0;
    }
  }

  lemma Product(a: int, b: int)
    ensures (a * b) as real == a as real * b as real
  {
  }

  function Times(a: int, b: int): int { a * b }

  /** A bound on m stands to a bound on x as m to x. */
  lemma BoundScales(bound: int, m: int, x: real, power: int)
    requires power >= 1 && x * (power as real) == m as real
    ensures Times(bound, power) <= m <==> bound as real <= x
  {
    Product(bound, power);
    Scaling(bound as real, x, power as real);
  }

  lemma LargeIsExact(m: int, k: nat)
    ensures InRange(m, k) <==> Within64(m, k)
  {
    hide Ten, Pow10;
    TenIsPow10(k);
    var product := m * Pow10(k);
    Product(m, Pow10(k));
    assert product as real == m as real * Ten(k);
  }

  lemma SmallRange(m: int, k: nat)
    requires k > 0
    ensures InRange(m, 0 - k) <==> Times(LLONG_MIN, Pow10(k)) <= m && !(Times(LLONG_MAX + 1, Pow10(k)) <= m)
  {
    hide Pow10;
    assert 0 - (0 - k) == k;
  }

  lemma SmallIsExact(m: int, k: nat)
    requires k > 0
    ensures InRange(m, 0 - k) <==> Within64(m, 0 - k)
  {
    hide Ten, Pow10, InRange, Times;
    TenIsPow10(k);
    SmallRange(m, k);
    var power := Pow10(k);
    var x := m as real * Ten(0 - k);
    Regroup(m as real, Ten(0 - k), power as real);
    BoundScales(LLONG_MIN, m, x, power);
    BoundScales(LLONG_MAX + 1, m, x, power);
  }

  lemma RangeIsExact(m: int, e: int)
    ensures InRange(m, e) <==> Within64(m, e)
  {
    hide InRange, Within64;
    if e >= 0 { LargeIsExact(m, e); } else { SmallIsExact(m, 0 - e); }
  }

  lemma Regroup(m: real, ten: real, power: real)
    requires ten * power == 1.0
    ensures m * ten * power == m
  {
    assert m * ten * power == m * (ten * power);
  }

  /**
   What a numeral means: its digits, the point and the exponent put together; none if it is outside
   the limits, which are those of 64-bit integers for the value and for the digits before the point.
   */
  ghost function Meaning(n: Numeral): Option<Value>
    requires IsNumeral(n)
  {
    var digits := Decimal(n.whole + n.fraction);
    var mantissa := if n.negative then 0 - digits else digits;
    if Decimal(n.whole) > 18446744073709551615 || |n.fraction| > 9223372036854775808 then None
    else if IsWhole(n) then
      if -9223372036854775808 <= mantissa <= 9223372036854775807 then Some(Number(mantissa)) else None
    else if Power(n.exponent).None? then None
    else
      var scale := Power(n.exponent).value - |n.fraction|;
      if Within64(mantissa, scale) then Some(Fraction(mantissa, scale)) else None
  }

  /** The byte after a numeral does not make it longer. */
  predicate Ends(n: Numeral, next: Byte) {
    if n.exponent.Exponent? then !IsDigit(next)
    else if n.fraction != [] then !IsDigit(next) && !IsExponentMark(next)
    else (n.whole == ['0' as int] || !IsDigit(next)) && next != '.' as int && !IsExponentMark(next)
  }

  lemma DecimalNext(ds: Str, k: nat)
    requires AllDigits(ds) && k < |ds|
    ensures AllDigits(ds[..k]) && AllDigits(ds[..k + 1])
    ensures Decimal(ds[..k + 1]) == Decimal(ds[..k]) * 10 + Digit(ds[k])
  {
    assert ds[..k + 1][..k] == ds[..k];
  }

  lemma {:induction false} DigitsRead(t: Text, p: nat, ds: Str, k: nat, limit: int)
    requires AllDigits(ds) && k <= |ds| && LooksAt(t, p, ds) && !IsDigit(t[p + |ds|])
    requires AllDigits(ds[..k]) && Decimal(ds[..k]) <= limit
    ensures PDigits(t, p + k, Decimal(ds[..k]), limit) ==
      if Decimal(ds) <= limit then Ok(Decimal(ds), p + |ds|) else Fail
    decreases |ds| - k
  {
    hide LooksAt, Decimal;
    if k == |ds| {
      assert ds[..k] == ds;
    } else {
      Within(t, p, ds);
      ReadsEach(t, p, ds, k);
      DecimalNext(ds, k);
      if Decimal(ds[..k + 1]) <= limit {
        DigitsRead(t, p, ds, k + 1, limit);
      } else {
        DecimalGrows(ds, k + 1);
      }
    }
  }

  lemma AllOf(t: Text, p: nat, ds: Str, limit: int)
    requires AllDigits(ds) && LooksAt(t, p, ds) && !IsDigit(t[p + |ds|]) && limit >= 0
    ensures PDigits(t, p, 0, limit) == if Decimal(ds) <= limit then Ok(Decimal(ds), p + |ds|) else Fail
  {
    assert ds[..0] == [] && Decimal([]) == 0;
    DigitsRead(t, p, ds, 0, limit);
  }

  lemma {:induction false} FractionRead(t: Text, p: nat, whole: Str, ds: Str, k: nat)
    requires AllDigits(whole) && AllDigits(ds) && k <= |ds| && LooksAt(t, p, ds) && !IsDigit(t[p + |ds|])
    requires k <= 9223372036854775808
    ensures AllDigits(whole + ds[..k]) && AllDigits(whole + ds)
    ensures PFraction(t, p + k, Decimal(whole + ds[..k]), 0 - k) ==
      if |ds| <= 9223372036854775808 then Ok((Decimal(whole + ds), 0 - |ds|), p + |ds|) else Fail
    decreases |ds| - k
  {
    hide LooksAt, Decimal;
    if k == |ds| {
      assert ds[..k] == ds;
    } else {
      Within(t, p, ds);
      ReadsEach(t, p, ds, k);
      var all := whole + ds[..k + 1];
      DecimalNext(whole + ds, |whole| + k);
      assert (whole + ds)[..|whole| + k] == whole + ds[..k] && (whole + ds)[..|whole| + k + 1] == all;
      if k < 9223372036854775808 { FractionRead(t, p, whole, ds, k + 1); }
    }
  }

  lemma ExponentRead(t: Text, p: nat, e: Exponent)
    requires IsExponent(e) && e.Exponent? && LooksAt(t, p, e.sign + e.digits)
    requires !IsDigit(t[p + |e.sign + e.digits|])
    ensures PExponent(t, p) ==
      if Power(e).Some? then Ok(Power(e).value, p + |e.sign + e.digits|) else Fail
  {
    hide LooksAt, Decimal, PDigits;
    Split(t, p, e.sign, e.digits);
    var q := p + |e.sign|;
    Head(t, p, e.sign + e.digits);
    Head(t, q, e.digits);
    if e.sign != [] { Head(t, p, e.sign); }
    AllOf(t, q, e.digits, INT_MAX);
  }

  lemma WholeRead(t: Text, p: nat, whole: Str)
    requires whole != [] && AllDigits(whole) && (whole[0] == '0' as int ==> |whole| == 1)
    requires LooksAt(t, p, whole) && (whole[0] == '0' as int || !IsDigit(t[p + |whole|]))
    ensures PInteger(t, p) == if Decimal(whole) <= ULLONG_MAX then Ok(Decimal(whole), p + |whole|) else Fail
    ensures IsDigit(t[p])
  {
    hide LooksAt, PDigits;
    Head(t, p, whole);
    if whole[0] == '0' as int {
      assert whole == ['0' as int] && whole[..0] == [];
    } else {
      AllOf(t, p, whole, ULLONG_MAX);
    }
  }

  /** What stands behind the digits before the point does not belong to them. */
  lemma AfterWhole(t: Text, q: nat, n: Numeral)
    requires IsNumeral(n) && LooksAt(t, q, TailText(n)) && Ends(n, t[q + |TailText(n)|])
    ensures n.whole[0] == '0' as int || !IsDigit(t[q])
  {
    if TailText(n) != [] { Head(t, q, TailText(n)); }
  }

  lemma ScaledRead(t: Text, p: nat, negative: bool, m: nat, scale: int, e: Exponent)
    requires IsExponent(e) && LooksAt(t, p, ExponentText(e)) && !IsDigit(t[p + |ExponentText(e)|])
    requires e.NoExponent? ==> !IsExponentMark(t[p])
    ensures PScaled(t, p, negative, m, scale) ==
      if Power(e).Some? && InRange(Signed(negative, m), scale + Power(e).value)
      then Ok(Fraction(Signed(negative, m), scale + Power(e).value), p + |ExponentText(e)|) else Fail
  {
    hide LooksAt, PExponent, Power, InRange, AllDigits;
    if e.Exponent? {
      Split(t, p, [e.mark], e.sign + e.digits);
      Head(t, p, [e.mark]);
      ExponentRead(t, p + 1, e);
    } else {
      NoPower();
    }
  }

  lemma NoPower()
    ensures Power(NoExponent) == Some(0)
  {
  }

  lemma PointRead(t: Text, q: nat, n: Numeral)
    requires IsNumeral(n) && n.fraction != [] && LooksAt(t, q, TailText(n)) && Ends(n, t[q + |TailText(n)|])
    ensures t[q] == '.' as int && IsDigit(t[q + 1])
    ensures AllDigits(n.whole + n.fraction) && LooksAt(t, q + 1 + |n.fraction|, ExponentText(n.exponent))
    ensures PFraction(t, q + 1, Decimal(n.whole), 0) ==
      if |n.fraction| <= 9223372036854775808
      then Ok((Decimal(n.whole + n.fraction), 0 - |n.fraction|), q + 1 + |n.fraction|) else Fail
  {
    hide LooksAt, Decimal, PFraction;
    var rest := ExponentText(n.exponent);
    assert TailText(n) == ['.' as int] + (n.fraction + rest);
    Split(t, q, ['.' as int], n.fraction + rest);
    Head(t, q, ['.' as int]);
    Split(t, q + 1, n.fraction, rest);
    Head(t, q + 1, n.fraction);
    if rest != [] { Head(t, q + 1 + |n.fraction|, rest); }
    assert n.whole + n.fraction[..0] == n.whole;
    FractionRead(t, q + 1, n.whole, n.fraction, 0);
  }

  /** The meaning of a numeral with a fraction or an exponent, in the parser's terms. */
  lemma ScaledMeaning(n: Numeral)
    requires IsNumeral(n) && !IsWhole(n) && Decimal(n.whole) <= ULLONG_MAX
    ensures AllDigits(n.whole + n.fraction)
    ensures var m := Signed(n.negative, Decimal(n.whole + n.fraction));
      Meaning(n) ==
        if |n.fraction| > 9223372036854775808 || Power(n.exponent).None? then None
        else if InRange(m, Power(n.exponent).value - |n.fraction|)
        then Some(Fraction(m, Power(n.exponent).value - |n.fraction|))
        else None
  {
    hide Decimal, InRange, Within64, Power;
    if Power(n.exponent).Some? {
      RangeIsExact(Signed(n.negative, Decimal(n.whole + n.fraction)), Power(n.exponent).value - |n.fraction|);
    }
  }

  lemma PointTail(t: Text, q: nat, n: Numeral)
    requires IsNumeral(n) && n.fraction != [] && LooksAt(t, q, TailText(n)) && Ends(n, t[q + |TailText(n)|])
    requires Decimal(n.whole) <= ULLONG_MAX
    ensures PTail(t, q, n.negative, Decimal(n.whole)) ==
      if Meaning(n).Some? then Ok(Meaning(n).value, q + |TailText(n)|) else Fail
  {
    hide LooksAt, Decimal, PFraction, PScaled, InRange, Power, Meaning;
    PointRead(t, q, n);
    ScaledRead(t, q + 1 + |n.fraction|, n.negative, Decimal(n.whole + n.fraction), 0 - |n.fraction|, n.exponent);
    ScaledMeaning(n);
  }

  lemma ExponentTail(t: Text, q: nat, n: Numeral)
    requires IsNumeral(n) && n.fraction == [] && n.exponent.Exponent?
    requires LooksAt(t, q, TailText(n)) && Ends(n, t[q + |TailText(n)|]) && Decimal(n.whole) <= ULLONG_MAX
    ensures PTail(t, q, n.negative, Decimal(n.whole)) ==
      if Meaning(n).Some? then Ok(Meaning(n).value, q + |TailText(n)|) else Fail
  {
    hide LooksAt, Decimal, PFraction, PScaled, InRange, Power, Meaning;
    assert n.whole + n.fraction == n.whole && TailText(n) == ExponentText(n.exponent);
    Head(t, q, ExponentText(n.exponent));
    ScaledRead(t, q, n.negative, Decimal(n.whole), 0, n.exponent);
    ScaledMeaning(n);
  }

  lemma TailRead(t: Text, q: nat, n: Numeral)
    requires IsNumeral(n) && LooksAt(t, q, TailText(n)) && Ends(n, t[q + |TailText(n)|])
    requires Decimal(n.whole) <= ULLONG_MAX
    ensures PTail(t, q, n.negative, Decimal(n.whole)) ==
      if Meaning(n).Some? then Ok(Meaning(n).value, q + |TailText(n)|) else Fail
  {
    hide LooksAt, Decimal, PFraction, PScaled, Within64, Power;
    if n.fraction != [] {
      PointTail(t, q, n);
    } else if n.exponent.Exponent? {
      ExponentTail(t, q, n);
    } else {
      assert n.whole + n.fraction == n.whole;
    }
  }

  lemma NotMinus(n: Numeral)
    requires IsNumeral(n)
    ensures n.whole[0] != '-' as int && IsDigit(n.whole[0])
    ensures Decimal(n.whole) > ULLONG_MAX ==> Meaning(n).None?
  {
    hide Decimal, Within64;
  }

  /** A numeral is read as what it means, or refused outside the limits. */
  lemma NumeralParses(t: Text, p: nat, n: Numeral)
    requires IsNumeral(n) && LooksAt(t, p, NumeralText(n)) && Ends(n, t[p + |NumeralText(n)|])
    ensures PNumber(t, p) == if Meaning(n).Some? then Ok(Meaning(n).value, p + |NumeralText(n)|) else Fail
    ensures t[p] == '-' as int || IsDigit(t[p])
  {
    hide LooksAt, PInteger, PTail, Meaning, Decimal, TailText, AllDigits, Ends;
    var q := if n.negative then p + 1 else p;
    assert [] + (n.whole + TailText(n)) == n.whole + TailText(n);
    if n.negative {
      Split(t, p, ['-' as int], n.whole + TailText(n));
      Head(t, p, ['-' as int]);
    }
    Split(t, q, n.whole, TailText(n));
    AfterWhole(t, q + |n.whole|, n);
    NotMinus(n);
    Head(t, q, n.whole);
    WholeRead(t, q, n.whole);
    if Decimal(n.whole) <= ULLONG_MAX { TailRead(t, q + |n.whole|, n); }
  }

  // the other way: what is read was spelt

  lemma {:induction false} DigitsSpelt(t: Text, p: nat, n: nat, limit: int)
    requires p < |t| && PDigits(t, p, n, limit).Ok?
    ensures AllDigits(t[p..PDigits(t, p, n, limit).end])
    decreases |t| - p
  {
    if IsDigit(t[p]) {
      var end := PDigits(t, p, n, limit).end;
      DigitsSpelt(t, p + 1, n * 10 + Digit(t[p]), limit);
      assert t[p..end] == [t[p]] + t[p + 1..end];
    }
  }

  lemma {:induction false} FractionSpelt(t: Text, p: nat, m: nat, scale: int)
    requires p < |t| && PFraction(t, p, m, scale).Ok?
    ensures AllDigits(t[p..PFraction(t, p, m, scale).end])
    ensures IsDigit(t[p]) ==> p < PFraction(t, p, m, scale).end
    decreases |t| - p
  {
    if IsDigit(t[p]) {
      var end := PFraction(t, p, m, scale).end;
      FractionSpelt(t, p + 1, m * 10 + Digit(t[p]), scale - 1);
      assert t[p..end] == [t[p]] + t[p + 1..end];
    }
  }

  lemma WholeSpelt(t: Text, p: nat) returns (whole: Str)
    requires p < |t| && PInteger(t, p).Ok?
    ensures whole == t[p..PInteger(t, p).end] != [] && AllDigits(whole)
    ensures whole[0] == '0' as int ==> whole == ['0' as int]
    ensures whole == ['0' as int] || !IsDigit(t[PInteger(t, p).end])
  {
    whole := t[p..PInteger(t, p).end];
    if t[p] != '0' as int { DigitsSpelt(t, p, 0, ULLONG_MAX); }
  }

  /** The exponent that is read at p, if any, and where it ends. */
  lemma ExponentSpelt(t: Text, p: nat, negative: bool, m: nat, scale: int) returns (e: Exponent)
    requires p < |t| && PScaled(t, p, negative, m, scale).Ok?
    ensures IsExponent(e) && ExponentText(e) == t[p..PScaled(t, p, negative, m, scale).end]
    ensures e.NoExponent? <==> !IsExponentMark(t[p])
    ensures e.Exponent? ==> !IsDigit(t[PScaled(t, p, negative, m, scale).end])
  {
    hide PDigits, InRange;
    if IsExponentMark(t[p]) {
      var q := if t[p + 1] == '+' as int || t[p + 1] == '-' as int then p + 2 else p + 1;
      var end := PExponent(t, p + 1).end;
      DigitsSpelt(t, q, 0, INT_MAX);
      e := Exponent(t[p], t[p + 1..q], t[q..end]);
      assert t[p..end] == [t[p]] + (t[p + 1..q] + t[q..end]);
    } else {
      e := NoExponent;
    }
  }

  lemma TailSpelt(t: Text, q: nat, n: Numeral) returns (full: Numeral)
    requires q < |t| && n.fraction == [] && n.exponent == NoExponent && IsNumeral(n)
    requires n.whole == ['0' as int] || !IsDigit(t[q])
    requires PTail(t, q, n.negative, Decimal(n.whole)).Ok?
    ensures full.negative == n.negative && full.whole == n.whole && IsNumeral(full)
    ensures TailText(full) == t[q..PTail(t, q, n.negative, Decimal(n.whole)).end]
    ensures Ends(full, t[PTail(t, q, n.negative, Decimal(n.whole)).end])
  {
    hide Decimal, PFraction, PScaled;
    var m := Decimal(n.whole);
    var end := PTail(t, q, n.negative, m).end;
    if t[q] == '.' as int {
      FractionSpelt(t, q + 1, m, 0);
      var Ok((digits, scale), after) := PFraction(t, q + 1, m, 0);
      var e := ExponentSpelt(t, after, n.negative, digits, scale);
      full := n.(fraction := t[q + 1..after], exponent := e);
      assert t[q..end] == ['.' as int] + t[q + 1..after] + t[after..end];
      if e.NoExponent? { assert after == end by { Unmoved(t, after, n.negative, digits, scale); } }
    } else if IsExponentMark(t[q]) {
      var e := ExponentSpelt(t, q, n.negative, m, 0);
      full := n.(exponent := e);
    } else {
      full := n;
    }
  }

  lemma Unmoved(t: Text, p: nat, negative: bool, m: nat, scale: int)
    requires p < |t| && PScaled(t, p, negative, m, scale).Ok? && !IsExponentMark(t[p])
    ensures PScaled(t, p, negative, m, scale).end == p
  {
  }

  lemma NumeralLies(t: Text, p: nat, q: nat, after: nat, end: nat, n: Numeral)
    requires p <= q <= after <= end < |t| && q == (if n.negative then p + 1 else p)
    requires n.negative ==> t[p] == '-' as int
    requires n.whole == t[q..after] && TailText(n) == t[after..end]
    ensures NumeralText(n) == t[p..end] && LooksAt(t, p, NumeralText(n)) && p + |NumeralText(n)| == end
  {
    hide TailText;
    Threefold(t, p, q, after, end);
    assert t[p..q] == if n.negative then ['-' as int] else [];
  }

  lemma Threefold(t: Str, a: nat, b: nat, c: nat, d: nat)
    requires a <= b <= c <= d <= |t|
    ensures t[a..d] == t[a..b] + (t[b..c] + t[c..d])
  {
  }

  lemma NumberSpelt(t: Text, p: nat) returns (n: Numeral)
    requires p < |t| && PNumber(t, p).Ok?
    ensures IsNumeral(n) && NumeralText(n) == t[p..PNumber(t, p).end]
    ensures Meaning(n) == Some(PNumber(t, p).value)
  {
    hide PInteger, PTail, TailText, NumeralText, Decimal, Meaning, Ends;
    var negative := t[p] == '-' as int;
    var q := if negative then p + 1 else p;
    var end := PNumber(t, p).end;
    var Ok(value, after) := PInteger(t, q);
    var whole := WholeSpelt(t, q);
    WholeRead(t, q, whole);
    n := TailSpelt(t, after, Numeral(negative, whole, [], NoExponent));
    NumeralLies(t, p, q, after, end, n);
    NumeralParses(t, p, n);
  }
}
