/**
 The code points behind \u escapes: UTF-16 surrogate pairs and code points correspond one to one,
 UTF-8 (RFC 3629 section 3) can be read back, and every code point a JSON text may escape decodes
 to its UTF-8 encoding.
 */
module JsonUnicode {
  import opened CText
  import opened JsonGrammar
  import opened JsonRoundTrip

  // -------------------------------------------------------------------- surrogates

  function High(cp: nat): nat
    requires 0x10000 <= cp < 0x110000
  {
    0xD800 + (cp - 0x10000) / 0x400
  }

  function Low(cp: nat): nat
    requires 0x10000 <= cp < 0x110000
  {
    0xDC00 + (cp - 0x10000) % 0x400
  }

  /** Surrogate pairs and supplementary code points correspond one to one. */
  lemma PairsAreCodePoints(high: nat, low: nat)
    requires IsHighSurrogate(high) && IsLowSurrogate(low)
    ensures High(Supplementary(high, low)) == high && Low(Supplementary(high, low)) == low
  {
  }

  lemma CodePointsArePairs(cp: nat)
    requires 0x10000 <= cp < 0x110000
    ensures IsHighSurrogate(High(cp)) && IsLowSurrogate(Low(cp)) && Supplementary(High(cp), Low(cp)) == cp
  {
  }

  // ------------------------------------------------------------------------- UTF-8

  predicate IsTail(b: Byte) { 0x80 <= b < 0xC0 }

  /** The bits so far and six more. */
  function More(bits: nat, b: Byte): nat
    requires IsTail(b)
  {
    bits * 64 + (b - 0x80)
  }

  datatype Decoded = Decoded(codePoint: nat, length: nat)

  /** The first code point of a UTF-8 text; overlong forms are not UTF-8. */
  function FromUtf8(s: Str): Option<Decoded> {
    if s == [] then None
    else if s[0] < 0x80 then Some(Decoded(s[0], 1))
    else if 0xC0 <= s[0] < 0xE0 && |s| >= 2 && IsTail(s[1]) then
      var cp := More(s[0] - 0xC0, s[1]);
      if cp < 0x80 then None else Some(Decoded(cp, 2))
    else if 0xE0 <= s[0] < 0xF0 && |s| >= 3 && IsTail(s[1]) && IsTail(s[2]) then
      var cp := More(More(s[0] - 0xE0, s[1]), s[2]);
      if cp < 0x800 then None else Some(Decoded(cp, 3))
    else if 0xF0 <= s[0] < 0xF8 && |s| >= 4 && IsTail(s[1]) && IsTail(s[2]) && IsTail(s[3]) then
      var cp := More(More(More(s[0] - 0xF0, s[1]), s[2]), s[3]);
      if cp < 0x10000 || cp >= 0x110000 then None else Some(Decoded(cp, 4))
    else None
  }

  /** What the decoder writes for a code point is UTF-8 for it, whatever follows. */
  lemma Utf8ReadsBack(cp: nat, rest: Str)
    requires cp < 0x110000
    ensures FromUtf8(Utf8(cp) + rest) == Some(Decoded(cp, |Utf8(cp)|))
  {
    var s := Utf8(cp) + rest;
    var a, b := cp / 64, cp / 64 / 64;
    assert cp == a * 64 + cp % 64 && a == b * 64 + a % 64 && b == b / 64 * 64 + b % 64;
    if cp >= 0x10000 {
      assert s[0] == 0xF0 + b / 64 && s[1] == 0x80 + b % 64 && s[2] == 0x80 + a % 64 && s[3] == 0x80 + cp % 64;
    } else if cp >= 0x800 {
      assert s[0] == 0xE0 + b && s[1] == 0x80 + a % 64 && s[2] == 0x80 + cp % 64;
    } else if cp >= 0x80 {
      assert s[0] == 0xC0 + a && s[1] == 0x80 + cp % 64;
    }
  }

  // ----------------------------------------------------------------------- escapes

  /** The escape of one or two UTF-16 code units, without its backslash. */
  function EscapeText(high: Nibbles, low: Nibbles): Str {
    ['u' as int] + HexSpelt(high) + if low == [] then [] else [BACKSLASH, 'u' as int] + HexSpelt(low)
  }

  /** Four hexadecimal digits, in whatever case, for each code unit of the code point. */
  predicate Encodes(high: Nibbles, low: Nibbles, cp: nat) {
    |high| == 4 &&
    if cp < 0x10000 then low == [] && Base16(high) == cp
    else cp < 0x110000 && |low| == 4 && Base16(high) == High(cp) && Base16(low) == Low(cp)
  }

  lemma Base16Four(ns: Nibbles)
    requires |ns| == 4
    ensures Base16(ns) == ((ns[0].value * 16 + ns[1].value) * 16 + ns[2].value) * 16 + ns[3].value
  {
    var three, two, one := ns[..3], ns[..2], ns[..1];
    assert three[..2] == two && two[..1] == one && one[..0] == [];
    assert Base16(ns) == Base16(three) * 16 + ns[3].value;
    assert Base16(three) == Base16(two) * 16 + ns[2].value;
    assert Base16(two) == Base16(one) * 16 + ns[1].value;
  }

  lemma HexReads(t: Text, p: nat, ns: Nibbles)
    requires |ns| == 4 && LooksAt(t, p, HexSpelt(ns))
    ensures IsHex4(t, p) && Hex4(t, p) == Base16(ns)
  {
    hide HexVal, IsHex, HexChar, LooksAt, HexSpelt, Base16, Hex4, IsHex4;
    NibblesAt(t, p, ns);
    Base16Four(ns);
    Hex4Is(t, p, ns[0].value, ns[1].value, ns[2].value, ns[3].value);
  }

  lemma NibblesAt(t: Text, p: nat, ns: Nibbles)
    requires |ns| == 4 && LooksAt(t, p, HexSpelt(ns))
    ensures p + 4 < |t| && IsHex(t[p]) && IsHex(t[p + 1]) && IsHex(t[p + 2]) && IsHex(t[p + 3])
    ensures HexVal(t[p]) == ns[0].value && HexVal(t[p + 1]) == ns[1].value
    ensures HexVal(t[p + 2]) == ns[2].value && HexVal(t[p + 3]) == ns[3].value
  {
    hide HexVal, IsHex, HexChar, LooksAt, HexSpelt;
    Bounds(t, p, HexSpelt(ns));
    NibbleAt(t, p, ns, 0);
    NibbleAt(t, p, ns, 1);
    NibbleAt(t, p, ns, 2);
    NibbleAt(t, p, ns, 3);
  }

  lemma Hex4Is(t: Text, p: nat, a: nat, b: nat, c: nat, d: nat)
    requires p + 4 < |t| && IsHex(t[p]) && IsHex(t[p + 1]) && IsHex(t[p + 2]) && IsHex(t[p + 3])
    requires HexVal(t[p]) == a && HexVal(t[p + 1]) == b && HexVal(t[p + 2]) == c && HexVal(t[p + 3]) == d
    ensures IsHex4(t, p) && Hex4(t, p) == ((a * 16 + b) * 16 + c) * 16 + d
  {
    hide HexVal, IsHex;
  }

  lemma NibbleAt(t: Text, p: nat, ns: Nibbles, i: nat)
    requires LooksAt(t, p, HexSpelt(ns)) && i < |ns|
    ensures IsHex(t[p + i]) && HexVal(t[p + i]) == ns[i].value
  {
    hide HexVal, IsHex, HexChar, HexSpelt;
    ReadsEach(t, p, HexSpelt(ns), i);
    HexCharReads(ns[i]);
    assert HexSpelt(ns)[i] == HexChar(ns[i]);
  }

  /** Every escaped code point but U+0000 and the lone surrogates decodes to its UTF-8 encoding. */
  lemma EscapedCodePointParses(t: Text, p: nat, cp: nat, high: Nibbles, low: Nibbles)
    requires cp != 0 && !IsHighSurrogate(cp) && !IsLowSurrogate(cp) && Encodes(high, low, cp)
    requires LooksAt(t, p, EscapeText(high, low))
    ensures PEscape(t, p) == Ok(Utf8(cp), p + |EscapeText(high, low)|)
  {
    hide LooksAt, HexSpelt, Utf8, Hex4, IsHex4, Supplementary, High, Low, Base16;
    var u: Str := ['u' as int];
    if cp < 0x10000 {
      assert EscapeText(high, low) == u + HexSpelt(high);
      Split(t, p, u, HexSpelt(high));
      Head(t, p, u);
      HexReads(t, p + 1, high);
    } else {
      CodePointsArePairs(cp);
      assert EscapeText(high, low) == u + HexSpelt(high) + [BACKSLASH, 'u' as int] + HexSpelt(low);
      Split(t, p, u + HexSpelt(high) + [BACKSLASH, 'u' as int], HexSpelt(low));
      Split(t, p, u + HexSpelt(high), [BACKSLASH, 'u' as int]);
      Split(t, p, u, HexSpelt(high));
      Head(t, p, u);
      ReadsEach(t, p + 5, [BACKSLASH, 'u' as int], 0);
      ReadsEach(t, p + 5, [BACKSLASH, 'u' as int], 1);
      Bounds(t, p + 7, HexSpelt(low));
      HexReads(t, p + 1, high);
      HexReads(t, p + 7, low);
      assert t[p + 5] == BACKSLASH && t[p + 5 + 1] == 'u' as int;
    }
  }

  lemma Bounds(t: Text, p: nat, word: Str)
    requires LooksAt(t, p, word)
    ensures p + |word| < |t|
  {
  }

  lemma DigitsOf(u: nat)
    ensures ((u / 4096 * 16 + u / 256 % 16) * 16 + u / 16 % 16) * 16 + u % 16 == u
  {
    var a, b := u / 16, u / 256;
    assert u == a * 16 + u % 16 && a == b * 16 + a % 16 && b == b / 16 * 16 + b % 16;
    assert b == a / 16 && b / 16 == u / 4096;
  }

  /** Every number of sixteen bits has four digits. */
  lemma FourDigits(u: nat) returns (ns: Nibbles)
    requires u < 0x10000
    ensures |ns| == 4 && Base16(ns) == u
  {
    ns := [Nibble(u / 4096, false), Nibble(u / 256 % 16, false), Nibble(u / 16 % 16, true), Nibble(u % 16, true)];
    Base16Four(ns);
    DigitsOf(u);
  }

  /** A lone low surrogate, or U+0000, is refused. */
  lemma BareSurrogateRefused(t: Text, p: nat, ns: Nibbles)
    requires |ns| == 4 && (IsLowSurrogate(Base16(ns)) || Base16(ns) == 0)
    requires LooksAt(t, p, EscapeText(ns, []))
    ensures PEscape(t, p) == Fail
  {
    hide LooksAt, HexSpelt, Utf8, Hex4, IsHex4, Base16;
    assert EscapeText(ns, []) == ['u' as int] + HexSpelt(ns);
    Split(t, p, ['u' as int], HexSpelt(ns));
    Head(t, p, ['u' as int]);
    HexReads(t, p + 1, ns);
  }
}
