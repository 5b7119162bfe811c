/**
 C character data: bytes, strings without NUL, and NUL-terminated text buffers.
 A text always carries its own terminator, so every index Dafny accepts on one
 is a read the C code may make.
 */
module CText {
  datatype Option<T> = None | Some(value: T)

  type Byte = b: int | 0 <= b < 256

  /** The contents of a C string, terminator excluded. */
  type Str = seq<Byte>

  /** A C text buffer from some pointer on: it ends with a NUL. */
  type Text = t: seq<Byte> | |t| > 0 && t[|t| - 1] == 0 witness [0]

  predicate NulFree(s: Str) {
    forall i | 0 <= i < |s| :: s[i] != 0
  }

  /** The bytes of a string literal. */
  function Bytes(s: string): (b: Str)
    requires forall i :: 0 <= i < |s| ==> s[i] as int < 256
    ensures |b| == |s| && forall i :: 0 <= i < |b| ==> b[i] == s[i] as int
  {
    seq(|s|, i requires 0 <= i < |s| => s[i] as int)
  }

  /** The word stands at p in t. */
  predicate Reads(t: Str, p: nat, word: Str) { p + |word| <= |t| && t[p..p + |word|] == word }

  lemma ReadsEach(t: Str, p: nat, word: Str, i: nat)
    requires Reads(t, p, word) && i < |word|
    ensures t[p + i] == word[i]
  {
    assert t[p..p + |word|][i] == word[i];
  }

  lemma ReadsBoth(t: Str, p: nat, a: Str, b: Str)
    requires Reads(t, p, a + b)
    ensures Reads(t, p, a) && Reads(t, p + |a|, b)
  {
    var w := t[p..p + |a + b|];
    assert w[..|a|] == a && w[|a|..] == b;
    assert t[p..p + |a|] == w[..|a|];
    assert t[p + |a|..p + |a| + |b|] == w[|a|..];
  }

  predicate IsDigit(b: Byte) { '0' as int <= b <= '9' as int }

  predicate IsHex(b: Byte) {
    IsDigit(b) || 'A' as int <= b <= 'F' as int || 'a' as int <= b <= 'f' as int
  }

  function HexVal(b: Byte): nat
    requires IsHex(b)
  {
    if IsDigit(b) then b - '0' as int
    else if b <= 'F' as int then b - 'A' as int + 10
    else b - 'a' as int + 10
  }

  const LOWER_DIGITS: Str := Bytes("0123456789abcdef")
  const UPPER_DIGITS: Str := Bytes("0123456789ABCDEF")

  /** A hexadecimal digit as a text may write it. */
  datatype Nibble = Nibble(value: nat, upper: bool)

  type Nibbles = s: seq<Nibble> | forall i :: 0 <= i < |s| ==> s[i].value < 16

  function HexChar(n: Nibble): Byte
    requires n.value < 16
  {
    if n.upper then UPPER_DIGITS[n.value] else LOWER_DIGITS[n.value]
  }

  /** The byte tests and sums of the code read every digit of the tables as its index. */
  lemma HexTables(i: nat)
    requires i < 16
    ensures IsHex(LOWER_DIGITS[i]) && HexVal(LOWER_DIGITS[i]) == i
    ensures IsHex(UPPER_DIGITS[i]) && HexVal(UPPER_DIGITS[i]) == i
  {
    assert LOWER_DIGITS[i] == "0123456789abcdef"[i] as int;
    assert UPPER_DIGITS[i] == "0123456789ABCDEF"[i] as int;
  }

  lemma HexCharReads(n: Nibble)
    requires n.value < 16
    ensures IsHex(HexChar(n)) && HexVal(HexChar(n)) == n.value
  {
    hide IsHex, HexVal, Bytes;
    HexTables(n.value);
  }

  /** And a byte they take for a digit is in the tables. */
  lemma NibbleOf(b: Byte) returns (n: Nibble)
    requires IsHex(b)
    ensures n.value < 16 && HexChar(n) == b && n.value == HexVal(b)
  {
    n := Nibble(HexVal(b), 'A' as int <= b <= 'F' as int);
    assert LOWER_DIGITS[n.value] == "0123456789abcdef"[n.value] as int;
    assert UPPER_DIGITS[n.value] == "0123456789ABCDEF"[n.value] as int;
  }

  function HexSpelt(ns: Nibbles): (r: Str)
    ensures |r| == |ns| && forall i :: 0 <= i < |ns| ==> r[i] == HexChar(ns[i])
  {
    if ns == [] then [] else [HexChar(ns[0])] + HexSpelt(ns[1..])
  }

  /** The number these digits stand for in base sixteen. */
  function Base16(ns: Nibbles): nat {
    if ns == [] then 0 else Base16(ns[..|ns| - 1]) * 16 + ns[|ns| - 1].value
  }

  predicate AllDigits(s: Str) { forall i :: 0 <= i < |s| ==> IsDigit(s[i]) }

  function Decimal(s: Str): nat
    requires AllDigits(s)
  {
    if s == [] then 0 else Decimal(s[..|s| - 1]) * 10 + (s[|s| - 1] - '0' as int)
  }

  /** More digits never make a number smaller. */
  lemma {:induction false} DecimalGrows(s: Str, k: nat)
    requires AllDigits(s) && k <= |s|
    ensures Decimal(s[..k]) <= Decimal(s)
    decreases |s|
  {
    if k < |s| {
      var shorter := s[..|s| - 1];
      DecimalGrows(shorter, k);
      assert shorter[..k] == s[..k];
    } else {
      assert s[..k] == s;
    }
  }

  function Pow10(k: nat): (r: nat)
    ensures r >= 1
  {
    if k == 0 then 1 else 10 * Pow10(k - 1)
  }

  /** memcpy(out + at, bytes, |bytes|). */
  method Copy(out: array<Byte>, at: nat, bytes: Str) returns (next: nat)
    requires at + |bytes| <= out.Length
    modifies out
    ensures next == at + |bytes| && out[..next] == old(out[..at]) + bytes
  {
    next := at;
    var i := 0;
    while i < |bytes|
      invariant i <= |bytes| && next == at + i
      invariant out[..next] == old(out[..at]) + bytes[..i]
    {
      ghost var done := out[..next];
      out[next] := bytes[i];
      next, i := next + 1, i + 1;
      assert out[..next] == done + [bytes[i - 1]];
    }
  }
}
