/**
 The chunked transfer coding of mybot_http_client.c, RFC 9112 section 7.1: the decoder
 accepts exactly the encodings of chunked bodies and returns their data.
 */
module HttpChunked {
  import opened CText

  const SIZE_MAX: nat := 0xFFFF_FFFF_FFFF_FFFF
  const CR: Byte := 13
  const LF: Byte := 10
  const CRLF: Str := [13, 10]

  // ----------------------------------------------------------------- chunked bodies

  /** One chunk as sent: its size in hexadecimal digits of either case, an extension, the data. */
  datatype Chunk = Chunk(size: Nibbles, extension: Str, data: Str)

  /** The chunks, the closing size line with its zeros, and the trailer lines. */
  datatype Body = Body(chunks: seq<Chunk>, zeros: Nibbles, extension: Str, trailers: seq<Str>)

  /** An extension is empty, or runs from a semicolon to the end of its line. */
  predicate IsExtension(s: Str) {
    s == [] || (s[0] == ';' as int && forall i :: 0 <= i < |s| ==> s[i] != CR && s[i] != LF)
  }

  predicate HasCrLf(b: Str, p: nat) { p + 2 <= |b| && b[p] == CR && b[p + 1] == LF }

  predicate IsLine(s: Str) { forall i :: 0 <= i < |s| ==> !HasCrLf(s, i) }

  predicate IsChunk(c: Chunk) {
    c.size != [] && Base16(c.size) == |c.data| > 0 && IsExtension(c.extension)
  }

  predicate AreTrailers(lines: seq<Str>) {
    lines == [] || (lines[0] != [] && IsLine(lines[0]) && AreTrailers(lines[1..]))
  }

  predicate AreChunks(chunks: seq<Chunk>) {
    chunks == [] || (IsChunk(chunks[0]) && AreChunks(chunks[1..]))
  }

  predicate WellFormed(body: Body) {
    AreChunks(body.chunks) && body.zeros != [] && Base16(body.zeros) == 0 &&
    IsExtension(body.extension) && AreTrailers(body.trailers)
  }

  function EncodeTrailers(lines: seq<Str>): Str {
    if lines == [] then CRLF else lines[0] + CRLF + EncodeTrailers(lines[1..])
  }

  function EncodeFrom(chunks: seq<Chunk>, last: Body): Str {
    if chunks == [] then HexSpelt(last.zeros) + last.extension + CRLF + EncodeTrailers(last.trailers)
    else
      HexSpelt(chunks[0].size) + chunks[0].extension + CRLF + chunks[0].data + CRLF + EncodeFrom(chunks[1..], last)
  }

  function Encode(body: Body): Str { EncodeFrom(body.chunks, body) }

  function DataOf(chunks: seq<Chunk>): Str {
    if chunks == [] then [] else chunks[0].data + DataOf(chunks[1..])
  }

  lemma ReadsCrLf(t: Str, p: nat)
    ensures Reads(t, p, CRLF) <==> HasCrLf(t, p)
  {
    if Reads(t, p, CRLF) {
      ReadsEach(t, p, CRLF, 0);
      ReadsEach(t, p, CRLF, 1);
    }
  }

  // ------------------------------------------------------------------------ decoder

  predicate AllHex(s: Str) { forall i :: 0 <= i < |s| ==> IsHex(s[i]) }

  function HexValue(s: Str): nat
    requires AllHex(s)
  {
    if s == [] then 0 else HexValue(s[..|s| - 1]) * 16 + HexVal(s[|s| - 1])
  }

  function HexEnd(b: Str, p: nat): (q: nat)
    requires p <= |b|
    ensures p <= q <= |b| && AllHex(b[p..q]) && (q < |b| ==> !IsHex(b[q]))
    decreases |b| - p
  {
    if p < |b| && IsHex(b[p]) then HexEnd(b, p + 1) else p
  }

  function ExtensionEnd(b: Str, p: nat): (q: nat)
    requires p <= |b|
    ensures p <= q <= |b| && (q < |b| ==> b[q] == CR || b[q] == LF)
    ensures forall i :: p <= i < q ==> b[i] != CR && b[i] != LF
    decreases |b| - p
  {
    if p < |b| && b[p] != CR && b[p] != LF then ExtensionEnd(b, p + 1) else p
  }

  /** The first CRLF at or after p. */
  function LineEnd(b: Str, p: nat): (q: Option<nat>)
    requires p <= |b|
    ensures q.Some? ==> p <= q.value && HasCrLf(b, q.value)
    ensures forall i :: p <= i < (if q.Some? then q.value else |b|) ==> !HasCrLf(b, i)
    decreases |b| - p
  {
    if p + 2 > |b| then None else if HasCrLf(b, p) then Some(p) else LineEnd(b, p + 1)
  }

  datatype SizeLine = SizeLine(size: nat, end: nat)

  /** A chunk-size line from p: the size and the position after its CRLF. */
  function Size(b: Str, p: nat): (r: Option<SizeLine>)
    requires p <= |b|
    ensures r.Some? ==> p < r.value.end <= |b| && r.value.size <= SIZE_MAX
  {
    var q := HexEnd(b, p);
    if q == p || HexValue(b[p..q]) > SIZE_MAX then None
    else
      var e := if q < |b| && b[q] == ';' as int then ExtensionEnd(b, q) else q;
      if HasCrLf(b, e) then Some(SizeLine(HexValue(b[p..q]), e + 2)) else None
  }

  /** Trailer lines and the empty line from p reach exactly to the end. */
  predicate Trailers(b: Str, p: nat)
    requires p <= |b|
    decreases |b| - p
  {
    var q := LineEnd(b, p);
    q.Some? && if q.value == p then p + 2 == |b| else Trailers(b, q.value + 2)
  }

  /** The data of the chunks from p on, if they and the trailers reach exactly to the end. */
  function Decode(b: Str, p: nat): Option<Str>
    requires p <= |b|
    decreases |b| - p
  {
    match Size(b, p)
    case None => None
    case Some(SizeLine(size, q)) =>
      if size == 0 then if Trailers(b, q) then Some([]) else None
      else if size > |b| - q || !HasCrLf(b, q + size) then None
      else
        After(b[q..q + size], Decode(b, q + size + 2))
  }

  function After(done: Str, rest: Option<Str>): Option<Str> {
    if rest.None? then None else Some(done + rest.value)
  }

  // ----------------------------------------------------------------- implementation

  /** More digits never make a number smaller. */
  lemma {:induction false} HexGrows(s: Str, k: nat)
    requires AllHex(s) && k <= |s|
    ensures HexValue(s[..k]) <= HexValue(s)
    decreases |s|
  {
    if k < |s| {
      var shorter := s[..|s| - 1];
      HexGrows(shorter, k);
      assert shorter[..k] == s[..k];
    } else {
      assert s[..k] == s;
    }
  }

  lemma DigitStep(b: Str, p: nat, q: nat)
    requires p <= q < |b| && AllHex(b[p..q]) && IsHex(b[q])
    ensures AllHex(b[p..q + 1]) && HexValue(b[p..q + 1]) == HexValue(b[p..q]) * 16 + HexVal(b[q])
    ensures HexVal(b[q]) < 16
  {
    var longer := b[p..q + 1];
    assert longer[..q - p] == b[p..q] && longer[q - p] == b[q];
  }

  lemma TooBig(b: Str, p: nat, q: nat)
    requires p <= |b| && p <= q <= HexEnd(b, p) && AllHex(b[p..q]) && HexValue(b[p..q]) > SIZE_MAX
    ensures Size(b, p) == None
  {
    var all := b[p..HexEnd(b, p)];
    HexGrows(all, q - p);
    assert all[..q - p] == b[p..q];
  }

  method ReadDigits(b: Str, p: nat) returns (size: nat, q: nat, ok: bool)
    requires p <= |b|
    ensures ok ==> q == HexEnd(b, p) && size == HexValue(b[p..q]) <= SIZE_MAX
    ensures !ok ==> Size(b, p) == None
  {
    hide HexValue, HexVal, AllHex, Size, HasCrLf;
    q := p;
    size := 0;
    assert AllHex(b[p..q]) && HexValue(b[p..q]) == 0 by { NoDigits(b, p); }
    while q < |b| && IsHex(b[q])
      invariant p <= q <= |b| && AllHex(b[p..q]) && HexEnd(b, q) == HexEnd(b, p)
      invariant size == HexValue(b[p..q]) <= SIZE_MAX
    {
      var digit := HexVal(b[q]);
      DigitStep(b, p, q);
      if size > (SIZE_MAX - digit) / 16 {
        TooBig(b, p, q + 1);
        return size, q, false;
      }
      size := size * 16 + digit;
      q := q + 1;
    }
    return size, q, true;
  }

  lemma NoDigits(b: Str, p: nat)
    requires p <= |b|
    ensures AllHex(b[p..p]) && HexValue(b[p..p]) == 0
  {
  }

  method ReadSize(b: Str, p: nat) returns (size: nat, q: nat, ok: bool)
    requires p <= |b|
    ensures ok <==> Size(b, p).Some?
    ensures ok ==> Size(b, p) == Some(SizeLine(size, q))
  {
    hide HexValue, HexVal, AllHex;
    size, q, ok := ReadDigits(b, p);
    if !ok || q == p { return size, q, false; }
    if q < |b| && b[q] == ';' as int {
      ghost var semicolon := q;
      while q < |b| && b[q] != CR && b[q] != LF
        invariant semicolon <= q <= |b| && ExtensionEnd(b, q) == ExtensionEnd(b, semicolon)
      {
        q := q + 1;
      }
    }
    if |b| - q < 2 || b[q] != CR || b[q + 1] != LF { return size, q, false; }
    return size, q + 2, true;
  }

  method ReadTrailers(b: Str, p: nat) returns (ok: bool)
    requires p <= |b|
    ensures ok == Trailers(b, p)
  {
    var at := p;
    while true
      invariant at <= |b| && Trailers(b, at) == Trailers(b, p)
      decreases |b| - at
    {
      var lineEnd := at;
      while |b| - lineEnd >= 2 && !(b[lineEnd] == CR && b[lineEnd + 1] == LF)
        invariant at <= lineEnd <= |b| && LineEnd(b, lineEnd) == LineEnd(b, at)
      {
        lineEnd := lineEnd + 1;
      }
      if |b| - lineEnd < 2 { return false; }
      if lineEnd == at { return at + 2 == |b|; }
      at := lineEnd + 2;
    }
  }

  lemma DecodeStep(b: Str, p: nat, done: Str)
    requires p <= |b| && Decode(b, 0) == After(done, Decode(b, p)) && Size(b, p).Some?
    ensures var SizeLine(size, q) := Size(b, p).value;
      Decode(b, 0) ==
      if size == 0 then if Trailers(b, q) then Some(done) else None
      else if size > |b| - q || !HasCrLf(b, q + size) then None
      else After(done + b[q..q + size], Decode(b, q + size + 2))
  {
    hide Size, Trailers;
    var SizeLine(size, q) := Size(b, p).value;
    if size == 0 {
      assert done + [] == done;
    } else if size <= |b| - q && HasCrLf(b, q + size) {
      var rest := Decode(b, q + size + 2);
      if rest.Some? { assert done + (b[q..q + size] + rest.value) == done + b[q..q + size] + rest.value; }
    }
  }

  lemma DecodeStuck(b: Str, p: nat, done: Str)
    requires p <= |b| && Decode(b, 0) == After(done, Decode(b, p)) && Size(b, p).None?
    ensures Decode(b, 0) == None
  {
  }

  lemma DecodeStart(b: Str, done: Str)
    requires done == []
    ensures Decode(b, 0) == After(done, Decode(b, 0))
  {
    hide Decode;
    if Decode(b, 0).Some? { assert done + Decode(b, 0).value == Decode(b, 0).value; }
  }

  /**
   Decoding into a buffer of |b| + 1 bytes, of which the last one taken is the terminator:
   every write is in bounds.
   */
  method DechunkBody(b: Str) returns (out: array<Byte>, length: nat, ok: bool)
    ensures fresh(out) && out.Length == |b| + 1
    ensures ok <==> Decode(b, 0).Some?
    ensures ok ==> length < out.Length && out[length] == 0 && out[..length] == Decode(b, 0).value
  {
    hide Size, Trailers, Decode, After;
    out := new Byte[|b| + 1];
    length := 0;
    var p := 0;
    DecodeStart(b, out[..0]);
    while true
      invariant p <= |b| && length <= p && Decode(b, 0) == After(out[..length], Decode(b, p))
      decreases |b| - p
    {
      var size, q, sized := ReadSize(b, p);
      if !sized { DecodeStuck(b, p, out[..length]); return out, length, false; }
      DecodeStep(b, p, out[..length]);
      if size == 0 {
        var closed := ReadTrailers(b, q);
        if !closed { return out, length, false; }
        out[length] := 0;
        return out, length, true;
      }
      if size > |b| - q || size > out.Length - length - 1 { return out, length, false; }
      if |b| - (q + size) < 2 || b[q + size] != CR || b[q + size + 1] != LF { return out, length, false; }
      length := Copy(out, length, b[q..q + size]);
      p := q + size + 2;
    }
  }
}
