/**
 The chunked decoder against its grammar: it accepts exactly the encodings of well-formed
 bodies, and nothing that continues an accepted body, so no strict prefix of one either.
 */
module HttpChunkedProof {
  import opened CText
  import opened HttpChunked

  // -------------------------------------------------------------------- scans are unique

  lemma HexEndIs(t: Str, p: nat, q: nat)
    requires p <= q <= |t| && (forall i :: p <= i < q ==> IsHex(t[i])) && (q < |t| ==> !IsHex(t[q]))
    ensures HexEnd(t, p) == q
  {
    var r := HexEnd(t, p);
    assert forall i :: p <= i < r ==> IsHex(t[p..r][i - p]) && t[p..r][i - p] == t[i];
  }

  lemma ExtensionEndIs(t: Str, p: nat, q: nat)
    requires p <= q < |t| && (forall i :: p <= i < q ==> t[i] != CR && t[i] != LF) && t[q] == CR
    ensures ExtensionEnd(t, p) == q
  {
  }

  lemma LineEndIs(t: Str, p: nat, q: nat)
    requires p <= q && HasCrLf(t, q) && forall i :: p <= i < q ==> !HasCrLf(t, i)
    ensures LineEnd(t, p) == Some(q)
  {
    var r := LineEnd(t, p);
    var first := if r.Some? then r.value else |t|;
    assert q < first ==> !HasCrLf(t, q);
  }

  // -------------------------------------------------------------- encodings are accepted

  lemma ExtensionShows(t: Str, q: nat, extension: Str)
    requires Reads(t, q, extension) && HasCrLf(t, q + |extension|) && IsExtension(extension)
    ensures q < |t| && !IsHex(t[q])
    ensures (if t[q] == ';' as int then ExtensionEnd(t, q) else q) == q + |extension|
  {
    var e := q + |extension|;
    if extension != [] {
      forall i | q <= i < e ensures t[i] == extension[i - q] { ReadsEach(t, q, extension, i - q); }
      ExtensionEndIs(t, q, e);
    }
  }

  lemma DigitsShow(t: Str, p: nat, size: Str)
    requires Reads(t, p, size) && AllHex(size) && p + |size| < |t| && !IsHex(t[p + |size|])
    ensures HexEnd(t, p) == p + |size| && t[p..p + |size|] == size
  {
    forall i | p <= i < p + |size| ensures IsHex(t[i]) { ReadsEach(t, p, size, i - p); }
    HexEndIs(t, p, p + |size|);
  }

  /** Digits of either case are read as their number. */
  lemma {:induction false} SpeltHex(ns: Nibbles)
    ensures AllHex(HexSpelt(ns)) && HexValue(HexSpelt(ns)) == Base16(ns)
    decreases |ns|
  {
    hide IsHex, HexVal, HexChar;
    var s := HexSpelt(ns);
    forall i | 0 <= i < |s| ensures IsHex(s[i]) { HexCharReads(ns[i]); }
    if ns != [] {
      var n := |ns| - 1;
      SpeltHex(ns[..n]);
      HexCharReads(ns[n]);
      assert s[..n] == HexSpelt(ns[..n]);
    }
  }

  lemma {:induction false} DigitsOf(s: Str) returns (ns: Nibbles)
    requires AllHex(s)
    ensures HexSpelt(ns) == s
    decreases |s|
  {
    ns := [];
    if s != [] {
      var rest := DigitsOf(s[1..]);
      var first := NibbleOf(s[0]);
      ns := [first] + rest;
      assert ns[1..] == rest;
    }
  }

  lemma SizeShows(t: Str, p: nat, size: Str, extension: Str)
    requires Reads(t, p, size) && Reads(t, p + |size|, extension) && HasCrLf(t, p + |size| + |extension|)
    requires size != [] && AllHex(size) && HexValue(size) <= SIZE_MAX && IsExtension(extension)
    ensures Size(t, p) == Some(SizeLine(HexValue(size), p + |size| + |extension| + 2))
  {
    hide HexValue, AllHex, Reads, IsExtension, HexEnd, ExtensionEnd;
    ExtensionShows(t, p + |size|, extension);
    DigitsShow(t, p, size);
  }

  lemma LineShows(t: Str, p: nat, line: Str)
    requires Reads(t, p, line) && HasCrLf(t, p + |line|) && IsLine(line)
    ensures LineEnd(t, p) == Some(p + |line|)
  {
    var q := p + |line|;
    forall i | p <= i < q ensures !HasCrLf(t, i) {
      assert !HasCrLf(line, i - p);
      ReadsEach(t, p, line, i - p);
      if i + 1 < q { ReadsEach(t, p, line, i + 1 - p); }
    }
    LineEndIs(t, p, q);
  }

  lemma {:induction false} TrailersShow(t: Str, p: nat, lines: seq<Str>)
    requires Reads(t, p, EncodeTrailers(lines)) && p + |EncodeTrailers(lines)| == |t| && AreTrailers(lines)
    ensures Trailers(t, p)
    decreases |lines|
  {
    hide Reads, HasCrLf, IsLine;
    if lines == [] {
      ReadsCrLf(t, p);
      EmptyLine(t, p);
    } else {
      var q := p + |lines[0]|;
      ReadsBoth(t, p, lines[0] + CRLF, EncodeTrailers(lines[1..]));
      ReadsBoth(t, p, lines[0], CRLF);
      ReadsCrLf(t, q);
      LineShows(t, p, lines[0]);
      TrailersShow(t, q + 2, lines[1..]);
    }
  }

  lemma EmptyLine(t: Str, p: nat)
    requires HasCrLf(t, p)
    ensures LineEnd(t, p) == Some(p)
  {
  }

  lemma {:induction false} ChunksDecode(t: Str, p: nat, chunks: seq<Chunk>, last: Body)
    requires Reads(t, p, EncodeFrom(chunks, last)) && p + |EncodeFrom(chunks, last)| == |t| <= SIZE_MAX
    requires AreChunks(chunks) && WellFormed(last)
    ensures Decode(t, p) == Some(DataOf(chunks))
    decreases |chunks|
  {
    hide HexValue, Size, Trailers, IsExtension, AllHex, Reads, HasCrLf, HexSpelt, Base16;
    if chunks == [] {
      var zeros := HexSpelt(last.zeros);
      SpeltHex(last.zeros);
      HeadReads(t, p, zeros, last.extension, EncodeTrailers(last.trailers));
      SizeShows(t, p, zeros, last.extension);
      TrailersShow(t, p + |zeros| + |last.extension| + 2, last.trailers);
    } else {
      var c := chunks[0];
      var tail := EncodeFrom(chunks[1..], last);
      SameJoin(c, tail);
      var size := HexSpelt(c.size);
      SpeltHex(c.size);
      HeadReads(t, p, size, c.extension, c.data + CRLF + tail);
      SizeShows(t, p, size, c.extension);
      var q := p + |size| + |c.extension| + 2;
      ReadsBoth(t, q, c.data + CRLF, tail);
      ReadsBoth(t, q, c.data, CRLF);
      ReadsCrLf(t, q + |c.data|);
      ChunksDecode(t, q + |c.data| + 2, chunks[1..], last);
      assert t[q..q + |c.data|] == c.data by { ReadsSlice(t, q, c.data); }
    }
  }

  lemma SameJoin(c: Chunk, tail: Str)
    ensures HexSpelt(c.size) + c.extension + CRLF + c.data + CRLF + tail ==
            HexSpelt(c.size) + c.extension + CRLF + (c.data + CRLF + tail)
  {
  }

  lemma ReadsSlice(t: Str, p: nat, word: Str)
    requires Reads(t, p, word)
    ensures p + |word| <= |t| && t[p..p + |word|] == word
  {
  }

  lemma HeadReads(t: Str, p: nat, size: Str, extension: Str, rest: Str)
    requires Reads(t, p, size + extension + CRLF + rest)
    ensures Reads(t, p, size) && Reads(t, p + |size|, extension)
    ensures HasCrLf(t, p + |size| + |extension|) && Reads(t, p + |size| + |extension| + 2, rest)
  {
    hide Reads, HasCrLf;
    ReadsBoth(t, p, size + extension + CRLF, rest);
    ReadsBoth(t, p, size + extension, CRLF);
    ReadsBoth(t, p, size, extension);
    ReadsCrLf(t, p + |size| + |extension|);
  }

  // ------------------------------------------------------ accepted texts are encodings

  lemma SizeSplits(t: Str, p: nat) returns (size: Str, extension: Str)
    requires p <= |t| && Size(t, p).Some?
    ensures var line := Size(t, p).value;
      size != [] && AllHex(size) && HexValue(size) == line.size && IsExtension(extension) &&
      line.end <= |t| && t[p..] == size + extension + CRLF + t[line.end..]
  {
    hide HexValue, AllHex;
    var q := HexEnd(t, p);
    var e := if q < |t| && t[q] == ';' as int then ExtensionEnd(t, q) else q;
    size, extension := t[p..q], t[q..e];
    LinePieces(t, p, q, e);
  }

  lemma LinePieces(t: Str, p: nat, q: nat, e: nat)
    requires p <= q <= e && HasCrLf(t, e)
    ensures t[p..] == t[p..q] + t[q..e] + CRLF + t[e + 2..]
  {
    assert t[e..e + 2] == CRLF;
    assert t[p..] == t[p..q] + t[q..e] + t[e..e + 2] + t[e + 2..];
  }

  lemma {:induction false} TrailersSplit(t: Str, p: nat) returns (lines: seq<Str>)
    requires p <= |t| && Trailers(t, p)
    ensures AreTrailers(lines) && t[p..] == EncodeTrailers(lines)
    decreases |t| - p
  {
    var q := LineEnd(t, p).value;
    assert t[q..q + 2] == CRLF;
    if q == p {
      lines := [];
      assert t[p..] == t[q..q + 2];
    } else {
      var rest := TrailersSplit(t, q + 2);
      lines := [t[p..q]] + rest;
      assert lines[1..] == rest;
      forall i | 0 <= i < |t[p..q]| ensures !HasCrLf(t[p..q], i) { assert !HasCrLf(t, p + i); }
      assert t[p..] == t[p..q] + t[q..q + 2] + t[q + 2..];
    }
  }

  lemma {:induction false} DecodedSplits(t: Str, p: nat) returns (chunks: seq<Chunk>, last: Body)
    requires p <= |t| && Decode(t, p).Some?
    ensures AreChunks(chunks) && WellFormed(last) && last.chunks == [] && t[p..] == EncodeFrom(chunks, last)
    ensures DataOf(chunks) == Decode(t, p).value
    decreases |t| - p
  {
    hide HexValue, Size, Trailers, IsExtension, AllHex, HasCrLf, HexSpelt, Base16;
    var text, extension := SizeSplits(t, p);
    var size := DigitsOf(text);
    SpeltHex(size);
    var SizeLine(n, q) := Size(t, p).value;
    if n == 0 {
      var lines := TrailersSplit(t, q);
      chunks, last := [], Body([], size, extension, lines);
    } else {
      var e := q + n;
      var rest;
      rest, last := DecodedSplits(t, e + 2);
      var c := Chunk(size, extension, t[q..e]);
      chunks := [c] + rest;
      assert chunks[1..] == rest;
      DataSplits(t, q, e);
      SameJoin(c, t[e + 2..]);
    }
  }

  lemma DataSplits(t: Str, q: nat, e: nat)
    requires q <= e && HasCrLf(t, e)
    ensures t[q..] == t[q..e] + CRLF + t[e + 2..]
  {
    assert t[e..e + 2] == CRLF;
    assert t[q..] == t[q..e] + t[e..e + 2] + t[e + 2..];
  }

  lemma EncodeOnlyReadsLast(chunks: seq<Chunk>, a: Body, b: Body)
    requires a.zeros == b.zeros && a.extension == b.extension && a.trailers == b.trailers
    ensures EncodeFrom(chunks, a) == EncodeFrom(chunks, b)
  {
  }

  ghost predicate Encodes(t: Str, body: Body, data: Str) {
    WellFormed(body) && Encode(body) == t && DataOf(body.chunks) == data
  }

  /**
   The decoder accepts a text of any size the C type can hold exactly if it is the encoding of a
   well-formed chunked body, and the data it returns is that of every such body.
   */
  lemma DecodesExactlyEncodings(t: Str, data: Str)
    requires |t| <= 18446744073709551615
    ensures Decode(t, 0) == Some(data) <==> exists body :: Encodes(t, body, data)
  {
    hide Decode, AreChunks, EncodeFrom, DataOf;
    assert t[0..] == t;
    if Decode(t, 0) == Some(data) {
      var chunks, last := DecodedSplits(t, 0);
      var body := last.(chunks := chunks);
      EncodeOnlyReadsLast(chunks, last, body);
      assert Encodes(t, body, data);
    }
    if body :| Encodes(t, body, data) {
      ChunksDecode(t, 0, body.chunks, body);
    }
  }

  // ----------------------------------------------------------------- no early acceptance

  lemma SizeExtends(a: Str, x: Str, p: nat)
    requires p <= |a| && Size(a, p).Some?
    ensures Size(a + x, p) == Size(a, p)
  {
    hide HexValue;
    var q := HexEnd(a, p);
    var e := if q < |a| && a[q] == ';' as int then ExtensionEnd(a, q) else q;
    forall i | p <= i < q ensures IsHex((a + x)[i]) { assert a[p..q][i - p] == a[i]; }
    HexEndIs(a + x, p, q);
    assert (a + x)[p..q] == a[p..q];
    if a[q] == ';' as int { ExtensionEndIs(a + x, q, e); }
  }

  lemma {:induction false} TrailersEnd(a: Str, x: Str, p: nat)
    requires p <= |a| && Trailers(a, p) && x != []
    ensures !Trailers(a + x, p)
    decreases |a| - p
  {
    var q := LineEnd(a, p).value;
    forall i | p <= i < q ensures !HasCrLf(a + x, i) { assert !HasCrLf(a, i); }
    assert HasCrLf(a + x, q);
    LineEndIs(a + x, p, q);
    if q != p { TrailersEnd(a, x, q + 2); }
  }

  /** Whatever follows an accepted body makes it refused. */
  lemma {:induction false} ExtensionRefused(a: Str, x: Str, p: nat)
    requires p <= |a| && Decode(a, p).Some? && x != []
    ensures Decode(a + x, p) == None
    decreases |a| - p
  {
    hide Size, Trailers;
    SizeExtends(a, x, p);
    var SizeLine(size, q) := Size(a, p).value;
    if size == 0 {
      TrailersEnd(a, x, q);
    } else {
      assert HasCrLf(a + x, q + size);
      ExtensionRefused(a, x, q + size + 2);
    }
  }

  /** Every strict prefix of an accepted body is refused: a truncated body never passes. */
  lemma PrefixRefused(t: Str, k: nat)
    requires k < |t| && Decode(t, 0).Some?
    ensures Decode(t[..k], 0) == None
  {
    hide Decode;
    assert t[..k] + t[k..] == t;
    if Decode(t[..k], 0).Some? { ExtensionRefused(t[..k], t[k..], 0); }
  }
}
