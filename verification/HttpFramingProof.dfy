/**
 The early scan against the final parser, on every header section of CRLF-delimited lines:
 when the scan stops the reading, the parser accepts exactly the declared bytes, for the
 buffer as it is and for every longer one.
 */
module HttpFramingProof {
  import opened CText
  import opened HttpChunked
  import HttpChunkedProof
  import opened HttpFraming

  predicate Plain(s: Str) { forall i :: 0 <= i < |s| ==> s[i] != 0 && s[i] != CR && s[i] != LF }

  predicate PlainLines(lines: seq<Str>) {
    lines == [] || (lines[0] != [] && Plain(lines[0]) && PlainLines(lines[1..]))
  }

  function Joined(lines: seq<Str>): Str {
    if lines == [] then [] else lines[0] + CRLF + Joined(lines[1..])
  }

  /** The status line, the field lines and the empty line. */
  function Section(status: Str, lines: seq<Str>): Str { Joined([status] + lines) + CRLF }

  predicate IsStatusLine(s: Str) {
    |s| >= 13 && Plain(s) && Status(s).Some? && Status(s).value > 0
  }

  function Folded(lines: seq<Str>, fields: Fields): Option<Fields> {
    if lines == [] then Some(fields)
    else
      match Field(lines[0] + [CR], fields)
      case None => None
      case Some(next) => Folded(lines[1..], next)
  }

  /** The Content-Length fields alone. */
  function Declared(lines: seq<Str>, found: Option<nat>): Lengths {
    if lines == [] then Lengths(found)
    else if !Names(lines[0], CONTENT_LENGTH) then Declared(lines[1..], found)
    else
      match Agree(found, Length(lines[0][15..] + [CR]))
      case Refused => Refused
      case Lengths(next) => Declared(lines[1..], next)
  }

  lemma NamesBeforeCr(line: Str, word: Str)
    requires CR !in word
    ensures Names(line + [CR], word) <==> Names(line, word)
  {
    var longer := line + [CR];
    assert |word| == |line| + 1 ==> word[|line|] in word && longer[|line|] == CR;
  }

  lemma NoCrInNames()
    ensures CR !in CONTENT_LENGTH && |CONTENT_LENGTH| == 15
  {
  }

  lemma FieldAgrees(line: Str, fields: Fields)
    ensures var next := Field(line + [CR], fields);
      if !Names(line, CONTENT_LENGTH) then next.Some? && next.value.length == fields.length
      else
        var value := Agree(fields.length, Length(line[15..] + [CR]));
        if value.Refused? then next == None else next.Some? && next.value.length == value.found
  {
    hide Length, NamesChunked;
    NoCrInNames();
    NamesBeforeCr(line, CONTENT_LENGTH);
    ShortNames(line + [CR]);
    if Names(line, CONTENT_LENGTH) { assert (line + [CR])[15..] == line[15..] + [CR]; }
  }

  /** Scan and parser read the same length out of the same lines. */
  lemma {:induction false} FoldsAgree(lines: seq<Str>, fields: Fields)
    ensures var folded := Folded(lines, fields);
      var declared := Declared(lines, fields.length);
      if declared.Refused? then folded == None
      else folded.Some? && folded.value.length == declared.found
    decreases |lines|
  {
    hide Field, Length, Names;
    if lines != [] {
      FieldAgrees(lines[0], fields);
      var next := Field(lines[0] + [CR], fields);
      if next.Some? { FoldsAgree(lines[1..], next.value); }
    }
  }

  // ------------------------------------------------------------------ where lines end

  lemma LfIs(t: Str, p: nat, q: nat)
    requires p <= q < |t| && t[q] == LF && forall i :: p <= i < q ==> t[i] != LF
    ensures FindLf(t, p) == Some(q)
    decreases q - p
  {
    if p < q { LfIs(t, p + 1, q); }
  }

  lemma BreakIs(b: Text, p: nat, q: nat)
    requires p <= q && HasCrLf(b, q) && forall i :: p <= i < q ==> b[i] != 0 && b[i] != CR
    ensures Break(b, p) == Some(q)
    decreases q - p
  {
    if p < q { BreakIs(b, p + 1, q); }
  }

  /** A plain line at p is read up to its CRLF by strstr and up to its LF by memchr. */
  lemma LineAt(t: Str, p: nat, line: Str)
    requires Reads(t, p, line + CRLF) && Plain(line)
    ensures var q := p + |line|;
      HasCrLf(t, q) && t[p..q] == line && FindLf(t, p) == Some(q + 1) && t[p..q + 1] == line + [CR]
    ensures forall i :: p <= i < p + |line| ==> t[i] != 0 && t[i] != CR
  {
    var q := p + |line|;
    ReadsBoth(t, p, line, CRLF);
    ReadsCrLf(t, q);
    forall i | p <= i < q ensures t[i] == line[i - p] { ReadsEach(t, p, line, i - p); }
    LfIs(t, p, q + 1);
    assert t[p..q + 1] == t[p..q] + [t[q]];
  }

  lemma JoinedSplits(t: Str, p: nat, lines: seq<Str>)
    requires lines != [] && Reads(t, p, Joined(lines))
    ensures Reads(t, p, lines[0] + CRLF) && Reads(t, p + |lines[0]| + 2, Joined(lines[1..]))
  {
    hide Reads;
    ReadsBoth(t, p, lines[0] + CRLF, Joined(lines[1..]));
  }

  lemma LineStart(t: Str, p: nat, lines: seq<Str>)
    requires lines != [] && PlainLines(lines) && Reads(t, p, Joined(lines))
    ensures p < |t| && t[p] != CR
  {
    hide Reads, Joined;
    JoinedSplits(t, p, lines);
    ReadsBoth(t, p, lines[0], CRLF);
    ReadsEach(t, p, lines[0], 0);
    InBounds(t, p, lines[0]);
  }

  lemma InBounds(t: Str, p: nat, word: Str)
    requires Reads(t, p, word)
    ensures p + |word| <= |t|
  {
  }

  // ------------------------------------------------------------------------ parser

  lemma EmptyLineEnds(t: Str, p: nat, fields: Fields)
    requires HasCrLf(t, p)
    ensures Headers(t, p, fields) == Some(Head(p + 2, fields))
    ensures Headers(t, p + 1, fields) == Some(Head(p + 2, fields))
  {
    assert FindLf(t, p + 1) == Some(p + 1) && t[p + 1..p + 1] == [];
    assert FindLf(t, p) == Some(p + 1) && t[p..p + 1] == [CR];
  }

  lemma {:induction false} HeadersFold(t: Str, p: nat, lines: seq<Str>, fields: Fields)
    requires Reads(t, p, Joined(lines)) && HasCrLf(t, p + |Joined(lines)|) && PlainLines(lines)
    ensures Headers(t, p, fields) ==
      match Folded(lines, fields) {
        case None => None
        case Some(f) => Some(Head(p + |Joined(lines)| + 2, f))
      }
    decreases |lines|
  {
    hide Reads, Field, FindLf;
    if lines == [] {
      EmptyLineEnds(t, p, fields);
    } else {
      var line := lines[0];
      var rest := lines[1..];
      JoinedSplits(t, p, lines);
      LineAt(t, p, line);
      var q := p + |line| + 2;
      assert !Ends(line + [CR]) by { assert |line + [CR]| > 1; }
      var next := Field(line + [CR], fields);
      if next.Some? {
        if rest == [] {
          EmptyLineEnds(t, q, next.value);
        } else {
          LineStart(t, q, rest);
        }
        HeadersFold(t, q, rest, next.value);
      }
    }
  }

  // -------------------------------------------------------------------------- scan

  lemma {:induction false} ScanFolds(b: Text, p: nat, lines: seq<Str>, end: nat, found: Option<nat>)
    requires Reads(b, p, Joined(lines)) && PlainLines(lines)
    requires p + |Joined(lines)| == end + 2 < |b|
    ensures ScanLines(b, p, end, found) == Declared(lines, found)
    decreases |lines|
  {
    hide Reads, Length, Names, FindLf, Break;
    if lines != [] {
      var line := lines[0];
      JoinedSplits(b, p, lines);
      LineAt(b, p, line);
      var q := p + |line|;
      BreakIs(b, p, q);
      if Names(line, CONTENT_LENGTH) {
        ShortName(line);
        ValueBytes(b, p, line);
        var value := Agree(found, Length(line[15..] + [CR]));
        if value.Lengths? { ScanFolds(b, q + 2, lines[1..], end, value.found); }
      } else {
        ScanFolds(b, q + 2, lines[1..], end, found);
      }
    }
  }

  lemma ValueBytes(b: Text, p: nat, line: Str)
    requires |line| >= 15 && p + |line| < |b| && b[p..p + |line|] == line && b[p + |line|] == CR
    ensures b[p + 15..p + |line| + 1] == line[15..] + [CR]
  {
    var q := p + |line|;
    assert b[p + 15..q] == b[p..q][15..];
    assert b[p + 15..q + 1] == b[p + 15..q] + [b[q]];
  }

  predicate EmptyLineAfter(b: Str, k: nat) { HasCrLf(b, k) && HasCrLf(b, k + 2) }

  lemma HeaderEndIs(b: Str, len: nat, i: nat, k: nat)
    requires 3 <= i <= k + 3 < len <= |b| && EmptyLineAfter(b, k)
    requires forall j :: i - 3 <= j < k ==> !EmptyLineAfter(b, j)
    ensures HeaderEnd(b, len, i) == k + 4
    decreases k + 3 - i
  {
    if i < k + 3 {
      assert !EmptyLineAfter(b, i - 3);
      HeaderEndIs(b, len, i + 1, k);
    }
  }

  /** No empty line starts inside non-empty plain lines. */
  lemma {:induction false} NoEmptyLine(b: Str, p: nat, lines: seq<Str>, k: nat)
    requires Reads(b, p, Joined(lines)) && PlainLines(lines)
    requires p <= k && k + 2 < p + |Joined(lines)|
    ensures !EmptyLineAfter(b, k)
    decreases |lines|
  {
    hide Reads, FindLf;
    var line := lines[0];
    JoinedSplits(b, p, lines);
    LineAt(b, p, line);
    var q := p + |line|;
    if k == q {
      LineStart(b, q + 2, lines[1..]);
    } else if k > q + 1 {
      NoEmptyLine(b, q + 2, lines[1..], k);
    }
  }

  // ------------------------------------------------------------------------ theorems

  lemma SectionReads(status: Str, lines: seq<Str>, rest: Str)
    requires IsStatusLine(status)
    ensures var t := Section(status, lines) + rest;
      var n := |Joined([status] + lines)|;
      Reads(t, 0, Joined([status] + lines)) && HasCrLf(t, n) && t[n + 2..] == rest && n + 2 <= |t| &&
      Reads(t, |status| + 2, Joined(lines)) && n == |status| + 2 + |Joined(lines)| &&
      FindLf(t, 0) == Some(|status| + 1) && Status(t) == Status(status)
  {
    hide IsStatusLine;
    var all := [status] + lines;
    var t := Section(status, lines) + rest;
    assert all[1..] == lines && all[0] == status;
    assert t == Joined(all) + (CRLF + rest);
    JoinReads(Joined(all), CRLF, rest);
    JoinedSplits(t, 0, all);
    StatusPlain(status);
    LineAt(t, 0, status);
    assert t[..|status|][..13] == t[..13];
    StatusPrefix(t, status);
  }

  lemma StatusPlain(status: Str)
    requires IsStatusLine(status)
    ensures Plain(status) && |status| >= 13
  {
  }

  lemma StatusPrefix(t: Str, status: Str)
    requires |t| >= |status| >= 13 && t[..|status|] == status
    ensures Status(t) == Status(status)
  {
    assert t[..7] == t[..|status|][..7];
    assert forall i :: 0 <= i < 13 ==> t[i] == t[..|status|][i];
  }

  lemma JoinReads(a: Str, b: Str, c: Str)
    ensures Reads(a + b + c, 0, a) && Reads(a + b + c, |a|, b) && (a + b + c)[|a| + |b|..] == c
    ensures a + b + c == a + (b + c)
    ensures b == CRLF ==> HasCrLf(a + b + c, |a|)
  {
    var t := a + b + c;
    assert t[0..|a|] == a && t[|a|..|a| + |b|] == b;
  }

  /** What the parser is meant to make of a header section and the bytes after it. */
  function Framed(status: nat, fields: Option<Fields>, body: Str, closed: bool): Option<Response> {
    if fields.None? then None
    else if fields.value.chunked then
      if Decode(body, 0).None? then None else Some(Response(status, Decode(body, 0).value))
    else if fields.value.length.Some? then
      if fields.value.length.value > |body| then None
      else Some(Response(status, body[..fields.value.length.value]))
    else if closed then Some(Response(status, body))
    else None
  }

  lemma ParseSection(status: Str, lines: seq<Str>, body: Str, closed: bool)
    requires IsStatusLine(status) && PlainLines(lines)
    ensures Parse(Section(status, lines) + body, closed) ==
      Framed(Status(status).value, Folded(lines, Fields(None, false)), body, closed)
  {
    hide Reads, Joined, FindLf, Section, Headers, Folded, Status, Decode;
    SectionReads(status, lines, body);
    HeadersFold(Section(status, lines) + body, |status| + 2, lines, Fields(None, false));
  }

  /** The early scan stops exactly when one agreed Content-Length fits what has arrived. */
  lemma CompleteSection(status: Str, lines: seq<Str>, body: Str)
    requires IsStatusLine(status) && PlainLines(lines)
    ensures var declared := Declared(lines, None);
      Complete(Section(status, lines) + body + [0]) <==>
        declared.Lengths? && declared.found.Some? && declared.found.value <= |body|
  {
    hide Reads, Joined, ScanLines, HeaderEnd, Declared, Section, EmptyLineAfter, FindLf, Status;
    var all := [status] + lines;
    var n := |Joined(all)|;
    var b: Text := Section(status, lines) + body + [0];
    assert b == Section(status, lines) + (body + [0]);
    SectionReads(status, lines, body + [0]);
    AllPlain(status, lines);
    FirstEmptyLine(b, all);
    assert |b| == n + 2 + |body| + 1 by { assert |b[n + 2..]| == |body + [0]|; }
    ScanFolds(b, 0, all, n - 2, None);
    StatusIsNoLength(status, lines);
  }

  lemma AllPlain(status: Str, lines: seq<Str>)
    requires IsStatusLine(status) && PlainLines(lines)
    ensures PlainLines([status] + lines)
  {
    assert ([status] + lines)[1..] == lines;
  }

  lemma StatusIsNoLength(status: Str, lines: seq<Str>)
    requires IsStatusLine(status)
    ensures Declared([status] + lines, None) == Declared(lines, None)
  {
    hide Length;
    assert ([status] + lines)[1..] == lines;
    assert status[..7][0] == status[0];
    assert Lower(status[0]) != CONTENT_LENGTH[0];
  }

  lemma FirstEmptyLine(b: Text, all: seq<Str>)
    requires all != [] && PlainLines(all) && Reads(b, 0, Joined(all)) && HasCrLf(b, |Joined(all)|)
    requires |Joined(all)| + 2 < |b|
    ensures |Joined(all)| >= 2 && HeaderEnd(b, |b| - 1, 3) == |Joined(all)| + 2
  {
    hide Reads, Joined, EmptyLineAfter;
    var n := |Joined(all)|;
    LastLine(b, 0, all);
    forall j | 0 <= j < n - 2 ensures !EmptyLineAfter(b, j) { NoEmptyLine(b, 0, all, j); }
    HeaderEndIs(b, |b| - 1, 3, n - 2);
  }

  lemma {:induction false} LastLine(b: Text, p: nat, lines: seq<Str>)
    requires lines != [] && PlainLines(lines) && Reads(b, p, Joined(lines)) && HasCrLf(b, p + |Joined(lines)|)
    ensures |Joined(lines)| >= 2 && EmptyLineAfter(b, p + |Joined(lines)| - 2)
    decreases |lines|
  {
    hide Reads, FindLf;
    JoinedSplits(b, p, lines);
    LineAt(b, p, lines[0]);
    if lines[1..] != [] { LastLine(b, p + |lines[0]| + 2, lines[1..]); }
  }

  /**
   Stopping early is safe: if the scan says the response is complete and no field names the
   chunked coding, the parser returns exactly the declared bytes, whether or not the peer has
   closed the connection and whatever else arrives.
   */
  lemma EarlyStopIsFinal(status: Str, lines: seq<Str>, body: Str, more: Str, closed: bool)
    requires IsStatusLine(status) && PlainLines(lines)
    requires Complete(Section(status, lines) + body + [0])
    ensures var fields := Folded(lines, Fields(None, false));
      fields.Some? && fields.value.length.Some? && fields.value.length.value <= |body| &&
      (!fields.value.chunked ==>
         Parse(Section(status, lines) + body + more, closed) ==
         Some(Response(Status(status).value, body[..fields.value.length.value])))
  {
    hide Section, Folded, Complete, Declared, Decode, Parse, Status;
    CompleteSection(status, lines, body);
    FoldsAgree(lines, Fields(None, false));
    ParseSection(status, lines, body + more, closed);
    assert Section(status, lines) + body + more == Section(status, lines) + (body + more);
    var fields := Folded(lines, Fields(None, false));
    assert (body + more)[..fields.value.length.value] == body[..fields.value.length.value];
  }

  /** The parser's answer is the declared bytes now and for every longer buffer. */
  ghost predicate Final(status: Str, lines: seq<Str>, body: Str, length: nat, closed: bool)
    requires IsStatusLine(status) && length <= |body|
  {
    forall more: Str :: Parse(Section(status, lines) + (body + more), closed) ==
                        Some(Response(Status(status).value, body[..length]))
  }

  /**
   The early stop is safe exactly when no field names the chunked coding: the scan looks at
   Content-Length alone, while the parser would decode chunks from whatever had arrived.
   */
  lemma EarlyStopExact(status: Str, lines: seq<Str>, body: Str, closed: bool)
    requires IsStatusLine(status) && PlainLines(lines)
    requires Complete(Section(status, lines) + body + [0])
    ensures var fields := Folded(lines, Fields(None, false));
      fields.Some? && fields.value.length.Some? && fields.value.length.value <= |body| &&
      (Final(status, lines, body, fields.value.length.value, closed) <==> !fields.value.chunked)
  {
    hide Section, Folded, Complete, Declared, Decode, Parse, Status;
    EarlyStopIsFinal(status, lines, body, [], closed);
    var fields := Folded(lines, Fields(None, false)).value;
    if fields.chunked {
      var body0 := body + [];
      var body1 := body + [0];
      ParseSection(status, lines, body0, closed);
      ParseSection(status, lines, body1, closed);
      assert body0 == body;
      if Decode(body, 0).Some? { HttpChunkedProof.ExtensionRefused(body, [0], 0); }
      assert Parse(Section(status, lines) + body0, closed) == None ||
             Parse(Section(status, lines) + body1, closed) == None;
    } else {
      forall more: Str
        ensures Parse(Section(status, lines) + (body + more), closed) ==
                Some(Response(Status(status).value, body[..fields.length.value]))
      {
        EarlyStopIsFinal(status, lines, body, more, closed);
        assert Section(status, lines) + body + more == Section(status, lines) + (body + more);
      }
    }
  }

  // ------------------------------------------------------ a response the early stop cuts

  const STATUS_OK: Str := Bytes("HTTP/1.1 200 OK")
  const ONE_BYTE: Str := Bytes("Content-Length: 1")
  const IN_CHUNKS: Str := Bytes("Transfer-Encoding: chunked")
  const NO_CHUNKS: Str := Bytes("0") + CRLF + CRLF

  lemma OneByteField()
    ensures Plain(ONE_BYTE) && Names(ONE_BYTE, CONTENT_LENGTH) && Length(ONE_BYTE[15..] + [CR]) == Some(1)
  {
    var value := ONE_BYTE[15..] + [CR];
    assert value == [' ' as int] + ['1' as int] + [] + [CR];
    assert Decimal(['1' as int]) == 1 by { assert ['1' as int][..0] == []; }
    assert SpellsLength(value, [' ' as int], ['1' as int], [], [CR]);
    SpeltLength(value, [' ' as int], ['1' as int], [], [CR]);
  }

  lemma InChunksField(fields: Fields)
    ensures Plain(IN_CHUNKS) && !Names(IN_CHUNKS, CONTENT_LENGTH)
    ensures Field(IN_CHUNKS + [CR], fields) == Some(Fields(fields.length, true))
  {
    hide NamesChunked, Length, Bytes;
    var line := IN_CHUNKS + [CR];
    assert IN_CHUNKS[0] == 'T' as int && CONTENT_LENGTH[0] == 'c' as int;
    assert Names(line, TRANSFER_ENCODING) && line[18..] == CHUNKED_VALUE;
    ChunkedValue();
  }

  const CHUNKED_VALUE: Str := Bytes(" chunked") + [CR]

  lemma ChunkedValue()
    ensures NamesChunked(CHUNKED_VALUE, 0)
  {
    var value := CHUNKED_VALUE;
    assert value[0] == ' ' as int && value[1] == 'c' as int && value[8] == CR;
    assert TokenStart(value, 0) == TokenStart(value, 1) == 1;
    assert forall i :: 1 <= i < 8 ==> value[i] == CHUNKED[i - 1] && !EndsToken(value[i]);
    TokenRuns(value, 1, 8);
  }

  lemma TokenRuns(s: Str, p: nat, q: nat)
    requires p <= q <= |s| && (forall i :: p <= i < q ==> !EndsToken(s[i])) && (q < |s| ==> EndsToken(s[q]))
    ensures TokenEnd(s, p) == q
    decreases q - p
  {
    if p < q { TokenRuns(s, p + 1, q); }
  }

  lemma NoChunksDecode()
    ensures Decode(Bytes("0"), 0) == None && Decode(NO_CHUNKS, 0) == Some([])
  {
    assert HexEnd(Bytes("0"), 0) == HexEnd(Bytes("0"), 1) == 1;
    assert HexEnd(NO_CHUNKS, 0) == HexEnd(NO_CHUNKS, 1) == 1;
    assert NO_CHUNKS[..1] == ['0' as int];
    assert HexValue(['0' as int]) == 0 by { assert ['0' as int][..0] == []; }
    assert HasCrLf(NO_CHUNKS, 1) && HasCrLf(NO_CHUNKS, 3);
    assert LineEnd(NO_CHUNKS, 3) == Some(3);
  }

  lemma TwoFields()
    ensures var lines := [ONE_BYTE, IN_CHUNKS];
      PlainLines(lines) && Declared(lines, None) == Lengths(Some(1)) &&
      Folded(lines, Fields(None, false)) == Some(Fields(Some(1), true))
  {
    hide Names, Field, Length, Plain;
    var lines := [ONE_BYTE, IN_CHUNKS];
    assert lines[1..] == [IN_CHUNKS] && [IN_CHUNKS][1..] == [];
    OneByteField();
    var first := Field(ONE_BYTE + [CR], Fields(None, false));
    FieldAgrees(ONE_BYTE, Fields(None, false));
    InChunksField(first.value);
    assert PlainLines([IN_CHUNKS]) && PlainLines(lines);
    assert Declared([IN_CHUNKS], Some(1)) == Declared([], Some(1)) == Lengths(Some(1));
    assert Folded([IN_CHUNKS], first.value) == Folded([], Fields(Some(1), true)) == Some(Fields(Some(1), true));
  }

  /**
   The unsafe side of EarlyStopExact on a response with both fields: with one byte of its body the
   scan stops the reading, the parser refuses what has arrived, and the whole body would be accepted.
   */
  lemma EarlyStopCutsChunks(closed: bool)
    ensures var section := Section(STATUS_OK, [ONE_BYTE, IN_CHUNKS]);
      Complete(section + Bytes("0") + [0]) && Parse(section + Bytes("0"), closed) == None &&
      Parse(section + NO_CHUNKS, closed) == Some(Response(200, []))
    ensures Bytes("0") <= NO_CHUNKS
  {
    hide Section, Complete, Parse, Declared, Folded, Decode;
    TwoFields();
    NoChunksDecode();
    StatusOk();
    CompleteSection(STATUS_OK, [ONE_BYTE, IN_CHUNKS], Bytes("0"));
    ParseSection(STATUS_OK, [ONE_BYTE, IN_CHUNKS], Bytes("0"), closed);
    ParseSection(STATUS_OK, [ONE_BYTE, IN_CHUNKS], NO_CHUNKS, closed);
  }

  lemma StatusOk()
    ensures IsStatusLine(STATUS_OK) && Status(STATUS_OK) == Some(200)
  {
    assert STATUS_OK[..7] == HTTP_1;
  }

  // ---------------------------------------------------------------- Content-Length

  ghost predicate SpellsLength(s: Str, before: Str, digits: Str, after: Str, cr: Str) {
    s == before + digits + after + cr && AllBlank(before) && AllBlank(after) && (cr == [] || cr == [CR]) &&
    digits != [] && AllDigits(digits) && Decimal(digits) <= SIZE_MAX
  }

  /** A Content-Length value is accepted exactly if it is digits between blanks, and means their number. */
  lemma LengthSpelt(s: Str, length: nat)
    ensures Length(s) == Some(length) <==>
      exists before, digits, after, cr :: SpellsLength(s, before, digits, after, cr) && Decimal(digits) == length
  {
    hide Decimal, Length;
    if Length(s) == Some(length) { var before, digits, after, cr := SpellingOf(s); }
    if before, digits, after, cr :| SpellsLength(s, before, digits, after, cr) && Decimal(digits) == length {
      SpeltLength(s, before, digits, after, cr);
    }
  }

  lemma SpellingOf(s: Str) returns (before: Str, digits: Str, after: Str, cr: Str)
    requires Length(s).Some?
    ensures SpellsLength(s, before, digits, after, cr) && Decimal(digits) == Length(s).value
  {
    hide Decimal;
    var p := BlankEnd(s, 0);
    var q := DigitEnd(s, p);
    var r := BlankEnd(s, q);
    before, digits, after, cr := s[..p], s[p..q], s[q..r], s[r..];
    assert s == s[..p] + s[p..q] + s[q..r] + s[r..];
  }

  lemma SpeltLength(s: Str, before: Str, digits: Str, after: Str, cr: Str)
    requires SpellsLength(s, before, digits, after, cr)
    ensures Length(s) == Some(Decimal(digits))
  {
    hide Decimal, BlankEnd, DigitEnd;
    var p := |before|;
    var q := p + |digits|;
    var r := q + |after|;
    assert s[..p] == before && s[p..q] == digits && s[q..r] == after && s[r..] == cr;
    assert s[p] == digits[0];
    assert after != [] ==> s[q] == after[0];
    BlankRun(s, 0, p);
    DigitRun(s, p, q);
    BlankRun(s, q, r);
  }

  lemma BlankRun(s: Str, p: nat, q: nat)
    requires p <= q <= |s| && AllBlank(s[p..q]) && (q < |s| ==> IsDigit(s[q]) || s[q] == CR)
    ensures BlankEnd(s, p) == q
  {
    assert forall i :: p <= i < q ==> s[i] == s[p..q][i - p];
    BlanksEnd(s, p, q);
  }

  lemma DigitRun(s: Str, p: nat, q: nat)
    requires p <= q <= |s| && AllDigits(s[p..q]) && (q < |s| ==> IsBlank(s[q]) || s[q] == CR)
    ensures DigitEnd(s, p) == q
  {
    assert forall i :: p <= i < q ==> s[i] == s[p..q][i - p];
    DigitsEnd(s, p, q);
  }

  lemma BlanksEnd(s: Str, p: nat, q: nat)
    requires p <= q <= |s| && (forall i :: p <= i < q ==> IsBlank(s[i])) && (q < |s| ==> !IsBlank(s[q]))
    ensures BlankEnd(s, p) == q
    decreases q - p
  {
    if p < q { BlanksEnd(s, p + 1, q); }
  }

  lemma DigitsEnd(s: Str, p: nat, q: nat)
    requires p <= q <= |s| && (forall i :: p <= i < q ==> IsDigit(s[i])) && (q < |s| ==> !IsDigit(s[q]))
    ensures DigitEnd(s, p) == q
    decreases q - p
  {
    if p < q { DigitsEnd(s, p + 1, q); }
  }
}
