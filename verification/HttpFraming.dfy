/**
 How mybot_http_client.c frames a response: the scan that stops receiving early, and the
 parser that reads the received bytes. Texts are bytes; the scan's buffer ends with a NUL.
 */
module HttpFraming {
  import opened CText
  import opened HttpChunked

  const CONTENT_LENGTH: Str := Bytes("content-length:")
  const TRANSFER_ENCODING: Str := Bytes("transfer-encoding:")
  const CHUNKED: Str := Bytes("chunked")
  const HTTP_1: Str := Bytes("HTTP/1.")

  function Lower(b: Byte): Byte { if 'A' as int <= b <= 'Z' as int then b + 32 else b }

  /** The text starts with the lower-case word, whatever the case of its letters. */
  predicate Names(s: Str, word: Str) {
    |word| <= |s| && forall i :: 0 <= i < |word| ==> Lower(s[i]) == word[i]
  }

  predicate IsBlank(b: Byte) { b == ' ' as int || b == '\t' as int }

  // ---------------------------------------------------------------- Content-Length

  function BlankEnd(s: Str, p: nat): (q: nat)
    requires p <= |s|
    ensures p <= q <= |s| && (q < |s| ==> !IsBlank(s[q])) && forall i :: p <= i < q ==> IsBlank(s[i])
    decreases |s| - p
  {
    if p < |s| && IsBlank(s[p]) then BlankEnd(s, p + 1) else p
  }

  function DigitEnd(s: Str, p: nat): (q: nat)
    requires p <= |s|
    ensures p <= q <= |s| && (q < |s| ==> !IsDigit(s[q])) && forall i :: p <= i < q ==> IsDigit(s[i])
    decreases |s| - p
  {
    if p < |s| && IsDigit(s[p]) then DigitEnd(s, p + 1) else p
  }

  /** Nothing but spaces and tabs. */
  predicate AllBlank(s: Str) { forall i :: 0 <= i < |s| ==> s[i] == 0x20 || s[i] == 0x09 }

  /** A Content-Length value: blanks, digits, blanks, and the CR of its line if that is there. */
  function Length(s: Str): Option<nat> {
    var p := BlankEnd(s, 0);
    var q := DigitEnd(s, p);
    var r := BlankEnd(s, q);
    var end := if r < |s| && s[r] == CR then r + 1 else r;
    if q == p || end != |s| || Decimal(s[p..q]) > SIZE_MAX then None else Some(Decimal(s[p..q]))
  }

  lemma DecimalStep(s: Str, p: nat, q: nat)
    requires p <= q < |s| && AllDigits(s[p..q]) && IsDigit(s[q])
    ensures AllDigits(s[p..q + 1])
    ensures Decimal(s[p..q + 1]) == Decimal(s[p..q]) * 10 + (s[q] - '0' as int)
  {
    var longer := s[p..q + 1];
    assert longer[..q - p] == s[p..q] && longer[q - p] == s[q];
  }

  lemma TooLong(s: Str, p: nat, q: nat)
    requires p == BlankEnd(s, 0) && p <= q <= DigitEnd(s, p) && AllDigits(s[p..q])
    requires Decimal(s[p..q]) > SIZE_MAX
    ensures Length(s) == None
  {
    var all := s[p..DigitEnd(s, p)];
    DecimalGrows(all, q - p);
    assert all[..q - p] == s[p..q];
  }

  lemma NoDecimal(s: Str, p: nat)
    requires p <= |s|
    ensures AllDigits(s[p..p]) && Decimal(s[p..p]) == 0
  {
  }

  method SkipBlanks(t: Str, value: nat, start: nat, end: nat) returns (q: nat)
    requires start <= value <= end <= |t|
    ensures start <= q <= end && q - start == BlankEnd(t[start..end], value - start)
  {
    q := value;
    while q < end && (t[q] == ' ' as int || t[q] == '\t' as int)
      invariant value <= q <= end
      invariant BlankEnd(t[start..end], q - start) == BlankEnd(t[start..end], value - start)
    {
      q := q + 1;
    }
  }

  lemma SliceOfSlice(t: Str, start: nat, end: nat, a: nat, b: nat)
    requires start <= a <= b <= end <= |t|
    ensures t[start..end][a - start..b - start] == t[a..b]
  {
    var x := t[start..end][a - start..b - start];
    assert forall i :: 0 <= i < b - a ==> x[i] == t[a..b][i];
  }

  method ParseDigits(t: Str, value: nat, first: nat, end: nat) returns (length: nat, q: nat, ok: bool)
    requires value <= first <= end <= |t| && first - value == BlankEnd(t[value..end], 0)
    ensures !ok ==> Length(t[value..end]) == None
    ensures ok ==> first <= q <= end && q - value == DigitEnd(t[value..end], first - value)
    ensures ok ==> AllDigits(t[first..q]) && length == Decimal(t[first..q]) <= SIZE_MAX
  {
    hide Decimal, AllDigits, BlankEnd, Length;
    ghost var s := t[value..end];
    length := 0;
    q := first;
    NoDecimal(s, first - value);
    while q < end && '0' as int <= t[q] <= '9' as int
      invariant first <= q <= end && DigitEnd(s, q - value) == DigitEnd(s, first - value)
      invariant AllDigits(s[first - value..q - value])
      invariant length == Decimal(s[first - value..q - value]) <= SIZE_MAX
    {
      var digit := t[q] - '0' as int;
      DecimalStep(s, first - value, q - value);
      if length > (SIZE_MAX - digit) / 10 {
        TooLong(s, first - value, q + 1 - value);
        return length, q, false;
      }
      length := length * 10 + digit;
      q := q + 1;
    }
    SliceOfSlice(t, value, end, first, q);
    return length, q, true;
  }

  /** The field value at [value, end) of t. */
  method ParseContentLength(t: Str, value: nat, end: nat) returns (length: nat, ok: bool)
    requires value <= end <= |t|
    ensures ok <==> Length(t[value..end]).Some?
    ensures ok ==> Length(t[value..end]) == Some(length)
  {
    hide Decimal, AllDigits, BlankEnd, DigitEnd;
    ghost var s := t[value..end];
    var first := SkipBlanks(t, value, value, end);
    var digits;
    length, digits, ok := ParseDigits(t, value, first, end);
    if !ok { return length, false; }
    SliceOfSlice(t, value, end, first, digits);
    var at := SkipBlanks(t, digits, value, end);
    if at < end && t[at] == CR { at := at + 1; }
    if digits == first || at != end { return length, false; }
    return length, true;
  }

  // -------------------------------------------------------------------- early scan

  /** The position after the first empty line, 0 if there is none. */
  function HeaderEnd(b: Str, len: nat, i: nat): (r: nat)
    requires len <= |b| && i >= 3
    ensures r != 0 ==> i < r <= len && HasCrLf(b, r - 4) && HasCrLf(b, r - 2)
    decreases len - i
  {
    if i >= len then 0
    else if HasCrLf(b, i - 3) && HasCrLf(b, i - 1) then i + 1
    else HeaderEnd(b, len, i + 1)
  }

  /** strstr(b + p, "\r\n") on a text that ends with a NUL. */
  function Break(b: Text, p: nat): (q: Option<nat>)
    requires p < |b|
    ensures q.Some? ==> p <= q.value && HasCrLf(b, q.value)
    decreases |b| - p
  {
    if b[p] == 0 then None else if HasCrLf(b, p) then Some(p) else Break(b, p + 1)
  }

  datatype Lengths = Refused | Lengths(found: Option<nat>)

  /** A further Content-Length value: repeated fields must agree. */
  function Agree(found: Option<nat>, value: Option<nat>): Lengths {
    if value.None? || (found.Some? && found.value != value.value) then Refused else Lengths(value)
  }

  function ScanLines(b: Text, line: nat, end: nat, found: Option<nat>): Lengths
    requires end + 2 < |b|
    decreases |b| - line
  {
    if line >= end then Lengths(found)
    else
      var q := Break(b, line);
      if q.None? || q.value > end then Lengths(found)
      else if Names(b[line..q.value], CONTENT_LENGTH) then
        match Agree(found, Length(b[line + 15..q.value + 1]))
        case Refused => Refused
        case Lengths(next) => ScanLines(b, q.value + 2, end, next)
      else ScanLines(b, q.value + 2, end, found)
  }

  /** The receive buffer holds a response whose Content-Length body is complete. */
  predicate Complete(b: Text) {
    var len := |b| - 1;
    var head := HeaderEnd(b, len, 3);
    head != 0 &&
    var scanned := ScanLines(b, 0, head - 4, None);
    scanned.Lengths? && scanned.found.Some? && scanned.found.value <= len - head
  }

  method CaseEqual(t: Str, p: nat, word: Str) returns (same: bool)
    requires p + |word| <= |t|
    ensures forall q :: p + |word| <= q <= |t| ==> same == Names(t[p..q], word)
  {
    var i := 0;
    while i < |word|
      invariant i <= |word| && forall j :: 0 <= j < i ==> Lower(t[p + j]) == word[j]
    {
      if Lower(t[p + i]) != word[i] {
        forall q | p + |word| <= q <= |t| ensures !Names(t[p..q], word) { assert t[p..q][i] == t[p + i]; }
        return false;
      }
      i := i + 1;
    }
    return true;
  }

  method FindHeaderEnd(b: Str, len: nat) returns (end: nat)
    requires len <= |b|
    ensures end == HeaderEnd(b, len, 3)
  {
    var i := 3;
    while i < len
      invariant i >= 3 && HeaderEnd(b, len, i) == HeaderEnd(b, len, 3)
    {
      if b[i - 3] == CR && b[i - 2] == LF && b[i - 1] == CR && b[i] == LF { return i + 1; }
      i := i + 1;
    }
    return 0;
  }

  method StrStrCrLf(b: Text, p: nat) returns (q: Option<nat>)
    requires p < |b|
    ensures q == Break(b, p)
  {
    var i := p;
    while b[i] != 0
      invariant p <= i < |b| && Break(b, i) == Break(b, p)
      decreases |b| - i
    {
      if b[i] == CR && b[i + 1] == LF { return Some(i); }
      i := i + 1;
    }
    return None;
  }

  method ResponseContentLengthComplete(b: Text) returns (complete: bool)
    ensures complete == Complete(b)
  {
    hide Length, Names, Break;
    var len := |b| - 1;
    var head := FindHeaderEnd(b, len);
    if head == 0 { return false; }
    var found: Option<nat> := None;
    var line := 0;
    var end := head - 4;
    while line < end
      invariant ScanLines(b, line, end, found) == ScanLines(b, 0, end, None)
      decreases |b| - line
    {
      var lineEnd := StrStrCrLf(b, line);
      if lineEnd.None? || lineEnd.value > end { break; }
      var q := lineEnd.value;
      var isLength := q - line >= 15;
      if isLength { isLength := CaseEqual(b, line, CONTENT_LENGTH); }
      assert isLength == Names(b[line..q], CONTENT_LENGTH) by { ShortName(b[line..q]); }
      if isLength {
        var value, ok := ParseContentLength(b, line + 15, q + 1);
        if !ok || (found.Some? && found.value != value) { return false; }
        found := Some(value);
      }
      line := q + 2;
    }
    return found.Some? && found.value <= len - head;
  }

  lemma ShortName(s: Str)
    ensures Names(s, CONTENT_LENGTH) ==> |s| >= 15
  {
  }

  // ------------------------------------------------------------------------ parser

  /** The status code of a status line of at least 13 bytes, RFC 9112 section 4. */
  function Status(s: Str): (code: Option<nat>)
    requires |s| >= 13
    ensures code.Some? ==> code.value < 1000
  {
    if s[..7] == HTTP_1 && (s[7] == '0' as int || s[7] == '1' as int) && s[8] == ' ' as int &&
       IsDigit(s[9]) && IsDigit(s[10]) && IsDigit(s[11]) && s[12] == ' ' as int
    then Some((s[9] - '0' as int) * 100 + (s[10] - '0' as int) * 10 + (s[11] - '0' as int))
    else None
  }

  function FindLf(t: Str, p: nat): (q: Option<nat>)
    requires p <= |t|
    ensures q.Some? ==> p <= q.value < |t| && t[q.value] == LF
    decreases |t| - p
  {
    if p == |t| then None else if t[p] == LF then Some(p) else FindLf(t, p + 1)
  }

  predicate EndsToken(b: Byte) {
    b == ',' as int || b == ';' as int || IsBlank(b) || b == CR || b == LF
  }

  function TokenStart(s: Str, p: nat): (q: nat)
    requires p <= |s|
    ensures p <= q <= |s| && (q == p ==> p == |s| || !(IsBlank(s[p]) || s[p] == ',' as int))
    decreases |s| - p
  {
    if p < |s| && (IsBlank(s[p]) || s[p] == ',' as int) then TokenStart(s, p + 1) else p
  }

  function TokenEnd(s: Str, p: nat): (q: nat)
    requires p <= |s|
    ensures p <= q <= |s|
    decreases |s| - p
  {
    if p < |s| && !EndsToken(s[p]) then TokenEnd(s, p + 1) else p
  }

  function NextComma(s: Str, p: nat): (q: nat)
    requires p <= |s|
    ensures p <= q <= |s| && (q == p ==> p == |s| || s[p] == ',' as int)
    decreases |s| - p
  {
    if p < |s| && s[p] != ',' as int then NextComma(s, p + 1) else p
  }

  /** A Transfer-Encoding value names chunked. */
  predicate NamesChunked(s: Str, p: nat)
    requires p <= |s|
    decreases |s| - p
  {
    p < |s| &&
    var start := TokenStart(s, p);
    var end := TokenEnd(s, start);
    (end - start == 7 && Names(s[start..end], CHUNKED)) || NamesChunked(s, NextComma(s, end))
  }

  /** What the header fields said so far. */
  datatype Fields = Fields(length: Option<nat>, chunked: bool)

  /** One field line, up to but without its LF. */
  function Field(line: Str, fields: Fields): Option<Fields> {
    var lengths := if Names(line, CONTENT_LENGTH) then Agree(fields.length, Length(line[15..]))
                   else Lengths(fields.length);
    if lengths.Refused? then None
    else
      var chunked := Names(line, TRANSFER_ENCODING) && NamesChunked(line[18..], 0);
      Some(Fields(lengths.found, fields.chunked || chunked))
  }

  predicate Ends(line: Str) { line == [] || line == [CR] }

  datatype Head = Head(end: nat, fields: Fields)

  /** After a field line the parser steps over a CR, if the next line starts with one. */
  function NextLine(t: Str, p: nat): nat {
    if p < |t| && t[p] == CR then p + 1 else p
  }

  function Headers(t: Str, p: nat, fields: Fields): (r: Option<Head>)
    requires p <= |t|
    ensures r.Some? ==> r.value.end <= |t|
    decreases |t| - p
  {
    var q := FindLf(t, p);
    if q.None? then None
    else if Ends(t[p..q.value]) then Some(Head(q.value + 1, fields))
    else
      match Field(t[p..q.value], fields)
      case None => None
      case Some(next) => Headers(t, NextLine(t, q.value + 1), next)
  }

  datatype Response = Response(status: nat, body: Str)

  /** The response in t, if it is framed completely. */
  function Parse(t: Str, closed: bool): Option<Response> {
    var q := FindLf(t, 0);
    if q.None? || q.value < 13 then None
    else
      var status := Status(t);
      var head := Headers(t, q.value + 1, Fields(None, false));
      if status.None? || head.None? || status.value == 0 then None
      else
        var rest := t[head.value.end..];
        var fields := head.value.fields;
        if fields.chunked then
          var body := Decode(rest, 0);
          if body.None? then None else Some(Response(status.value, body.value))
        else if fields.length.Some? then
          if fields.length.value > |rest| then None else Some(Response(status.value, rest[..fields.length.value]))
        else if closed then Some(Response(status.value, rest))
        else None
  }

  method MemChrLf(t: Str, p: nat) returns (q: Option<nat>)
    requires p <= |t|
    ensures q == FindLf(t, p)
  {
    var i := p;
    while i < |t|
      invariant p <= i <= |t| && FindLf(t, i) == FindLf(t, p)
    {
      if t[i] == LF { return Some(i); }
      i := i + 1;
    }
    return None;
  }

  method ParseStatusLine(t: Str) returns (status: int)
    requires |t| >= 13
    ensures status == if Status(t).Some? then Status(t).value else -1
  {
    if t[..7] != HTTP_1 || (t[7] != '0' as int && t[7] != '1' as int) || t[8] != ' ' as int { return -1; }
    if t[9] < '0' as int || t[9] > '9' as int || t[10] < '0' as int || t[10] > '9' as int ||
       t[11] < '0' as int || t[11] > '9' as int || t[12] != ' ' as int { return -1; }
    return (t[9] - '0' as int) * 100 + (t[10] - '0' as int) * 10 + (t[11] - '0' as int);
  }

  /** The Transfer-Encoding value s. */
  method TransferIsChunked(s: Str) returns (chunked: bool)
    ensures chunked == NamesChunked(s, 0)
  {
    hide Names;
    var val := 0;
    while val < |s|
      invariant val <= |s| && NamesChunked(s, val) == NamesChunked(s, 0)
      decreases |s| - val
    {
      ghost var from := val;
      while val < |s| && (IsBlank(s[val]) || s[val] == ',' as int)
        invariant from <= val <= |s| && TokenStart(s, val) == TokenStart(s, from)
      {
        val := val + 1;
      }
      var token := val;
      while val < |s| && !EndsToken(s[val])
        invariant token <= val <= |s| && TokenEnd(s, val) == TokenEnd(s, token)
      {
        val := val + 1;
      }
      if val - token == 7 {
        var same := CaseEqual(s, token, CHUNKED);
        if same { return true; }
      }
      ghost var end := val;
      while val < |s| && s[val] != ',' as int
        invariant end <= val <= |s| && NextComma(s, val) == NextComma(s, end)
      {
        val := val + 1;
      }
    }
    return false;
  }

  method ParseField(t: Str, p: nat, nl: nat, fields: Fields) returns (next: Fields, ok: bool)
    requires p <= nl <= |t|
    ensures ok <==> Field(t[p..nl], fields).Some?
    ensures ok ==> Field(t[p..nl], fields) == Some(next)
  {
    hide Names, Length, NamesChunked;
    ghost var line := t[p..nl];
    ShortNames(line);
    next := fields;
    var isLength := nl - p >= 15;
    if isLength { isLength := CaseEqual(t, p, CONTENT_LENGTH); }
    if isLength {
      assert line[15..] == t[p + 15..nl];
      var value, parsed := ParseContentLength(t, p + 15, nl);
      if !parsed || (fields.length.Some? && fields.length.value != value) { return next, false; }
      next := next.(length := Some(value));
    }
    var isEncoding := nl - p > 18;
    if isEncoding { isEncoding := CaseEqual(t, p, TRANSFER_ENCODING); }
    if isEncoding {
      assert line[18..] == t[p + 18..nl];
      var chunked := TransferIsChunked(t[p + 18..nl]);
      if chunked { next := next.(chunked := true); }
    }
    return next, true;
  }

  lemma ShortNames(s: Str)
    ensures Names(s, CONTENT_LENGTH) ==> |s| >= 15
    ensures Names(s, TRANSFER_ENCODING) ==> |s| >= 18
    ensures |s| == 18 ==> !NamesChunked(s[18..], 0)
  {
  }

  method ParseHeaders(t: Str, start: nat) returns (end: nat, fields: Fields, ok: bool)
    requires start <= |t|
    ensures ok <==> Headers(t, start, Fields(None, false)).Some?
    ensures ok ==> Headers(t, start, Fields(None, false)) == Some(Head(end, fields))
  {
    hide Field, FindLf;
    fields := Fields(None, false);
    var p := start;
    while p < |t|
      invariant p <= |t| && Headers(t, p, fields) == Headers(t, start, Fields(None, false))
      decreases |t| - p
    {
      var nl := MemChrLf(t, p);
      if nl.None? { return 0, fields, false; }
      var length := nl.value - p;
      if length == 0 || (length == 1 && t[p] == CR) { return nl.value + 1, fields, true; }
      var next, parsed := ParseField(t, p, nl.value, fields);
      if !parsed { return 0, fields, false; }
      fields := next;
      p := nl.value + 1;
      if p < |t| && t[p] == CR { p := p + 1; }
    }
    NoMoreLines(t);
    return 0, fields, false;
  }

  lemma NoMoreLines(t: Str)
    ensures FindLf(t, |t|) == None
  {
  }

  method ParseResponse(t: Str, closed: bool) returns (response: Option<Response>)
    ensures response == Parse(t, closed)
  {
    hide Headers, FindLf, Status, Decode;
    var nl := MemChrLf(t, 0);
    if nl.None? || nl.value < 13 { return None; }
    var status := ParseStatusLine(t);
    if status < 0 { return None; }
    var end, fields, complete := ParseHeaders(t, nl.value + 1);
    if !complete || status == 0 { return None; }
    var avail := |t| - end;
    if fields.chunked {
      var out, length, ok := DechunkBody(t[end..]);
      if !ok { return None; }
      return Some(Response(status, out[..length]));
    }
    if fields.length.Some? {
      if fields.length.value > avail { return None; }
      return Some(Response(status, t[end..][..fields.length.value]));
    }
    if !closed { return None; }
    return Some(Response(status, t[end..]));
  }
}
