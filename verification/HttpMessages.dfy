/**
 The responses the parser accepts, exactly: every text, with bare line feeds and stray carriage
 returns as the parser takes them.
 */
module HttpMessages {
  import opened CText
  import opened HttpChunked
  import opened HttpFraming
  import opened HttpFramingProof
  import opened HttpFields

  /** A line up to its LF, and whether a CR stands in front that is stepped over. */
  datatype Line = Line(stray: bool, text: Str)

  /** The head ends with a line that is empty, or that is a CR alone. */
  predicate IsLast(text: Str) { text == [] || text == [0x0D] }

  /** Only behind a field line is a CR stepped over, and then always. */
  predicate IsHead(lines: seq<Line>, first: bool) {
    lines != [] && 0x0A !in lines[0].text &&
    (if first then !lines[0].stray else lines[0].stray || lines[0].text == [] || lines[0].text[0] != 0x0D) &&
    (|lines| == 1 <==> IsLast(lines[0].text)) && (|lines| > 1 ==> IsHead(lines[1..], false))
  }

  /** The line with what stands in front of it and its LF. */
  function LineText(line: Line): Str { (if line.stray then [0x0D] else []) + line.text + [0x0A] }

  function HeadText(lines: seq<Line>): Str {
    if lines == [] then []
    else LineText(lines[0]) + HeadText(lines[1..])
  }

  /** The field lines. */
  function Texts(lines: seq<Line>): seq<Str> {
    if |lines| <= 1 then [] else [lines[0].text] + Texts(lines[1..])
  }

  datatype Message = Message(status: Str, lines: seq<Line>, body: Str)

  function MessageText(m: Message): Str { m.status + [0x0A] + HeadText(m.lines) + m.body }

  /** A status line of at least thirteen bytes with a code other than 000, and a head. */
  ghost predicate IsMessage(m: Message, code: nat) {
    0x0A !in m.status && |m.status| >= 13 && code > 0 && IsHead(m.lines, true) &&
    exists version, a, b, c, rest :: SpellsStatus(m.status, version, a, b, c, rest) && code == 100 * a + 10 * b + c
  }

  /** How the parser gets to a line: behind a field line over a CR. */
  function At(t: Str, p: nat, first: bool): nat { if first then p else NextLine(t, p) }

  lemma {:induction false} LfAt(t: Str, p: nat, q: nat)
    requires p <= q < |t| && t[q] == 0x0A && 0x0A !in t[p..q]
    ensures FindLf(t, p) == Some(q)
    decreases q - p
  {
    if p < q {
      assert t[p] == t[p..q][0];
      assert t[p + 1..q] == t[p..q][1..];
      LfAt(t, p + 1, q);
    }
  }

  lemma {:induction false} NoLfBefore(t: Str, p: nat)
    requires p <= |t| && FindLf(t, p).Some?
    ensures 0x0A !in t[p..FindLf(t, p).value]
    decreases |t| - p
  {
    if t[p] != 0x0A {
      NoLfBefore(t, p + 1);
      assert t[p..FindLf(t, p).value] == [t[p]] + t[p + 1..FindLf(t, p).value];
    }
  }

  lemma Chop(t: Str, p: nat, a: Str, tail: Str)
    requires p <= |t| && t[p..] == a + tail
    ensures p + |a| <= |t| && t[p..p + |a|] == a && t[p + |a|..] == tail
    ensures a != [] ==> t[p] == a[0]
  {
    assert t[p..p + |a|] == t[p..][..|a|] && t[p + |a|..] == t[p..][|a|..];
    assert a != [] ==> t[p] == t[p..][0];
  }

  /** A line of the text and the rest. */
  lemma LineSplits(t: Str, p: nat, line: Line, q: nat)
    requires p <= q < |t| && t[q] == 0x0A
    requires line.stray ==> p < q && t[p] == 0x0D && t[p + 1..q] == line.text
    requires !line.stray ==> t[p..q] == line.text
    ensures t[p..] == LineText(line) + t[q + 1..]
  {
    assert t[p..] == t[p..q] + [t[q]] + t[q + 1..];
    if line.stray { assert t[p..q] == [t[p]] + t[p + 1..q]; }
  }

  lemma Regroup(a: Str, b: Str, c: Str, d: Str)
    ensures a + b + c + d == a + (b + (c + d))
  {
  }

  lemma LineStands(t: Str, p: nat, line: Line, tail: Str)
    requires p <= |t| && t[p..] == LineText(line) + tail
    ensures var at := p + if line.stray then 1 else 0;
      var q := at + |line.text|;
      q < |t| && t[at..q] == line.text && t[q] == 0x0A && t[q + 1..] == tail &&
      (line.stray ==> t[p] == 0x0D) && (line.text != [] ==> t[at] == line.text[0])
  {
    var front := if line.stray then [0x0D] else [];
    var at := p + |front|;
    Regroup(front, line.text, [0x0A], tail);
    Chop(t, p, front, line.text + ([0x0A] + tail));
    Chop(t, at, line.text, [0x0A] + tail);
    Chop(t, at + |line.text|, [0x0A], tail);
  }

  lemma Longer(line: Line, rest: Str, tail: Str)
    ensures LineText(line) + (rest + tail) == LineText(line) + rest + tail
  {
  }

  /** A head the parser reads is spelt. */
  lemma {:induction false} HeadSpelt(t: Str, p: nat, first: bool, fields: Fields) returns (lines: seq<Line>)
    requires p <= |t| && Headers(t, At(t, p, first), fields).Some?
    ensures IsHead(lines, first)
    ensures var head := Headers(t, At(t, p, first), fields).value;
      t[p..] == HeadText(lines) + t[head.end..] && Fold(Texts(lines), fields) == Some(head.fields)
    decreases |t| - p
  {
    hide Field, LineText, FindLf;
    var at := At(t, p, first);
    var q := FindLf(t, at).value;
    var line := Line(at == p + 1, t[at..q]);
    var end := Headers(t, at, fields).value.end;
    NoLfBefore(t, at);
    LineSplits(t, p, line, q);
    if Ends(line.text) {
      lines := [line];
      assert HeadText([]) == [] && lines[1..] == [];
      Longer(line, [], t[end..]);
    } else {
      var rest := HeadSpelt(t, q + 1, false, Field(line.text, fields).value);
      lines := [line] + rest;
      assert lines[1..] == rest;
      Longer(line, HeadText(rest), t[end..]);
    }
  }

  lemma FirstOf(lines: seq<Line>, body: Str)
    requires lines != []
    ensures HeadText(lines) + body == LineText(lines[0]) + (HeadText(lines[1..]) + body)
  {
    Longer(lines[0], HeadText(lines[1..]), body);
  }

  /** Where the first line of a spelled head lies. */
  lemma HeadStarts(t: Str, p: nat, first: bool, lines: seq<Line>, body: Str)
    requires p <= |t| && IsHead(lines, first) && t[p..] == HeadText(lines) + body
    ensures var at, line := At(t, p, first), lines[0];
      var q := at + |line.text|;
      q < |t| && FindLf(t, at) == Some(q) && t[at..q] == line.text && t[q + 1..] == HeadText(lines[1..]) + body
    ensures lines != [] && (|lines| == 1 <==> Ends(lines[0].text)) && (|lines| > 1 ==> IsHead(lines[1..], false))
  {
    hide LineText, FindLf, HeadText;
    var line := lines[0];
    var at := p + if line.stray then 1 else 0;
    FirstOf(lines, body);
    LineStands(t, p, line, HeadText(lines[1..]) + body);
    LfAt(t, at, at + |line.text|);
  }

  lemma HeadersStep(t: Str, at: nat, q: nat, text: Str, fields: Fields)
    requires at <= q < |t| && FindLf(t, at) == Some(q) && t[at..q] == text
    ensures Headers(t, at, fields) ==
      if Ends(text) then Some(Head(q + 1, fields))
      else match Field(text, fields)
           case None => None
           case Some(next) => Headers(t, NextLine(t, q + 1), next)
  {
    hide Field, FindLf;
  }

  lemma FoldStep(lines: seq<Line>, fields: Fields)
    requires lines != []
    ensures Fold(Texts(lines), fields) ==
      if |lines| == 1 then Some(fields)
      else match Field(lines[0].text, fields)
           case None => None
           case Some(next) => Fold(Texts(lines[1..]), next)
  {
    hide Field;
    if |lines| > 1 { assert Texts(lines)[1..] == Texts(lines[1..]); }
  }

  /** A head that is spelt is read, whatever stands behind it. */
  lemma {:induction false} HeadReads(t: Str, p: nat, first: bool, lines: seq<Line>, body: Str, fields: Fields)
    requires p <= |t| && IsHead(lines, first) && t[p..] == HeadText(lines) + body
    ensures var folded := Fold(Texts(lines), fields);
      Headers(t, At(t, p, first), fields) ==
      if folded.None? then None else Some(Head(|t| - |body|, folded.value))
    decreases |lines|
  {
    hide Field, LineText, FindLf, HeadText, IsHead, Ends, Headers, Texts, Fold, NextLine;
    HeadStarts(t, p, first, lines, body);
    var text := lines[0].text;
    var q := At(t, p, first) + |text|;
    HeadersStep(t, At(t, p, first), q, text, fields);
    FoldStep(lines, fields);
    if |lines| > 1 {
      var next := Field(text, fields);
      if next.Some? { HeadReads(t, q + 1, false, lines[1..], body, next.value); }
    } else {
      NoMore(lines[1..], body);
    }
  }

  lemma NoMore(lines: seq<Line>, body: Str)
    requires lines == []
    ensures HeadText(lines) + body == body
  {
  }

  /** This text is that message, and its body under what its field lines say is the response. */
  ghost predicate Carries(t: Str, m: Message, closed: bool, r: Response) {
    t == MessageText(m) && IsMessage(m, r.status) &&
    exists fields :: Say(Texts(m.lines), fields) && Framed(r.status, Some(fields), m.body, closed) == Some(r)
  }

  lemma FirstLine(t: Str, status: Str, tail: Str)
    requires t == status + ([0x0A] + tail)
    ensures |status| < |t| && t[0..|status|] == status && t[|status|] == 0x0A && t[|status| + 1..] == tail
  {
  }

  lemma StatusLine(t: Str, m: Message)
    requires t == MessageText(m) && 0x0A !in m.status && |m.status| >= 13
    ensures FindLf(t, 0) == Some(|m.status|) && |t| >= 13 && Status(t) == Status(m.status)
    ensures |m.status| < |t| && t[|m.status| + 1..] == HeadText(m.lines) + m.body
  {
    hide FindLf, Status, HeadText, IsHead;
    Regroup(m.status, [0x0A], HeadText(m.lines), m.body);
    FirstLine(t, m.status, HeadText(m.lines) + m.body);
    LfAt(t, 0, |m.status|);
    StatusPrefix(t, m.status);
  }

  lemma CarriedParses(t: Str, m: Message, closed: bool, r: Response)
    requires Carries(t, m, closed, r)
    ensures Parse(t, closed) == Some(r)
  {
    hide FindLf, Status, Headers, Decode, HeadText, IsHead, Say, Fold;
    StatusLine(t, m);
    StatusIsExactly(m.status, r.status);
    HeadReads(t, |m.status| + 1, true, m.lines, m.body, Fields(None, false));
    var fields :| Say(Texts(m.lines), fields) && Framed(r.status, Some(fields), m.body, closed) == Some(r);
    FieldsTogether(Texts(m.lines), fields);
    assert t[|t| - |m.body|..] == m.body;
  }

  lemma MessageLies(t: Str, q: nat, lines: seq<Line>, end: nat)
    requires q < |t| && t[q] == 0x0A && end <= |t| && t[q + 1..] == HeadText(lines) + t[end..]
    ensures t == MessageText(Message(t[..q], lines, t[end..]))
  {
    hide HeadText;
    assert t == t[..q] + ([t[q]] + t[q + 1..]);
    Regroup(t[..q], [0x0A], HeadText(lines), t[end..]);
  }

  lemma ParsedCarries(t: Str, closed: bool) returns (m: Message)
    requires Parse(t, closed).Some?
    ensures Carries(t, m, closed, Parse(t, closed).value)
  {
    hide FindLf, Status, Headers, Decode, HeadText, IsHead, Say, Fold;
    var q := FindLf(t, 0).value;
    var head := Headers(t, q + 1, Fields(None, false)).value;
    var lines := HeadSpelt(t, q + 1, true, Fields(None, false));
    m := Message(t[..q], lines, t[head.end..]);
    MessageLies(t, q, lines, head.end);
    assert 0x0A !in m.status by { NoLfBefore(t, 0); }
    StatusLine(t, m);
    StatusIsExactly(m.status, Parse(t, closed).value.status);
    FieldsTogether(Texts(lines), head.fields);
  }

  /** The parser accepts exactly the texts that carry a response, and gives that response. */
  lemma ParsesExactlyMessages(t: Str, closed: bool, r: Response)
    ensures Parse(t, closed) == Some(r) <==> exists m :: Carries(t, m, closed, r)
  {
    hide Parse, Carries;
    if Parse(t, closed) == Some(r) { var m := ParsedCarries(t, closed); }
    if m :| Carries(t, m, closed, r) { CarriedParses(t, m, closed, r); }
  }
}
