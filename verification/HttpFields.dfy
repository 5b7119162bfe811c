/**
 What the header lines of a response mean, told apart from the code that reads them: status codes,
 field names in any case, the tokens of Transfer-Encoding, and what all fields say together.
 */
module HttpFields {
  import opened CText
  import opened HttpChunked
  import opened HttpFraming
  import opened HttpFramingProof

  // ------------------------------------------------------------------------- status

  predicate SpellsStatus(s: Str, version: Byte, a: int, b: int, c: int, rest: Str) {
    (version == '0' as int || version == '1' as int) && 0 <= a < 10 && 0 <= b < 10 && 0 <= c < 10 &&
    s == Bytes("HTTP/1.") + [version, 0x20, 48 + a, 48 + b, 48 + c, 0x20] + rest
  }

  /** A status line is HTTP/1.0 or 1.1, a space, three digits and a space; the digits are the code. */
  lemma StatusIsExactly(s: Str, code: nat)
    requires |s| >= 13
    ensures Status(s) == Some(code) <==>
      exists version, a, b, c, rest :: SpellsStatus(s, version, a, b, c, rest) && code == 100 * a + 10 * b + c
  {
    if Status(s) == Some(code) {
      assert s[..7] == Bytes("HTTP/1.");
      assert s == s[..7] + s[7..13] + s[13..];
      assert s[7..13] == [s[7], s[8], s[9], s[10], s[11], s[12]];
      assert SpellsStatus(s, s[7], s[9] - 48, s[10] - 48, s[11] - 48, s[13..]);
    }
    if version, a, b, c, rest :| SpellsStatus(s, version, a, b, c, rest) && code == 100 * a + 10 * b + c {
      var word := Bytes("HTTP/1.");
      assert s[..7] == word;
      assert s[7] == version && s[8] == 0x20 && s[9] == 48 + a && s[10] == 48 + b && s[11] == 48 + c && s[12] == 0x20;
    }
  }

  // -------------------------------------------------------------------------- names

  const CAPITALS: Str := Bytes("ABCDEFGHIJKLMNOPQRSTUVWXYZ")
  const SMALL: Str := Bytes("abcdefghijklmnopqrstuvwxyz")

  /** The byte is this one, or the capital of this letter. */
  predicate SameLetter(b: Byte, w: Byte) { b == w || exists k :: 0 <= k < 26 && w == SMALL[k] && b == CAPITALS[k] }

  predicate SameWord(s: Str, word: Str) { |s| == |word| && forall i :: 0 <= i < |s| ==> SameLetter(s[i], word[i]) }

  lemma LetterIs(b: Byte, w: Byte)
    requires !('A' as int <= w <= 'Z' as int)
    ensures Lower(b) == w <==> SameLetter(b, w)
  {
    hide Bytes;
    if 'A' as int <= b <= 'Z' as int { AlphabetAt(b - 'A' as int); }
    if k :| 0 <= k < 26 && w == SMALL[k] && b == CAPITALS[k] { AlphabetAt(k); }
  }

  lemma AlphabetAt(k: nat)
    requires k < 26
    ensures CAPITALS[k] == 65 + k && SMALL[k] == 97 + k
  {
    assert CAPITALS[k] == "ABCDEFGHIJKLMNOPQRSTUVWXYZ"[k] as int;
    assert SMALL[k] == "abcdefghijklmnopqrstuvwxyz"[k] as int;
  }

  predicate NoCapitals(word: Str) { forall i :: 0 <= i < |word| ==> !('A' as int <= word[i] <= 'Z' as int) }

  /** A text has this name in front exactly if it spells it, in whatever case. */
  lemma NamesIs(s: Str, word: Str)
    requires NoCapitals(word)
    ensures Names(s, word) <==> |word| <= |s| && SameWord(s[..|word|], word)
  {
    hide Lower, SameLetter;
    if |word| <= |s| {
      forall i | 0 <= i < |word| ensures Lower(s[i]) == word[i] <==> SameLetter(s[..|word|][i], word[i]) {
        LetterIs(s[i], word[i]);
      }
    }
  }

  // ------------------------------------------------------------------------- tokens

  const COMMA: Byte := 0x2C

  function CommaAt(s: Str): (c: nat)
    ensures c <= |s| && (c < |s| ==> s[c] == COMMA) && forall i :: 0 <= i < c ==> s[i] != COMMA
  {
    if s == [] || s[0] == COMMA then 0 else 1 + CommaAt(s[1..])
  }

  /** The first word of a part: behind spaces and tabs, up to one, a semicolon or the end of the line. */
  function FirstWord(s: Str): Str {
    if s == [] then []
    else if s[0] == 0x20 || s[0] == 0x09 then FirstWord(s[1..])
    else WordOf(s)
  }

  function WordOf(s: Str): Str {
    if s == [] || s[0] in {0x20, 0x09, 0x3B, 0x0D, 0x0A, COMMA} then [] else [s[0]] + WordOf(s[1..])
  }

  predicate IsChunked(part: Str) { SameWord(FirstWord(part), Bytes("chunked")) }

  /** One of the parts between the commas begins with the word. */
  predicate NamesIt(s: Str)
    decreases |s|
  {
    var c := CommaAt(s);
    IsChunked(s[..c]) || (c < |s| && NamesIt(s[c + 1..]))
  }

  /** Blanks and commas in front change nothing. */
  lemma FrontIsSkipped(s: Str, p: nat)
    requires p < |s| && (IsBlank(s[p]) || s[p] == COMMA)
    ensures NamesChunked(s, p) <==> p + 1 < |s| && NamesChunked(s, p + 1)
  {
  }

  /** So it is for what the value means. */
  lemma FrontDoesNotMatter(s: Str)
    requires s != [] && (s[0] == COMMA || s[0] == 0x20 || s[0] == 0x09)
    ensures NamesIt(s) <==> NamesIt(s[1..])
  {
    var c := CommaAt(s);
    NoWord();
    if s[0] == COMMA {
      assert s[..0] == [];
    } else {
      assert s[..c][1..] == s[1..][..c - 1] && s[..c][0] == s[0];
      if c < |s| { assert s[1..][c..] == s[c + 1..]; }
    }
  }

  lemma NoWord()
    ensures !IsChunked([])
  {
  }

  predicate NoCommaTo(s: Str, p: nat, c: nat) {
    p <= c <= |s| && (c < |s| ==> s[c] == COMMA) && forall i :: p <= i < c ==> s[i] != COMMA
  }

  lemma {:induction false} CommaBehind(s: Str, p: nat, c: nat)
    requires NoCommaTo(s, p, c)
    ensures NextComma(s, p) == c
    decreases c - p
  {
    if p < c { CommaBehind(s, p + 1, c); }
  }

  lemma {:induction false} TokenInside(s: Str, p: nat, c: nat)
    requires NoCommaTo(s, p, c)
    ensures p <= TokenEnd(s, p) <= c && NoCommaTo(s, TokenEnd(s, p), c)
    decreases c - p
  {
    if p < c && !EndsToken(s[p]) { TokenInside(s, p + 1, c); }
  }

  lemma {:induction false} WordTo(s: Str, p: nat, c: nat)
    requires NoCommaTo(s, p, c)
    ensures p <= TokenEnd(s, p) <= c && WordOf(s[p..c]) == s[p..TokenEnd(s, p)]
    decreases c - p
  {
    TokenInside(s, p, c);
    if p < c {
      assert s[p..c][0] == s[p] && s[p..c][1..] == s[p + 1..c];
      if !EndsToken(s[p]) {
        WordTo(s, p + 1, c);
        assert s[p..TokenEnd(s, p)] == [s[p]] + s[p + 1..TokenEnd(s, p)];
      }
    }
  }

  lemma CommaFrom(s: Str, p: nat)
    requires p <= |s|
    ensures NoCommaTo(s, p, p + CommaAt(s[p..]))
  {
    var c := p + CommaAt(s[p..]);
    assert c < |s| ==> s[c] == s[p..][c - p];
    assert forall i :: p <= i < c ==> s[i] == s[p..][i - p];
  }

  lemma WordIs(word: Str)
    ensures |word| == 7 && Names(word, CHUNKED) <==> SameWord(word, Bytes("chunked"))
  {
    NamesIs(word, CHUNKED);
    if |word| == 7 { assert word[..7] == word; }
  }

  lemma TokenIsWord(s: Str, p: nat)
    requires p < |s| && !IsBlank(s[p]) && s[p] != COMMA
    ensures var c := p + CommaAt(s[p..]);
      NamesChunked(s, p) <==> IsChunked(s[p..c]) || (c < |s| && NamesChunked(s, c))
  {
    hide CommaAt, WordOf, TokenEnd, NextComma, SameWord, Names, EndsToken, NoCommaTo;
    var c := p + CommaAt(s[p..]);
    CommaFrom(s, p);
    TokenInside(s, p, c);
    WordTo(s, p, c);
    CommaBehind(s, TokenEnd(s, p), c);
    FirstIs(s, p, c);
    WordIs(s[p..TokenEnd(s, p)]);
  }

  lemma FirstIs(s: Str, p: nat, c: nat)
    requires p < |s| && !IsBlank(s[p]) && s[p] != COMMA && c == p + CommaAt(s[p..])
    ensures FirstWord(s[p..c]) == WordOf(s[p..c])
  {
    assert s[p..][0] == s[p] && s[p..c][0] == s[p];
  }

  /**
   The value names the chunked coding exactly if one of its comma-separated parts begins with that
   word, in whatever case.
   */
  lemma {:induction false} TokensAre(s: Str, p: nat)
    requires p <= |s|
    ensures NamesChunked(s, p) <==> NamesIt(s[p..])
    decreases |s| - p
  {
    hide NamesChunked, NamesIt, IsChunked;
    if p == |s| {
      Nothing(s);
    } else if IsBlank(s[p]) || s[p] == COMMA {
      FrontIsSkipped(s, p);
      FrontDoesNotMatter(s[p..]);
      assert s[p..][1..] == s[p + 1..];
      TokensAre(s, p + 1);
      if p + 1 == |s| { Nothing(s); }
    } else {
      TokenIsWord(s, p);
      var c := p + CommaAt(s[p..]);
      NextPart(s, p);
      if c < |s| {
        FrontIsSkipped(s, c);
        TokensAre(s, c + 1);
        if c + 1 == |s| { Nothing(s); }
      }
    }
  }

  lemma Nothing(s: Str)
    ensures !NamesChunked(s, |s|) && !NamesIt(s[|s|..])
  {
    NoWord();
  }

  lemma NextPart(s: Str, p: nat)
    requires p <= |s|
    ensures var c := p + CommaAt(s[p..]);
      NamesIt(s[p..]) <==> IsChunked(s[p..c]) || (c < |s| && NamesIt(s[c + 1..]))
  {
    var c := CommaAt(s[p..]);
    assert s[p..][..c] == s[p..p + c];
    if c < |s| - p { assert s[p..][c + 1..] == s[p + c + 1..]; }
  }

  // ------------------------------------------------------------- all fields together

  /** The line, up to its LF, is a Content-Length field, and this is what its value means. */
  predicate IsLength(line: Str) { |line| >= 15 && SameWord(line[..15], Bytes("content-length:")) }

  function Meant(line: Str): Option<nat>
    requires IsLength(line)
  {
    Length(line[15..])
  }

  /** The line, up to its LF, is a Transfer-Encoding field that names the chunked coding. */
  predicate IsChunking(line: Str) {
    |line| >= 18 && SameWord(line[..18], Bytes("transfer-encoding:")) && NamesIt(line[18..])
  }

  lemma FieldMeans(line: Str, fields: Fields)
    ensures Field(line, fields) ==
      if IsLength(line) && (Meant(line).None? || (fields.length.Some? && fields.length != Meant(line))) then None
      else Some(Fields(if IsLength(line) then Meant(line) else fields.length, fields.chunked || IsChunking(line)))
  {
    hide Length, NamesChunked, NamesIt, SameWord;
    Constants();
    NamesIs(line, CONTENT_LENGTH);
    NamesIs(line, TRANSFER_ENCODING);
    if |line| >= 18 {
      TokensAre(line[18..], 0);
      assert line[18..][0..] == line[18..];
    }
  }

  lemma Constants()
    ensures CONTENT_LENGTH == Bytes("content-length:") && TRANSFER_ENCODING == Bytes("transfer-encoding:")
    ensures |CONTENT_LENGTH| == 15 && |TRANSFER_ENCODING| == 18
    ensures NoCapitals(CONTENT_LENGTH) && NoCapitals(TRANSFER_ENCODING)
  {
  }

  /** What the parser makes of one line after the other. */
  function Fold(lines: seq<Str>, fields: Fields): Option<Fields>
    decreases |lines|
  {
    if lines == [] then Some(fields)
    else
      match Field(lines[0], fields)
      case None => None
      case Some(next) => Fold(lines[1..], next)
  }

  /** The fields so far and these lines have one length between them, if any, and each is a number. */
  ghost predicate Agreed(lines: seq<Str>, found: Option<nat>, length: Option<nat>) {
    (found.Some? ==> length == found) &&
    (forall i :: 0 <= i < |lines| && IsLength(lines[i]) ==> length.Some? && Meant(lines[i]) == length) &&
    (length.Some? && found.None? ==> exists i :: 0 <= i < |lines| && IsLength(lines[i]))
  }

  ghost predicate AnyChunking(lines: seq<Str>) { exists i :: 0 <= i < |lines| && IsChunking(lines[i]) }

  lemma {:induction false} FoldedAll(lines: seq<Str>, fields: Fields, all: Fields)
    ensures Fold(lines, fields) == Some(all) <==>
      Agreed(lines, fields.length, all.length) && (all.chunked <==> fields.chunked || AnyChunking(lines))
    decreases |lines|
  {
    hide Field, IsLength, IsChunking, Meant;
    if lines != [] {
      FieldMeans(lines[0], fields);
      var next := Field(lines[0], fields);
      if next.Some? { FoldedAll(lines[1..], next.value, all); }
      assert forall i :: 0 <= i < |lines[1..]| ==> lines[1..][i] == lines[i + 1];
      assert forall i :: 1 <= i < |lines| ==> lines[i] == lines[1..][i - 1];
    }
  }

  /** The lines say this: the length every Content-Length field gives, if there is one, and chunked if a line does. */
  ghost predicate Say(lines: seq<Str>, all: Fields) {
    Agreed(lines, None, all.length) && (all.chunked <==> AnyChunking(lines))
  }

  /** What the header lines make of the fields is what they say together, in whatever order. */
  lemma FieldsTogether(lines: seq<Str>, all: Fields)
    ensures Fold(lines, Fields(None, false)) == Some(all) <==> Say(lines, all)
  {
    FoldedAll(lines, Fields(None, false), all);
  }
}
