/**
 What holds of every text the parser accepts: the tree stays within the nesting bound
 and can be printed and parsed again, and the message pre-scan for an escaped U+0000
 (mybot_app.c) never turns such a text away.
 */
module JsonAccepted {
  import opened CText
  import opened JsonGrammar
  import opened JsonRoundTrip
  import opened JsonParser

  /** No number of the tree was written with a fraction or an exponent. */
  predicate Integral(v: Value)
    decreases v, 0
  {
    match v
    case Fraction(_, _) => false
    case Array(items) => IntegralItems(items)
    case Object(members) => IntegralMembers(members)
    case _ => true
  }

  predicate IntegralItems(items: seq<Value>)
    decreases items, 1
  {
    items == [] || (Integral(items[0]) && IntegralItems(items[1..]))
  }

  predicate IntegralMembers(members: seq<Member>)
    decreases members, 1
  {
    members == [] || (Integral(members[0].value) && IntegralMembers(members[1..]))
  }

  /** An accepted value nests within the bound and, fractions aside, can be printed. */
  ghost predicate Accepted(v: Value, depth: nat) {
    Fits(depth, v) && (Integral(v) ==> Printable(v))
  }

  lemma {:induction false} AcceptedValue(t: Text, p: nat, depth: nat)
    requires p < |t| && PValue(t, p, depth).Ok?
    ensures Accepted(PValue(t, p, depth).value, depth)
    decreases |t| - p - 1, 4
  {
    hide PMarked, LooksAt;
    if PValue(t, p, depth) == PMarked(t, p, depth) { AcceptedMarked(t, p, depth); }
  }

  lemma {:induction false} AcceptedMarked(t: Text, p: nat, depth: nat)
    requires p < |t| && PMarked(t, p, depth).Ok?
    ensures Accepted(PMarked(t, p, depth).value, depth)
    decreases |t| - p - 1, 3
  {
    hide PString, PNumber, PItems, PMembers, Skip;
    if t[p] == '[' as int && PItems(t, p + 1, depth).Ok? {
      AcceptedItems(t, p + 1, depth);
    } else if t[p] == '{' as int && PMembers(t, p + 1, depth).Ok? {
      AcceptedMembers(t, p + 1, depth);
    }
  }

  lemma {:induction false} AcceptedItems(t: Text, p: nat, depth: nat)
    requires p < |t| && depth < MAX_NESTING && PItems(t, p, depth).Ok?
    ensures var items := PItems(t, p, depth).value;
            items != [] && depth + 1 + NestingOfItems(items) <= MAX_NESTING &&
            (IntegralItems(items) ==> PrintableItems(items))
    decreases |t| - p - 1, 5
  {
    hide PValue, Nesting, Printable, Integral;
    var item := PValue(t, Skip(t, p), depth + 1);
    AcceptedValue(t, Skip(t, p), depth + 1);
    var q := Skip(t, item.end);
    if t[q] == ',' as int {
      AcceptedItems(t, q + 1, depth);
      var others := PItems(t, q + 1, depth).value;
      assert ([item.value] + others)[1..] == others;
    } else {
      assert [item.value][1..] == [];
    }
  }

  lemma {:induction false} AcceptedMembers(t: Text, p: nat, depth: nat)
    requires p < |t| && depth < MAX_NESTING && PMembers(t, p, depth).Ok?
    ensures var members := PMembers(t, p, depth).value;
            members != [] && depth + 1 + NestingOfMembers(members) <= MAX_NESTING &&
            (IntegralMembers(members) ==> PrintableMembers(members))
    decreases |t| - p - 1, 5
  {
    hide PValue, PString, Nesting, Printable, Integral;
    var name := PString(t, Skip(t, p));
    AcceptedValue(t, Skip(t, Skip(t, name.end) + 1), depth + 1);
    var member := PMember(t, p, depth);
    var q := Skip(t, member.end);
    if t[q] == ',' as int {
      AcceptedMembers(t, q + 1, depth);
      var others := PMembers(t, q + 1, depth).value;
      assert ([member.value] + others)[1..] == others;
    } else {
      assert [member.value][1..] == [];
    }
  }

  /** Whatever was parsed can be printed and parsed again without loss. */
  lemma Reparse(t: Text)
    requires Parse(t).Some? && Integral(Parse(t).value)
    ensures Printable(Parse(t).value)
    ensures Parse(Print(Parse(t).value) + [0]) == Parse(t)
  {
    hide PValue, Print, Printable, Nesting, Integral;
    AcceptedValue(t, Skip(t, 0), 0);
    RoundTrip(Parse(t).value);
  }

  // ------------------------------------------------------------------- pre-scan

  const ESCAPED_NUL: Str := Bytes("u0000")

  /** The pre-scan from position p on: some escape sequence there is \u0000. */
  predicate Flagged(t: Text, p: nat)
    requires p < |t|
    decreases |t| - p
  {
    t[p] != 0 &&
    if t[p] != BACKSLASH then Flagged(t, p + 1)
    else t[p + 1] != 0 && (LooksAt(t, p + 1, ESCAPED_NUL) || Flagged(t, p + 2))
  }

  /** The scanning loop of the message handler. */
  method ContainsEscapedNul(t: Text) returns (found: bool)
    ensures found == Flagged(t, 0)
  {
    var p := 0;
    while t[p] != 0
      invariant p < |t| && Flagged(t, p) == Flagged(t, 0)
      decreases |t| - p
    {
      if t[p] == BACKSLASH {
        p := p + 1;
        if t[p] == 0 { break; }
        found := Matches(t, p, ESCAPED_NUL);
        if found { return true; }
      }
      p := p + 1;
    }
    return false;
  }

  /** From p to q the pre-scan steps over complete tokens and raises no flag. */
  ghost predicate Clean(t: Text, p: nat, q: nat)
    requires p < |t| && q < |t|
  {
    Flagged(t, p) == Flagged(t, q)
  }

  lemma {:induction false} CleanSkip(t: Text, p: nat)
    requires p < |t|
    ensures Clean(t, p, Skip(t, p))
    decreases |t| - p
  {
    if IsSpace(t[p]) { CleanSkip(t, p + 1); }
  }

  lemma CleanByte(t: Text, p: nat)
    requires p < |t| && t[p] != 0 && t[p] != BACKSLASH
    ensures Clean(t, p, p + 1)
  {
  }

  lemma CleanHex4(t: Text, p: nat)
    requires IsHex4(t, p)
    ensures Clean(t, p, p + 4)
  {
    assert Clean(t, p, p + 1) && Clean(t, p + 1, p + 2);
    assert Clean(t, p + 2, p + 3) && Clean(t, p + 3, p + 4);
  }

  lemma EscapedNulIsZero(t: Text, p: nat)
    requires LooksAt(t, p, ESCAPED_NUL)
    ensures IsHex4(t, p + 1) && Hex4(t, p + 1) == 0
  {
    Shows(t, p, ESCAPED_NUL);
    assert t[p + 1] == ESCAPED_NUL[1] && t[p + 2] == ESCAPED_NUL[2];
    assert t[p + 3] == ESCAPED_NUL[3] && t[p + 4] == ESCAPED_NUL[4];
  }

  /** A \u escape of anything but U+0000 does not raise the flag. */
  lemma CleanUnit(t: Text, p: nat)
    requires IsHex4(t, p + 2) && Hex4(t, p + 2) != 0
    requires t[p] == BACKSLASH && t[p + 1] == 'u' as int
    ensures Clean(t, p, p + 6)
  {
    hide LooksAt, Hex4;
    CleanHex4(t, p + 2);
    if LooksAt(t, p + 1, ESCAPED_NUL) { EscapedNulIsZero(t, p + 1); }
  }

  lemma CleanEscape(t: Text, p: nat)
    requires p < |t| && t[p] == BACKSLASH && PEscape(t, p + 1).Ok?
    ensures Clean(t, p, PEscape(t, p + 1).end)
  {
    hide Flagged;
    if IsSimpleEscape(t[p + 1]) {
      CleanLetter(t, p);
    } else {
      CleanUnit(t, p);
      if IsHighSurrogate(Hex4(t, p + 2)) { CleanUnit(t, p + 6); }
    }
  }

  lemma CleanLetter(t: Text, p: nat)
    requires p < |t| && t[p] == BACKSLASH && IsSimpleEscape(t[p + 1])
    ensures Clean(t, p, p + 2)
  {
    if LooksAt(t, p + 1, ESCAPED_NUL) { Head(t, p + 1, ESCAPED_NUL); }
  }

  lemma {:induction false} CleanChars(t: Text, p: nat)
    requires p < |t| && PChars(t, p).Ok?
    ensures Clean(t, p, PChars(t, p).end)
    decreases |t| - p
  {
    hide PEscape, LooksAt;
    if t[p] == BACKSLASH {
      CleanEscape(t, p);
      CleanChars(t, PEscape(t, p + 1).end);
    } else if t[p] != QUOTE {
      CleanChars(t, p + 1);
    }
  }

  lemma {:induction false} CleanDigits(t: Text, p: nat, n: nat, limit: int)
    requires p < |t| && PDigits(t, p, n, limit).Ok?
    ensures Clean(t, p, PDigits(t, p, n, limit).end)
    decreases |t| - p
  {
    if IsDigit(t[p]) { CleanDigits(t, p + 1, n * 10 + Digit(t[p]), limit); }
  }

  lemma {:induction false} CleanFraction(t: Text, p: nat, m: nat, scale: int)
    requires p < |t| && PFraction(t, p, m, scale).Ok?
    ensures Clean(t, p, PFraction(t, p, m, scale).end)
    decreases |t| - p
  {
    if IsDigit(t[p]) { CleanFraction(t, p + 1, m * 10 + Digit(t[p]), scale - 1); }
  }

  lemma CleanScaled(t: Text, p: nat, negative: bool, m: nat, scale: int)
    requires p < |t| && PScaled(t, p, negative, m, scale).Ok?
    ensures Clean(t, p, PScaled(t, p, negative, m, scale).end)
  {
    hide PDigits, InRange, Flagged;
    if IsExponentMark(t[p]) {
      CleanByte(t, p);
      var signed := t[p + 1] == '+' as int || t[p + 1] == '-' as int;
      if signed { CleanByte(t, p + 1); }
      var q := if signed then p + 2 else p + 1;
      CleanDigits(t, q, 0, INT_MAX);
    }
  }

  lemma CleanNumber(t: Text, p: nat)
    requires p < |t| && PNumber(t, p).Ok?
    ensures Clean(t, p, PNumber(t, p).end)
  {
    hide PDigits, PFraction, PScaled, Flagged;
    var q := if t[p] == '-' as int then p + 1 else p;
    if t[p] == '-' as int { CleanByte(t, p); }
    if t[q] == '0' as int { CleanByte(t, q); } else { CleanDigits(t, q, 0, ULLONG_MAX); }
    var integer := PInteger(t, q);
    if t[integer.end] == '.' as int {
      CleanByte(t, integer.end);
      CleanFraction(t, integer.end + 1, integer.value, 0);
      var digits := PFraction(t, integer.end + 1, integer.value, 0);
      CleanScaled(t, digits.end, t[p] == '-' as int, digits.value.0, digits.value.1);
    } else if IsExponentMark(t[integer.end]) {
      CleanScaled(t, integer.end, t[p] == '-' as int, integer.value, 0);
    }
  }

  lemma {:induction false} CleanRun(t: Text, p: nat, word: Str)
    requires LooksAt(t, p, word) && NulFree(word) && BACKSLASH !in word
    ensures Clean(t, p, p + |word|)
    decreases |word|
  {
    if word != [] {
      assert word == [word[0]] + word[1..];
      Split(t, p, [word[0]], word[1..]);
      Head(t, p, word);
      CleanRun(t, p + 1, word[1..]);
    }
  }

  lemma {:induction false} CleanValue(t: Text, p: nat, depth: nat)
    requires p < |t| && PValue(t, p, depth).Ok?
    ensures Clean(t, p, PValue(t, p, depth).end)
    decreases |t| - p - 1, 4
  {
    hide Clean, LooksAt, PMarked;
    if LooksAt(t, p, NULL_TEXT) { CleanRun(t, p, NULL_TEXT); }
    else if LooksAt(t, p, FALSE_TEXT) { CleanRun(t, p, FALSE_TEXT); }
    else if LooksAt(t, p, TRUE_TEXT) { CleanRun(t, p, TRUE_TEXT); }
    else { CleanMarked(t, p, depth); }
  }

  lemma {:induction false} CleanMarked(t: Text, p: nat, depth: nat)
    requires p < |t| && PMarked(t, p, depth).Ok?
    ensures Clean(t, p, PMarked(t, p, depth).end)
    decreases |t| - p - 1, 3
  {
    hide LooksAt, PNumber, PItems, PMembers, PChars, Skip;
    if t[p] == QUOTE { CleanChars(t, p + 1); }
    else if t[p] == '-' as int || IsDigit(t[p]) { CleanNumber(t, p); }
    else {
      CleanSkip(t, p + 1);
      if PItems(t, p + 1, depth).Ok? { CleanItems(t, p + 1, depth); }
      if PMembers(t, p + 1, depth).Ok? { CleanMembers(t, p + 1, depth); }
    }
  }

  lemma {:induction false} CleanItems(t: Text, p: nat, depth: nat)
    requires p < |t| && PItems(t, p, depth).Ok?
    ensures Clean(t, p, PItems(t, p, depth).end)
    decreases |t| - p - 1, 5
  {
    hide PValue, LooksAt, Skip;
    CleanSkip(t, p);
    CleanValue(t, Skip(t, p), depth + 1);
    var end := PValue(t, Skip(t, p), depth + 1).end;
    CleanSkip(t, end);
    if t[Skip(t, end)] == ',' as int { CleanItems(t, Skip(t, end) + 1, depth); }
  }

  lemma {:induction false} CleanMember(t: Text, p: nat, depth: nat)
    requires p < |t| && PMember(t, p, depth).Ok?
    ensures Clean(t, p, PMember(t, p, depth).end)
    decreases |t| - p - 1, 5
  {
    hide PValue, PChars, LooksAt, Skip;
    CleanSkip(t, p);
    CleanChars(t, Skip(t, p) + 1);
    var end := PString(t, Skip(t, p)).end;
    CleanSkip(t, end);
    CleanSkip(t, Skip(t, end) + 1);
    CleanValue(t, Skip(t, Skip(t, end) + 1), depth + 1);
  }

  lemma {:induction false} CleanMembers(t: Text, p: nat, depth: nat)
    requires p < |t| && PMembers(t, p, depth).Ok?
    ensures Clean(t, p, PMembers(t, p, depth).end)
    decreases |t| - p - 1, 6
  {
    hide PMember, LooksAt, Skip;
    CleanMember(t, p, depth);
    var end := PMember(t, p, depth).end;
    CleanSkip(t, end);
    if t[Skip(t, end)] == ',' as int { CleanMembers(t, Skip(t, end) + 1, depth); }
  }

  /** Dropping the texts the pre-scan flags drops nothing the parser would take. */
  lemma PrescanDropsNothing(t: Text)
    ensures Parse(t).Some? ==> !Flagged(t, 0)
    ensures (if Flagged(t, 0) then None else Parse(t)) == Parse(t)
  {
    hide PValue, LooksAt, Skip;
    if Parse(t).Some? {
      CleanSkip(t, 0);
      CleanValue(t, Skip(t, 0), 0);
      CleanSkip(t, PValue(t, Skip(t, 0), 0).end);
    }
  }

  // --------------------------------------------------------- what the pre-scan looks for

  /** A byte that is no backslash, or a backslash and a byte. */
  predicate IsToken(s: Str) {
    (|s| == 1 && s[0] != 0 && s[0] != 0x5C) || (|s| == 2 && s[0] == 0x5C && s[1] != 0)
  }

  predicate AreTokens(tokens: seq<Str>) { forall i :: 0 <= i < |tokens| ==> IsToken(tokens[i]) }

  function Together(tokens: seq<Str>): Str {
    if tokens == [] then [] else tokens[0] + Together(tokens[1..])
  }

  const NUL_ESCAPE: Str := Bytes("\\u0000")

  /** Behind these tokens the text goes on with the escape. */
  predicate EscapesNul(text: Str, tokens: seq<Str>, rest: Str) {
    AreTokens(tokens) && text == Together(tokens) + (NUL_ESCAPE + rest)
  }

  lemma EscapeIs(t: Text, p: nat)
    requires p < |t|
    ensures t[p] == BACKSLASH && LooksAt(t, p + 1, ESCAPED_NUL) <==> p + 6 < |t| && t[p..p + 6] == NUL_ESCAPE
  {
    assert NUL_ESCAPE == [BACKSLASH] + ESCAPED_NUL;
    if p + 6 < |t| { assert t[p..p + 6] == [t[p]] + t[p + 1..p + 6]; }
  }

  lemma {:induction false} FlagFound(t: Text, p: nat) returns (tokens: seq<Str>, rest: Str)
    requires p < |t| && Flagged(t, p)
    ensures EscapesNul(t[p..], tokens, rest)
    decreases |t| - p
  {
    hide LooksAt;
    EscapeIs(t, p);
    if t[p] == BACKSLASH && LooksAt(t, p + 1, ESCAPED_NUL) {
      tokens, rest := [], t[p + 6..];
      assert t[p..] == t[p..p + 6] + rest;
    } else {
      var q := if t[p] == BACKSLASH then p + 2 else p + 1;
      var others;
      others, rest := FlagFound(t, q);
      tokens := [t[p..q]] + others;
      assert tokens[1..] == others;
      assert t[p..] == t[p..q] + t[q..];
    }
  }

  lemma {:induction false} FlagRaised(t: Text, p: nat, tokens: seq<Str>, rest: Str)
    requires p < |t| && EscapesNul(t[p..], tokens, rest)
    ensures Flagged(t, p)
    decreases |tokens|
  {
    hide LooksAt;
    EscapeIs(t, p);
    if tokens == [] {
      assert t[p..p + 6] == t[p..][..6];
    } else {
      var first, tail := tokens[0], Together(tokens[1..]) + (NUL_ESCAPE + rest);
      assert Together(tokens) + (NUL_ESCAPE + rest) == first + tail;
      TokenStands(t, p, first, tail);
      FlagRaised(t, p + |first|, tokens[1..], rest);
    }
  }

  lemma TokenStands(t: Text, p: nat, token: Str, tail: Str)
    requires p < |t| && IsToken(token) && t[p..] == token + tail && tail != []
    ensures p + |token| < |t| && t[p + |token|..] == tail && t[p] == token[0]
    ensures |token| == 2 ==> t[p + 1] == token[1]
  {
    assert t[p + |token|..] == t[p..][|token|..];
    assert t[p] == t[p..][0] && (|token| == 2 ==> t[p + 1] == t[p..][1]);
  }

  /** The pre-scan drops a text exactly if an escape in it, told by its tokens, is that of NUL. */
  lemma FlagsExactlyEscapedNul(t: Text)
    ensures Flagged(t, 0) <==> exists tokens, rest :: EscapesNul(t, tokens, rest)
  {
    hide Flagged, EscapesNul;
    assert t[0..] == t;
    if Flagged(t, 0) { var tokens, rest := FlagFound(t, 0); }
    if tokens, rest :| EscapesNul(t, tokens, rest) { FlagRaised(t, 0, tokens, rest); }
  }
}
