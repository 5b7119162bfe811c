/**
 What the printer of mybot_json.c emits for a tree, and the proof that the parser
 gives the same tree back exactly when its containers nest at most 32 deep.
 */
module JsonRoundTrip {
  import opened CText
  import opened JsonGrammar

  // ------------------------------------------------------------------ printing

  function DecimalDigits(n: nat): (r: Str)
    ensures |r| >= 1 && forall i | 0 <= i < |r| :: IsDigit(r[i])
    ensures n > 0 ==> r[0] != '0' as int
    ensures n == 0 ==> r == ['0' as int]
  {
    if n < 10 then ['0' as int + n] else DecimalDigits(n / 10) + ['0' as int + n % 10]
  }

  /** The text "%lld" gives. */
  function PrintInteger(n: int): Str {
    if n < 0 then ['-' as int] + DecimalDigits(-n) else DecimalDigits(n)
  }

  function HexDigit(d: nat): (r: Byte)
    requires d < 16
    ensures IsHex(r) && HexVal(r) == d
  {
    if d < 10 then '0' as int + d else 'a' as int + (d - 10)
  }

  /** One byte of a string as the printer escapes it. */
  function EscapeByte(b: Byte): (r: Str)
    ensures 1 <= |r| <= 6
  {
    if b > 31 && b != QUOTE && b != BACKSLASH then [b]
    else if b == QUOTE || b == BACKSLASH then [BACKSLASH, b]
    else if b == 8 then [BACKSLASH, 'b' as int]
    else if b == 12 then [BACKSLASH, 'f' as int]
    else if b == 10 then [BACKSLASH, 'n' as int]
    else if b == 13 then [BACKSLASH, 'r' as int]
    else if b == 9 then [BACKSLASH, 't' as int]
    else [BACKSLASH, 'u' as int, '0' as int, '0' as int, HexDigit(b / 16), HexDigit(b % 16)]
  }

  function EscapeAll(s: Str): Str {
    if s == [] then [] else EscapeByte(s[0]) + EscapeAll(s[1..])
  }

  function PrintString(s: Str): Str {
    [QUOTE] + EscapeAll(s) + [QUOTE]
  }

  /** The trees the round trip is about: integers of 64 bits and strings without NUL. */
  predicate Printable(v: Value)
    decreases v, 0
  {
    match v
    case Number(n) => LLONG_MIN <= n <= LLONG_MAX
    case Fraction(_, _) => false
    case String(text) => NulFree(text)
    case Array(items) => PrintableItems(items)
    case Object(members) => PrintableMembers(members)
    case _ => true
  }

  predicate PrintableItems(items: seq<Value>)
    decreases items, 1
  {
    items == [] || (Printable(items[0]) && PrintableItems(items[1..]))
  }

  predicate PrintableMembers(members: seq<Member>)
    decreases members, 1
  {
    members == [] ||
    (NulFree(members[0].name) && Printable(members[0].value) && PrintableMembers(members[1..]))
  }

  function Print(v: Value): (r: Str)
    requires Printable(v)
    ensures |r| > 0 && !IsSpace(r[0]) && r[0] != ']' as int
    decreases v, 0
  {
    match v
    case Null => NULL_TEXT
    case False => FALSE_TEXT
    case True => TRUE_TEXT
    case Number(n) => PrintInteger(n)
    case String(text) => PrintString(text)
    case Array(items) =>
      if items == [] then ['[' as int, ']' as int] else ['[' as int] + PrintItems(items)
    case Object(members) =>
      if members == [] then ['{' as int, '}' as int] else ['{' as int] + PrintMembers(members)
  }

  /** The items of a non-empty array with their separators and closing bracket. */
  function PrintItems(items: seq<Value>): (r: Str)
    requires items != [] && PrintableItems(items)
    ensures |r| > 0 && !IsSpace(r[0]) && r[0] != ']' as int
    decreases items, 1
  {
    Print(items[0]) +
    (if |items| == 1 then [']' as int] else [',' as int] + PrintItems(items[1..]))
  }

  function PrintMember(m: Member): (r: Str)
    requires NulFree(m.name) && Printable(m.value)
    ensures |r| > 0 && r[0] == QUOTE
    decreases m, 1
  {
    PrintString(m.name) + [':' as int] + Print(m.value)
  }

  function PrintMembers(members: seq<Member>): (r: Str)
    requires members != [] && PrintableMembers(members)
    ensures |r| > 0 && r[0] == QUOTE
    decreases members, 2
  {
    PrintMember(members[0]) +
    (if |members| == 1 then ['}' as int] else [',' as int] + PrintMembers(members[1..]))
  }

  // ------------------------------------------------------------------- nesting

  function Max(a: nat, b: nat): nat { if a < b then b else a }

  /** How many containers deep a tree is. */
  function Nesting(v: Value): nat
    decreases v, 0
  {
    match v
    case Array(items) => 1 + NestingOfItems(items)
    case Object(members) => 1 + NestingOfMembers(members)
    case _ => 0
  }

  function NestingOfItems(items: seq<Value>): nat
    decreases items, 1
  {
    if items == [] then 0 else Max(Nesting(items[0]), NestingOfItems(items[1..]))
  }

  function NestingOfMembers(members: seq<Member>): nat
    decreases members, 1
  {
    if members == [] then 0 else Max(Nesting(members[0].value), NestingOfMembers(members[1..]))
  }

  // ------------------------------------------------------------- text fragments

  /** A text that shows a + b at p shows a at p and b after it. */
  lemma Split(t: Text, p: nat, a: Str, b: Str)
    requires LooksAt(t, p, a + b)
    ensures LooksAt(t, p, a) && LooksAt(t, p + |a|, b)
  {
    ReadsBoth(t, p, a, b);
  }

  lemma Shows(t: Text, p: nat, a: Str)
    requires LooksAt(t, p, a)
    ensures forall i | 0 <= i < |a| :: t[p + i] == a[i]
  {
    forall i | 0 <= i < |a| ensures t[p + i] == a[i] { ReadsEach(t, p, a, i); }
  }

  lemma Head(t: Text, p: nat, a: Str)
    requires LooksAt(t, p, a) && a != []
    ensures p < |t| && t[p] == a[0]
  {
    Shows(t, p, a);
  }

  lemma SkipNothing(t: Text, p: nat)
    requires p < |t| && !IsSpace(t[p])
    ensures Skip(t, p) == p
  {
  }

  // -------------------------------------------------------------------- strings

  lemma EscapedByteParses(t: Text, p: nat, b: Byte)
    requires b != 0 && LooksAt(t, p, EscapeByte(b))
    ensures |EscapeByte(b)| == 1 ==> t[p] == b > 31 && b != QUOTE && b != BACKSLASH
    ensures |EscapeByte(b)| > 1 ==>
              t[p] == BACKSLASH && PEscape(t, p + 1) == Ok([b], p + |EscapeByte(b)|)
  {
    var e := EscapeByte(b);
    Shows(t, p, e);
    hide PChars;
    if |e| == 2 {
      assert PEscape(t, p + 1) == Ok([b], p + 2);
    } else if |e| == 6 {
      assert t[p + 2] == e[2] && t[p + 3] == e[3] && t[p + 4] == e[4] && t[p + 5] == e[5];
      assert IsHex4(t, p + 2) && Hex4(t, p + 2) == b / 16 * 16 + b % 16;
      assert PEscape(t, p + 1) == Ok(Utf8(b), p + 6);
    }
  }

  lemma {:induction false} EscapedCharsParse(t: Text, p: nat, s: Str)
    requires NulFree(s) && LooksAt(t, p, EscapeAll(s) + [QUOTE])
    ensures PChars(t, p) == Ok(s, p + |EscapeAll(s)| + 1)
    decreases |s|
  {
    hide PEscape, EscapeByte, PUnicode, LooksAt;
    Split(t, p, EscapeAll(s), [QUOTE]);
    Head(t, p + |EscapeAll(s)|, [QUOTE]);
    if s != [] {
      var first, others := EscapeByte(s[0]), EscapeAll(s[1..]);
      assert EscapeAll(s) + [QUOTE] == first + (others + [QUOTE]);
      Split(t, p, first, others + [QUOTE]);
      EscapedByteParses(t, p, s[0]);
      EscapedCharsParse(t, p + |first|, s[1..]);
      assert s == [s[0]] + s[1..];
    }
  }

  lemma StringParses(t: Text, p: nat, s: Str)
    requires NulFree(s) && LooksAt(t, p, PrintString(s))
    ensures t[p] == QUOTE && PString(t, p) == Ok(s, p + |PrintString(s)|)
  {
    assert PrintString(s) == [QUOTE] + (EscapeAll(s) + [QUOTE]);
    Split(t, p, [QUOTE], EscapeAll(s) + [QUOTE]);
    Head(t, p, [QUOTE]);
    EscapedCharsParse(t, p + 1, s);
  }

  // -------------------------------------------------------------------- numbers

  lemma {:induction false} DigitsParse(t: Text, p: nat, n: nat, limit: int)
    requires n <= limit && LooksAt(t, p, DecimalDigits(n))
    ensures PDigits(t, p, 0, limit) == PDigits(t, p + |DecimalDigits(n)|, n, limit)
  {
    hide LooksAt;
    Head(t, p, DecimalDigits(n));
    if n >= 10 {
      Split(t, p, DecimalDigits(n / 10), ['0' as int + n % 10]);
      Head(t, p + |DecimalDigits(n / 10)|, ['0' as int + n % 10]);
      DigitsParse(t, p, n / 10, limit);
    }
  }

  /** A byte that cannot continue a printed number. */
  predicate EndsNumber(b: Byte) {
    !IsDigit(b) && b != '.' as int && !IsExponentMark(b)
  }

  lemma MagnitudeParses(t: Text, p: nat, n: nat)
    requires n <= ULLONG_MAX && LooksAt(t, p, DecimalDigits(n))
    requires !IsDigit(t[p + |DecimalDigits(n)|])
    ensures IsDigit(t[p]) && PInteger(t, p) == Ok(n, p + |DecimalDigits(n)|)
  {
    hide DecimalDigits;
    Head(t, p, DecimalDigits(n));
    DigitsParse(t, p, n, ULLONG_MAX);
  }

  lemma IntegerParses(t: Text, p: nat, n: int)
    requires LLONG_MIN <= n <= LLONG_MAX && LooksAt(t, p, PrintInteger(n))
    requires EndsNumber(t[p + |PrintInteger(n)|])
    ensures PNumber(t, p) == Ok(Number(n), p + |PrintInteger(n)|)
    ensures t[p] == '-' as int || IsDigit(t[p])
  {
    hide DecimalDigits, PInteger, PFraction, PScaled, LooksAt, IsExponentMark;
    if n < 0 {
      Split(t, p, ['-' as int], DecimalDigits(-n));
      Head(t, p, ['-' as int]);
      MagnitudeParses(t, p + 1, -n);
      assert Signed(true, -n) == n;
    } else {
      MagnitudeParses(t, p, n);
    }
  }

  /** Digits beyond the limit are refused, however many of them follow. */
  lemma {:induction false} DigitsOverflow(t: Text, p: nat, n: nat, limit: int)
    requires n > limit >= 9 && LooksAt(t, p, DecimalDigits(n))
    ensures PDigits(t, p, 0, limit) == Fail
  {
    Split(t, p, DecimalDigits(n / 10), ['0' as int + n % 10]);
    if n / 10 > limit {
      DigitsOverflow(t, p, n / 10, limit);
    } else {
      Head(t, p + |DecimalDigits(n / 10)|, ['0' as int + n % 10]);
      DigitsParse(t, p, n / 10, limit);
    }
  }

  lemma LargeIntegerRefused(t: Text, p: nat, n: int)
    requires (n < LLONG_MIN || n > LLONG_MAX) && LooksAt(t, p, PrintInteger(n))
    requires EndsNumber(t[p + |PrintInteger(n)|])
    ensures PNumber(t, p) == Fail
  {
    hide DecimalDigits, PDigits, PFraction, PScaled, LooksAt, IsExponentMark;
    var m := if n < 0 then 0 - n else n;
    var q := if n < 0 then p + 1 else p;
    if n < 0 {
      Split(t, p, ['-' as int], DecimalDigits(m));
      Head(t, p, ['-' as int]);
    }
    Head(t, q, DecimalDigits(m));
    if m > ULLONG_MAX { DigitsOverflow(t, q, m, ULLONG_MAX); } else { MagnitudeParses(t, q, m); }
  }

  /** A decimal integer of any size is accepted exactly if it fits 64 bits, and then is itself. */
  lemma IntegerExact(n: int)
    ensures Parse(PrintInteger(n) + [0]) == if LLONG_MIN <= n <= LLONG_MAX then Some(Number(n)) else None
  {
    hide PNumber, DecimalDigits;
    var word := PrintInteger(n);
    var t: Text := word + [0];
    assert t[0..|word|] == word;
    SkipNothing(t, 0);
    SkipNothing(t, |word|);
    Head(t, 0, word);
    NotAWord(t, 0);
    if LLONG_MIN <= n <= LLONG_MAX { IntegerParses(t, 0, n); } else { LargeIntegerRefused(t, 0, n); }
  }

  // --------------------------------------------------------------------- values

  /** The containers of v, opened at this depth, stay within the bound. */
  predicate Fits(depth: nat, v: Value) {
    Nesting(v) == 0 || depth + Nesting(v) <= MAX_NESTING
  }

  /** The parse of a printed value: the value again, or a refusal when it nests too deep. */
  function Expected<T>(fits: bool, value: T, end: nat): Parsed<T> {
    if fits then Ok(value, end) else Fail
  }

  lemma NotAWord(t: Text, p: nat)
    requires p < |t| && t[p] != 'n' as int && t[p] != 'f' as int && t[p] != 't' as int
    ensures forall depth :: PValue(t, p, depth) == PMarked(t, p, depth)
  {
    hide PMarked;
    if LooksAt(t, p, NULL_TEXT) { Head(t, p, NULL_TEXT); }
    if LooksAt(t, p, FALSE_TEXT) { Head(t, p, FALSE_TEXT); }
    if LooksAt(t, p, TRUE_TEXT) { Head(t, p, TRUE_TEXT); }
  }

  lemma WordParses(t: Text, p: nat, v: Value, depth: nat)
    requires v == Null || v == False || v == True
    requires p < |t| && LooksAt(t, p, Print(v))
    ensures PValue(t, p, depth) == Ok(v, p + |Print(v)|)
  {
    hide PMarked;
    Shows(t, p, Print(v));
  }

  lemma {:induction false} ValueParses(t: Text, p: nat, v: Value, depth: nat)
    requires Printable(v) && p < |t| && LooksAt(t, p, Print(v)) && EndsNumber(t[p + |Print(v)|])
    ensures PValue(t, p, depth) == Expected(Fits(depth, v), v, p + |Print(v)|)
    decreases v, 0
  {
    hide LooksAt, PValue, PrintItems, PrintMembers, PrintString, PrintInteger, PString, PArray, PObject, PNumber,
      NestingOfItems, NestingOfMembers, PrintableItems, PrintableMembers;
    if v == Null || v == False || v == True {
      WordParses(t, p, v, depth);
    } else {
      match v {
        case Number(n) => IntegerParses(t, p, n);
        case String(text) => StringParses(t, p, text);
        case Array(items) =>
          if items == [] { EmptyArrayParses(t, p, depth); } else { ArrayParses(t, p, items, depth); }
        case Object(members) =>
          if members == [] { EmptyObjectParses(t, p, depth); } else { ObjectParses(t, p, members, depth); }
      }
      NotAWord(t, p);
    }
  }

  lemma ItemsPrint(items: seq<Value>)
    requires items != [] && PrintableItems(items)
    ensures Printable(items[0])
    ensures |items| == 1 ==> PrintItems(items) == Print(items[0]) + [']' as int]
    ensures |items| > 1 ==> PrintableItems(items[1..])
    ensures |items| > 1 ==> PrintItems(items) == Print(items[0]) + ([',' as int] + PrintItems(items[1..]))
  {
    hide Print, Printable;
    if |items| > 1 {
      var first, tail := Print(items[0]), PrintItems(items[1..]);
      assert first + [',' as int] + tail == first + ([',' as int] + tail);
    }
  }

  /** Where the pieces of a printed array lie. */
  lemma ItemsLayout(t: Text, p: nat, items: seq<Value>)
    requires items != [] && PrintableItems(items) && LooksAt(t, p, PrintItems(items))
    ensures LooksAt(t, p, Print(items[0])) && Skip(t, p) == p
    ensures var q := p + |Print(items[0])|;
            Skip(t, q) == q && t[q] == (if |items| == 1 then ']' as int else ',' as int) &&
            (|items| == 1 ==> p + |PrintItems(items)| == q + 1) &&
            (|items| > 1 ==> LooksAt(t, q + 1, PrintItems(items[1..])) &&
                             p + |PrintItems(items)| == q + 1 + |PrintItems(items[1..])|)
  {
    hide Print, Printable, LooksAt, PrintItems, PrintableItems, Skip;
    ItemsPrint(items);
    var first := Print(items[0]);
    var q := p + |first|;
    if |items| == 1 {
      Split(t, p, first, [']' as int]);
      Head(t, q, [']' as int]);
    } else {
      var tail := PrintItems(items[1..]);
      Split(t, p, first, [',' as int] + tail);
      Split(t, q, [',' as int], tail);
      Head(t, q, [',' as int]);
    }
    Head(t, p, first);
    SkipNothing(t, p);
    SkipNothing(t, q);
  }

  lemma {:induction false} ItemsParse(t: Text, p: nat, items: seq<Value>, depth: nat)
    requires items != [] && PrintableItems(items) && LooksAt(t, p, PrintItems(items))
    requires depth < MAX_NESTING
    ensures PItems(t, p, depth) ==
            Expected(depth + 1 + NestingOfItems(items) <= MAX_NESTING, items, p + |PrintItems(items)|)
    decreases items, 1
  {
    hide PValue, Print, Nesting, Printable, PrintItems;
    ItemsLayout(t, p, items);
    ValueParses(t, p, items[0], depth + 1);
    var rest := items[1..];
    assert items == [items[0]] + rest;
    if |items| > 1 {
      ItemsParse(t, p + |Print(items[0])| + 1, rest, depth);
    } else {
      assert rest == [] && items == [items[0]];
    }
  }

  lemma EmptyArrayParses(t: Text, p: nat, depth: nat)
    requires LooksAt(t, p, ['[' as int, ']' as int])
    ensures Nesting(Array([])) == 1
    ensures t[p] == '[' as int && PArray(t, p, depth) == Expected(depth < MAX_NESTING, Array([]), p + 2)
  {
    hide PItems;
    Shows(t, p, ['[' as int, ']' as int]);
    SkipNothing(t, p + 1);
  }

  lemma {:induction false} ArrayParses(t: Text, p: nat, items: seq<Value>, depth: nat)
    requires items != [] && PrintableItems(items)
    requires LooksAt(t, p, ['[' as int] + PrintItems(items))
    ensures t[p] == '[' as int
    ensures PArray(t, p, depth) == Expected(depth + 1 + NestingOfItems(items) <= MAX_NESTING,
                                            Array(items), p + 1 + |PrintItems(items)|)
    decreases items, 2
  {
    hide PItems, PrintItems, PrintableItems, NestingOfItems;
    Split(t, p, ['[' as int], PrintItems(items));
    Head(t, p, ['[' as int]);
    Head(t, p + 1, PrintItems(items));
    SkipNothing(t, p + 1);
    if depth < MAX_NESTING { ItemsParse(t, p + 1, items, depth); }
  }

  /** Where the pieces of a printed member lie. */
  lemma MemberLayout(t: Text, p: nat, m: Member)
    requires NulFree(m.name) && Printable(m.value) && LooksAt(t, p, PrintMember(m))
    ensures LooksAt(t, p, PrintString(m.name)) && Skip(t, p) == p
    ensures var q := p + |PrintString(m.name)|;
            Skip(t, q) == q && t[q] == ':' as int && Skip(t, q + 1) == q + 1 &&
            LooksAt(t, q + 1, Print(m.value)) && p + |PrintMember(m)| == q + 1 + |Print(m.value)|
  {
    hide Print, PrintString, Printable;
    var name, value := PrintString(m.name), Print(m.value);
    var q := p + |name|;
    assert PrintMember(m) == name + ([':' as int] + value);
    Split(t, p, name, [':' as int] + value);
    Split(t, q, [':' as int], value);
    Head(t, p, name);
    Head(t, q, [':' as int]);
    Head(t, q + 1, value);
    SkipNothing(t, p);
    SkipNothing(t, q);
    SkipNothing(t, q + 1);
  }

  lemma {:induction false} MemberParses(t: Text, p: nat, m: Member, depth: nat)
    requires NulFree(m.name) && Printable(m.value)
    requires LooksAt(t, p, PrintMember(m)) && EndsNumber(t[p + |PrintMember(m)|])
    ensures PMember(t, p, depth) == Expected(Fits(depth + 1, m.value), m, p + |PrintMember(m)|)
    decreases m, 1
  {
    hide PValue, PString, Print, PrintString, PrintMember, Nesting, Printable;
    MemberLayout(t, p, m);
    StringParses(t, p, m.name);
    ValueParses(t, p + |PrintString(m.name)| + 1, m.value, depth + 1);
  }

  /** The text of a printed object: its first member and the rest. */
  lemma MembersPrint(members: seq<Member>)
    requires members != [] && PrintableMembers(members)
    ensures NulFree(members[0].name) && Printable(members[0].value)
    ensures |members| == 1 ==> PrintMembers(members) == PrintMember(members[0]) + ['}' as int]
    ensures |members| > 1 ==> PrintableMembers(members[1..])
    ensures |members| > 1 ==>
              PrintMembers(members) == PrintMember(members[0]) + ([',' as int] + PrintMembers(members[1..]))
  {
    hide PrintMember, Printable;
    if |members| > 1 {
      var first, tail := PrintMember(members[0]), PrintMembers(members[1..]);
      assert first + [',' as int] + tail == first + ([',' as int] + tail);
    }
  }

  /** Where the pieces of a printed object lie. */
  lemma MembersLayout(t: Text, p: nat, members: seq<Member>)
    requires members != [] && PrintableMembers(members) && LooksAt(t, p, PrintMembers(members))
    ensures LooksAt(t, p, PrintMember(members[0]))
    ensures var q := p + |PrintMember(members[0])|;
            Skip(t, q) == q && t[q] == (if |members| == 1 then '}' as int else ',' as int) &&
            (|members| == 1 ==> p + |PrintMembers(members)| == q + 1) &&
            (|members| > 1 ==> LooksAt(t, q + 1, PrintMembers(members[1..])) &&
                               p + |PrintMembers(members)| == q + 1 + |PrintMembers(members[1..])|)
  {
    hide PrintMember, Printable, LooksAt, PrintMembers, PrintableMembers, Skip;
    MembersPrint(members);
    var first := PrintMember(members[0]);
    var q := p + |first|;
    if |members| == 1 {
      Split(t, p, first, ['}' as int]);
      Head(t, q, ['}' as int]);
    } else {
      var tail := PrintMembers(members[1..]);
      Split(t, p, first, [',' as int] + tail);
      Split(t, q, [',' as int], tail);
      Head(t, q, [',' as int]);
    }
    SkipNothing(t, q);
  }

  lemma {:induction false} MembersParse(t: Text, p: nat, members: seq<Member>, depth: nat)
    requires members != [] && PrintableMembers(members) && LooksAt(t, p, PrintMembers(members))
    requires depth < MAX_NESTING
    ensures PMembers(t, p, depth) ==
            Expected(depth + 1 + NestingOfMembers(members) <= MAX_NESTING, members,
                     p + |PrintMembers(members)|)
    decreases members, 2
  {
    hide PMember, PrintMember, Nesting, Printable, PrintMembers;
    MembersLayout(t, p, members);
    MemberParses(t, p, members[0], depth);
    if |members| > 1 {
      MembersParse(t, p + |PrintMember(members[0])| + 1, members[1..], depth);
      assert members == [members[0]] + members[1..];
    } else {
      assert members == [members[0]] && members[1..] == [];
    }
  }

  lemma EmptyObjectParses(t: Text, p: nat, depth: nat)
    requires LooksAt(t, p, ['{' as int, '}' as int])
    ensures Nesting(Object([])) == 1
    ensures t[p] == '{' as int && PObject(t, p, depth) == Expected(depth < MAX_NESTING, Object([]), p + 2)
  {
    hide PMembers;
    Shows(t, p, ['{' as int, '}' as int]);
    SkipNothing(t, p + 1);
  }

  lemma {:induction false} ObjectParses(t: Text, p: nat, members: seq<Member>, depth: nat)
    requires members != [] && PrintableMembers(members)
    requires LooksAt(t, p, ['{' as int] + PrintMembers(members))
    ensures t[p] == '{' as int
    ensures PObject(t, p, depth) == Expected(depth + 1 + NestingOfMembers(members) <= MAX_NESTING,
                                             Object(members), p + 1 + |PrintMembers(members)|)
    decreases members, 3
  {
    hide PMembers, PrintMembers, PrintableMembers, NestingOfMembers;
    Split(t, p, ['{' as int], PrintMembers(members));
    Head(t, p, ['{' as int]);
    Head(t, p + 1, PrintMembers(members));
    SkipNothing(t, p + 1);
    if depth < MAX_NESTING { MembersParse(t, p + 1, members, depth); }
  }

  /** Parsing what was printed gives the same tree back, or nothing when it nests too deep. */
  lemma RoundTrip(v: Value)
    requires Printable(v)
    ensures Parse(Print(v) + [0]) == if Nesting(v) <= MAX_NESTING then Some(v) else None
  {
    var t: Text := Print(v) + [0];
    assert t[0..|Print(v)|] == Print(v);
    SkipNothing(t, 0);
    ValueParses(t, 0, v, 0);
    SkipNothing(t, |Print(v)|);
  }

  /** Space, tab, line feed and carriage return, as in section 2 of RFC 8259. */
  const BLANKS: set<Byte> := {0x20, 0x09, 0x0A, 0x0D}

  predicate Spaces(s: Str) { forall i | 0 <= i < |s| :: s[i] in BLANKS }

  lemma {:induction false} SkipSpaces(t: Text, p: nat, s: Str)
    requires Spaces(s) && LooksAt(t, p, s)
    ensures Skip(t, p) == Skip(t, p + |s|)
    decreases |s|
  {
    if s != [] {
      assert s == [s[0]] + s[1..];
      Split(t, p, [s[0]], s[1..]);
      Head(t, p, [s[0]]);
      SkipSpaces(t, p + 1, s[1..]);
    }
  }

  lemma LiesIn(a: Str, b: Str, c: Str)
    ensures var t: Text := a + b + c + [0];
            LooksAt(t, 0, a) && LooksAt(t, |a|, b) && LooksAt(t, |a| + |b|, c) && t[|a| + |b| + |c|] == 0
  {
    var t: Text := a + b + c + [0];
    assert t[0..|a|] == a && t[|a|..|a| + |b|] == b && t[|a| + |b|..|a| + |b| + |c|] == c;
  }

  /** Whitespace around the text changes nothing; anything else behind it makes it refused. */
  lemma SpacesAround(v: Value, before: Str, after: Str)
    requires Printable(v) && Nesting(v) <= MAX_NESTING && Spaces(before)
    requires NulFree(after) && (after != [] ==> EndsNumber(after[0]))
    ensures Parse(before + Print(v) + after + [0]) == if Spaces(after) then Some(v) else None
  {
    hide Print, Printable, PValue, Nesting, LooksAt, Skip;
    var word := Print(v);
    var t: Text := before + word + after + [0];
    var p, q := |before|, |before| + |word|;
    LiesIn(before, word, after);
    SkipSpaces(t, 0, before);
    Head(t, p, word);
    SkipNothing(t, p);
    if after != [] { Head(t, q, after); }
    ValueParses(t, p, v, 0);
    SkipFinds(t, q, after);
  }

  /** Skipping reaches the end exactly over nothing but whitespace. */
  lemma {:induction false} SkipFinds(t: Text, p: nat, s: Str)
    requires NulFree(s) && LooksAt(t, p, s) && t[p + |s|] == 0
    ensures t[Skip(t, p)] == 0 <==> Spaces(s)
    decreases |s|
  {
    if s == [] {
      SkipNothing(t, p);
    } else {
      assert s == [s[0]] + s[1..];
      Split(t, p, [s[0]], s[1..]);
      Head(t, p, [s[0]]);
      if IsSpace(s[0]) { SkipFinds(t, p + 1, s[1..]); } else { SkipNothing(t, p); }
    }
  }
}
