/**
 The parser of mybot_json.c as it runs: cursors advancing over a NUL-terminated text and,
 for strings, a validating pass, a measuring pass and a decoding pass into a buffer of the
 measured size. Each method gives exactly what JsonGrammar specifies.
 */
module JsonParser {
  import opened CText
  import opened JsonGrammar

  method SkipSpace(t: Text, p: nat) returns (q: nat)
    requires p < |t|
    ensures q == Skip(t, p)
  {
    q := p;
    while t[q] != 0 && IsSpace(t[q])
      invariant q < |t| && Skip(t, q) == Skip(t, p)
      decreases |t| - q
    {
      q := q + 1;
    }
  }

  lemma WordByte(t: Text, p: nat, word: Str, k: nat)
    requires k < |word| && p + k < |t|
    ensures LooksAt(t, p, word) ==> t[p + k] == word[k]
  {
    if LooksAt(t, p, word) { assert t[p..p + |word|][k] == word[k]; }
  }

  /** strncmp(t + p, word, |word|) == 0, stopping at the first difference. */
  method Matches(t: Text, p: nat, word: Str) returns (same: bool)
    requires p < |t| && NulFree(word)
    ensures same == LooksAt(t, p, word)
  {
    var k := 0;
    while k < |word|
      invariant k <= |word| && p + k < |t| && t[p..p + k] == word[..k]
    {
      if t[p + k] != word[k] {
        WordByte(t, p, word, k);
        return false;
      }
      assert t[p..p + k + 1] == t[p..p + k] + [word[k]];
      k := k + 1;
    }
    assert word[..k] == word;
    return true;
  }

  // -------------------------------------------------------------------- strings

  method HasHex4(t: Text, p: nat) returns (yes: bool)
    requires p < |t|
    ensures yes == IsHex4(t, p)
  {
    var i := 0;
    while i < 4
      invariant i <= 4 && p + i < |t|
      invariant forall q | p <= q < p + i :: IsHex(t[q])
    {
      if t[p + i] == 0 || !IsHex(t[p + i]) { return false; }
      i := i + 1;
    }
    return true;
  }

  method ParseHex4(t: Text, p: nat) returns (h: nat)
    requires IsHex4(t, p)
    ensures h == Hex4(t, p)
  {
    h := HexVal(t[p]);
    h := h * 16 + HexVal(t[p + 1]);
    h := h * 16 + HexVal(t[p + 2]);
    h := h * 16 + HexVal(t[p + 3]);
  }

  /** One escape sequence of the validating pass, from just after the backslash. */
  method CheckEscape(t: Text, p: nat) returns (ok: bool, next: nat)
    requires p < |t|
    ensures ok == PEscape(t, p).Ok? && (ok ==> next == PEscape(t, p).end)
  {
    next := p + 1;
    if IsSimpleEscape(t[p]) { return true, next; }
    if t[p] != 'u' as int { return false, next; }
    var hex := HasHex4(t, next);
    if !hex { return false, next; }
    var first := ParseHex4(t, next);
    next := next + 4;
    if first == 0 || IsLowSurrogate(first) { return false, next; }
    if IsHighSurrogate(first) {
      if t[next] != BACKSLASH || t[next + 1] != 'u' as int { return false, next; }
      hex := HasHex4(t, next + 2);
      if !hex { return false, next; }
      var second := ParseHex4(t, next + 2);
      if !IsLowSurrogate(second) { return false, next; }
      next := next + 6;
    }
    return true, next;
  }

  /** The validating pass over the characters from p to the closing quote. */
  method CheckChars(t: Text, p: nat) returns (ok: bool)
    requires p < |t|
    ensures ok == PChars(t, p).Ok?
  {
    var check := p;
    while t[check] != QUOTE
      invariant p <= check < |t| && PChars(t, p).Ok? == PChars(t, check).Ok?
      decreases |t| - check
    {
      if t[check] == 0 || t[check] < 0x20 { return false; }
      if t[check] != BACKSLASH {
        check := check + 1;
      } else {
        var good, next := CheckEscape(t, check + 1);
        if !good { return false; }
        check := next;
      }
    }
    return true;
  }

  /**
   The count of the measuring pass, which takes a backslash and the byte after it as one
   character; -1 when that walk would run into the terminator.
   */
  function Walk(t: Text, p: nat): (r: int)
    requires p < |t|
    ensures r >= -1
    decreases |t| - p
  {
    if t[p] == QUOTE then 0
    else if t[p] == 0 || (t[p] == BACKSLASH && t[p + 1] == 0) then -1
    else
      var more := Walk(t, if t[p] == BACKSLASH then p + 2 else p + 1);
      if more < 0 then -1 else more + 1
  }

  lemma WalkHex4(t: Text, p: nat)
    requires IsHex4(t, p) && Walk(t, p + 4) >= 0
    ensures Walk(t, p) == Walk(t, p + 4) + 4
  {
    assert Walk(t, p + 3) == Walk(t, p + 4) + 1;
    assert Walk(t, p + 2) == Walk(t, p + 3) + 1;
    assert Walk(t, p + 1) == Walk(t, p + 2) + 1;
  }

  lemma WalkUnit(t: Text, p: nat)
    requires p < |t| && t[p] == BACKSLASH && t[p + 1] == 'u' as int && IsHex4(t, p + 2)
    requires Walk(t, p + 6) >= 0
    ensures Walk(t, p) == Walk(t, p + 6) + 5
  {
    WalkHex4(t, p + 2);
  }

  lemma WalkEscape(t: Text, p: nat)
    requires p < |t| && t[p] == BACKSLASH && PEscape(t, p + 1).Ok?
    requires Walk(t, PEscape(t, p + 1).end) >= 0
    ensures Walk(t, p) >= Walk(t, PEscape(t, p + 1).end) + |PEscape(t, p + 1).value|
  {
    if t[p + 1] == 'u' as int {
      hide Walk;
      if IsHighSurrogate(Hex4(t, p + 2)) { WalkUnit(t, p + 6); }
      WalkUnit(t, p);
    }
  }

  /** A validated string is measured within the text and never too short. */
  lemma {:induction false} WalkCovers(t: Text, p: nat)
    requires p < |t| && PChars(t, p).Ok?
    ensures Walk(t, p) >= |PChars(t, p).value|
    decreases |t| - p
  {
    hide PEscape;
    if t[p] == BACKSLASH {
      WalkCovers(t, PEscape(t, p + 1).end);
      WalkEscape(t, p);
    } else if t[p] != QUOTE {
      WalkCovers(t, p + 1);
    }
  }

  /** The measuring pass. */
  method MeasureChars(t: Text, p: nat) returns (len: nat)
    requires p < |t| && Walk(t, p) >= 0
    ensures len == Walk(t, p)
  {
    var ptr := p;
    len := 0;
    while t[ptr] != QUOTE && t[ptr] != 0
      invariant p <= ptr < |t| && Walk(t, ptr) >= 0 && len + Walk(t, ptr) == Walk(t, p)
      decreases |t| - ptr
    {
      len := len + 1;
      var escaped := t[ptr] == BACKSLASH;
      ptr := ptr + 1;
      if escaped { ptr := ptr + 1; }
    }
  }

  const FIRST_BYTE_MARK: seq<Byte> := [0x00, 0x00, 0xC0, 0xE0, 0xF0]

  /** Write the UTF-8 form of a code point at out[at..], last byte first. */
  method PutUtf8(out: array<Byte>, at: nat, codePoint: nat) returns (len: nat)
    requires codePoint < 0x110000 && at + |Utf8(codePoint)| <= out.Length
    modifies out
    ensures len == |Utf8(codePoint)|
    ensures out[..at + len] == old(out[..at]) + Utf8(codePoint)
  {
    hide Utf8;
    Utf8Length(codePoint);
    ghost var prefix := out[..at];
    var uc: nat := codePoint;
    len := 4;
    if uc < 0x80 { len := 1; }
    else if uc < 0x800 { len := 2; }
    else if uc < 0x10000 { len := 3; }
    var ptr := at + len;
    if len >= 4 {
      ptr := ptr - 1;
      out[ptr] := 0x80 + uc % 64;
      uc := uc / 64;
    }
    if len >= 3 {
      ptr := ptr - 1;
      out[ptr] := 0x80 + uc % 64;
      uc := uc / 64;
    }
    if len >= 2 {
      ptr := ptr - 1;
      out[ptr] := 0x80 + uc % 64;
      uc := uc / 64;
    }
    ptr := ptr - 1;
    out[ptr] := uc + FIRST_BYTE_MARK[len];
    Encoded(codePoint, out[at..at + len]);
    Halves(out, at, at + len);
    assert out[..at] == prefix;
  }

  lemma Halves(out: array<Byte>, at: nat, end: nat)
    requires at <= end <= out.Length
    ensures out[..end] == out[..at] + out[at..end]
  {
  }

  lemma Utf8Length(codePoint: nat)
    requires codePoint < 0x110000
    ensures |Utf8(codePoint)| ==
      if codePoint < 0x80 then 1 else if codePoint < 0x800 then 2 else if codePoint < 0x10000 then 3 else 4
  {
  }

  /** The bytes of a code point, read off one by one. */
  lemma Encoded(codePoint: nat, bytes: Str)
    requires codePoint < 0x110000 && |bytes| == |Utf8(codePoint)|
    requires |bytes| == 1 ==> bytes[0] == codePoint
    requires |bytes| == 2 ==> bytes[0] == 0xC0 + codePoint / 64
    requires |bytes| == 3 ==> bytes[0] == 0xE0 + codePoint / 64 / 64 && bytes[1] == 0x80 + codePoint / 64 % 64
    requires |bytes| == 4 ==> bytes[0] == 0xF0 + codePoint / 64 / 64 / 64
    requires |bytes| == 4 ==> bytes[1] == 0x80 + codePoint / 64 / 64 % 64 && bytes[2] == 0x80 + codePoint / 64 % 64
    requires |bytes| > 1 ==> bytes[|bytes| - 1] == 0x80 + codePoint % 64
    ensures bytes == Utf8(codePoint)
  {
  }

  /** One \u escape of the decoding pass, from just after the 'u'. */
  method DecodeUnicode(t: Text, p: nat, out: array<Byte>, at: nat) returns (next: nat, len: nat)
    requires p < |t| && PUnicode(t, p).Ok? && at + |PUnicode(t, p).value| <= out.Length
    modifies out
    ensures next == PUnicode(t, p).end && len == |PUnicode(t, p).value|
    ensures out[..at + len] == old(out[..at]) + PUnicode(t, p).value
  {
    var hex := HasHex4(t, p);
    // The decoder's own error exits cannot be taken on a validated string.
    if !hex { assert false; }
    var uc := ParseHex4(t, p);
    next := p + 4;
    if IsLowSurrogate(uc) || uc == 0 { assert false; }
    if IsHighSurrogate(uc) {
      if t[next] != BACKSLASH || t[next + 1] != 'u' as int { assert false; }
      var second := ParseHex4(t, next + 2);
      next := next + 6;
      if !IsLowSurrogate(second) { assert false; }
      uc := Supplementary(uc, second);
    }
    len := PutUtf8(out, at, uc);
  }

  /** The decoding pass into a buffer of len + 1 bytes; end is just after the closing quote. */
  method DecodeChars(t: Text, p: nat, len: nat) returns (value: Str, end: nat)
    requires p < |t| && PChars(t, p).Ok? && |PChars(t, p).value| <= len
    ensures PChars(t, p) == Ok(value, end)
  {
    var out := new Byte[len + 1];
    var ptr, n := p, 0;
    PrependNothing(PChars(t, p));
    while t[ptr] != QUOTE && t[ptr] != 0
      invariant p <= ptr < |t| && n <= len
      invariant PChars(t, p) == Prepend(out[..n], PChars(t, ptr))
      decreases |t| - ptr
    {
      ghost var done, from := out[..n], ptr;
      if t[ptr] != BACKSLASH {
        PrependTwice(done, [t[ptr]], PChars(t, ptr + 1));
        out[n] := t[ptr];
        n, ptr := n + 1, ptr + 1;
        assert out[..n] == done + [t[from]];
      } else {
        PrependTwice(done, PEscape(t, ptr + 1).value, PChars(t, PEscape(t, ptr + 1).end));
        if t[ptr + 1] == 'u' as int {
          var next, size := DecodeUnicode(t, ptr + 2, out, n);
          n, ptr := n + size, next;
        } else {
          out[n] := Unescape(t[ptr + 1]);
          n, ptr := n + 1, ptr + 2;
        }
        assert out[..n] == done + PEscape(t, from + 1).value;
      }
    }
    PrependNothing(PChars(t, ptr));
    out[n] := 0;
    assert PChars(t, ptr) == Ok([], ptr + 1);
    value := out[..n];
    end := ptr;
    if t[ptr] == QUOTE { end := end + 1; }
    assert value + [] == value;
  }

  method ParseString(t: Text, p: nat) returns (r: Parsed<Str>)
    requires p < |t|
    ensures r == PString(t, p)
  {
    if t[p] != QUOTE { return Fail; }
    var valid := CheckChars(t, p + 1);
    if !valid { return Fail; }
    WalkCovers(t, p + 1);
    var len := MeasureChars(t, p + 1);
    var value, end := DecodeChars(t, p + 1, len);
    return Ok(value, end);
  }

  // -------------------------------------------------------------------- numbers

  method ParseNumber(t: Text, p: nat) returns (r: Parsed<Value>)
    requires p < |t|
    ensures r == PNumber(t, p)
  {
    hide PScaled;
    var num := p;
    var negative := t[num] == '-' as int;
    if negative { num := num + 1; }
    var n: nat := 0;
    if t[num] == '0' as int {
      num := num + 1;
    } else if IsDigit(t[num]) {
      ghost var start := num;
      while IsDigit(t[num])
        invariant start <= num < |t| && n <= ULLONG_MAX
        invariant PDigits(t, start, 0, ULLONG_MAX) == PDigits(t, num, n, ULLONG_MAX)
        decreases |t| - num
      {
        if n > (ULLONG_MAX - Digit(t[num])) / 10 { return Fail; }
        n := n * 10 + Digit(t[num]);
        num := num + 1;
      }
    } else {
      return Fail;
    }
    if t[num] != '.' as int && !IsExponentMark(t[num]) {
      if n > LLONG_MAX + (if negative then 1 else 0) { return Fail; }
      return Ok(Number(Signed(negative, n)), num);
    }
    var scale := 0;
    if t[num] == '.' as int {
      if !IsDigit(t[num + 1]) { return Fail; }
      num := num + 1;
      ghost var start, n0 := num, n;
      while IsDigit(t[num])
        invariant start <= num < |t|
        invariant PFraction(t, start, n0, 0) == PFraction(t, num, n, scale)
        decreases |t| - num
      {
        if scale == LLONG_MIN { return Fail; }
        n := n * 10 + Digit(t[num]);
        scale := scale - 1;
        num := num + 1;
      }
    }
    r := ParseScaled(t, num, negative, n, scale);
  }

  /** The exponent of a number if it has one, and the range check on the whole. */
  method ParseScaled(t: Text, p: nat, negative: bool, m: nat, scale: int) returns (r: Parsed<Value>)
    requires p < |t|
    ensures r == PScaled(t, p, negative, m, scale)
  {
    var num, subscale: nat := p, 0;
    var negativeExponent := false;
    if IsExponentMark(t[num]) {
      num := num + 1;
      if t[num] == '+' as int {
        num := num + 1;
      } else if t[num] == '-' as int {
        negativeExponent := true;
        num := num + 1;
      }
      var start := num;
      while IsDigit(t[num])
        invariant start <= num < |t| && subscale <= INT_MAX
        invariant PDigits(t, start, 0, INT_MAX) == PDigits(t, num, subscale, INT_MAX)
        invariant num > start ==> IsDigit(t[start])
        decreases |t| - num
      {
        if subscale > (INT_MAX - Digit(t[num])) / 10 { return Fail; }
        subscale := subscale * 10 + Digit(t[num]);
        num := num + 1;
      }
      if num == start { return Fail; }
    }
    var exponent := scale + Signed(negativeExponent, subscale);
    if !InRange(Signed(negative, m), exponent) { return Fail; }
    return Ok(Fraction(Signed(negative, m), exponent), num);
  }

  // --------------------------------------------------------------------- values

  method ParseValue(t: Text, p: nat, depth: nat) returns (r: Parsed<Value>)
    requires p < |t|
    ensures r == PValue(t, p, depth)
    decreases |t| - p - 1, 5
  {
    hide PString, PNumber, PArray, PObject, LooksAt;
    var word := Matches(t, p, NULL_TEXT);
    if word { return Ok(Null, p + 4); }
    word := Matches(t, p, FALSE_TEXT);
    if word { return Ok(False, p + 5); }
    word := Matches(t, p, TRUE_TEXT);
    if word { return Ok(True, p + 4); }
    if t[p] == QUOTE {
      var s := ParseString(t, p);
      return if s.Ok? then Ok(String(s.value), s.end) else Fail;
    }
    if t[p] == '-' as int || IsDigit(t[p]) {
      r := ParseNumber(t, p);
    } else if t[p] == '[' as int {
      r := ParseArray(t, p, depth);
    } else if t[p] == '{' as int {
      r := ParseObject(t, p, depth);
    } else {
      r := Fail;
    }
  }

  /** What is known in the middle of an array: the items read, and the separator at q. */
  function ItemsSoFar(t: Text, items: seq<Value>, q: nat, depth: nat): Parsed<seq<Value>>
    requires q < |t|
  {
    if t[q] == ',' as int then Prepend(items, PItems(t, q + 1, depth))
    else if t[q] == ']' as int then Ok(items, q + 1)
    else Fail
  }

  lemma OneMoreItem(t: Text, items: seq<Value>, q: nat, depth: nat)
    requires q < |t| && t[q] == ',' as int
    ensures match PValue(t, Skip(t, q + 1), depth + 1)
            case Fail => ItemsSoFar(t, items, q, depth) == Fail
            case Ok(item, end) => ItemsSoFar(t, items, q, depth) ==
                                  ItemsSoFar(t, items + [item], Skip(t, end), depth)
  {
    hide PValue;
    match PValue(t, Skip(t, q + 1), depth + 1)
    case Fail =>
    case Ok(item, end) =>
      if t[Skip(t, end)] == ',' as int {
        PrependTwice(items, [item], PItems(t, Skip(t, end) + 1, depth));
      }
  }

  method ParseArray(t: Text, p: nat, depth: nat) returns (r: Parsed<Value>)
    requires p < |t| && t[p] == '[' as int
    ensures r == PArray(t, p, depth)
    decreases |t| - p - 1, 4
  {
    hide PValue, Skip;
    if depth >= MAX_NESTING { return Fail; }
    var q := SkipSpace(t, p + 1);
    if t[q] == ']' as int { return Ok(Array([]), q + 1); }
    var item := ParseValue(t, q, depth + 1);
    if item.Fail? { return Fail; }
    q := SkipSpace(t, item.end);
    var items := [item.value];
    while t[q] == ',' as int
      invariant p < q < |t| && PItems(t, p + 1, depth) == ItemsSoFar(t, items, q, depth)
      decreases |t| - q
    {
      OneMoreItem(t, items, q, depth);
      q := SkipSpace(t, q + 1);
      item := ParseValue(t, q, depth + 1);
      if item.Fail? { return Fail; }
      q := SkipSpace(t, item.end);
      items := items + [item.value];
    }
    if t[q] == ']' as int { return Ok(Array(items), q + 1); }
    return Fail;
  }

  /** One name, colon and value of an object, from the first byte after any whitespace. */
  method ParseMember(t: Text, p: nat, depth: nat) returns (r: Parsed<Member>)
    requires p < |t|
    ensures r == PMember(t, p, depth)
    decreases |t| - p - 1, 6
  {
    hide PValue, PString, Skip;
    var q := SkipSpace(t, p);
    var name := ParseString(t, q);
    if name.Fail? { return Fail; }
    q := SkipSpace(t, name.end);
    if t[q] != ':' as int { return Fail; }
    q := SkipSpace(t, q + 1);
    var value := ParseValue(t, q, depth + 1);
    if value.Fail? { return Fail; }
    return Ok(Member(name.value, value.value), value.end);
  }

  /** What is known in the middle of an object: the members read, and the separator at q. */
  function MembersSoFar(t: Text, members: seq<Member>, q: nat, depth: nat): Parsed<seq<Member>>
    requires q < |t|
  {
    if t[q] == ',' as int then Prepend(members, PMembers(t, q + 1, depth))
    else if t[q] == '}' as int then Ok(members, q + 1)
    else Fail
  }

  lemma OneMoreMember(t: Text, members: seq<Member>, q: nat, depth: nat)
    requires q < |t| && t[q] == ',' as int
    ensures match PMember(t, q + 1, depth)
            case Fail => MembersSoFar(t, members, q, depth) == Fail
            case Ok(member, end) => MembersSoFar(t, members, q, depth) ==
                                    MembersSoFar(t, members + [member], Skip(t, end), depth)
  {
    hide PMember;
    match PMember(t, q + 1, depth)
    case Fail =>
    case Ok(member, end) =>
      if t[Skip(t, end)] == ',' as int {
        PrependTwice(members, [member], PMembers(t, Skip(t, end) + 1, depth));
      }
  }

  method ParseObject(t: Text, p: nat, depth: nat) returns (r: Parsed<Value>)
    requires p < |t| && t[p] == '{' as int
    ensures r == PObject(t, p, depth)
    decreases |t| - p - 1, 4
  {
    hide PMember, Skip;
    if depth >= MAX_NESTING { return Fail; }
    var q := SkipSpace(t, p + 1);
    if t[q] == '}' as int { return Ok(Object([]), q + 1); }
    var member := ParseMember(t, p + 1, depth);
    if member.Fail? { return Fail; }
    q := SkipSpace(t, member.end);
    var members := [member.value];
    while t[q] == ',' as int
      invariant p < q < |t| && PMembers(t, p + 1, depth) == MembersSoFar(t, members, q, depth)
      decreases |t| - q
    {
      OneMoreMember(t, members, q, depth);
      member := ParseMember(t, q + 1, depth);
      if member.Fail? { return Fail; }
      q := SkipSpace(t, member.end);
      members := members + [member.value];
    }
    if t[q] == '}' as int { return Ok(Object(members), q + 1); }
    return Fail;
  }

  method ParseText(t: Text) returns (root: Option<Value>)
    ensures root == Parse(t)
  {
    hide PValue, Skip;
    var p := SkipSpace(t, 0);
    var r := ParseValue(t, p, 0);
    if r.Fail? { return None; }
    var end := SkipSpace(t, r.end);
    return if t[end] != 0 then None else Some(r.value);
  }
}
