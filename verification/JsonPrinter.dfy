/**
 The printer of mybot_json.c as it runs: a sizing pass, one buffer of the computed size,
 and a composing pass that never leaves it. Each method gives exactly the text of
 JsonRoundTrip.Print, with its terminator.
 */
module JsonPrinter {
  import opened CText
  import opened JsonGrammar
  import opened JsonRoundTrip

  // -------------------------------------------------------------------- strings

  lemma {:induction false} EscapeAllExtends(s: Str, b: Byte)
    ensures EscapeAll(s + [b]) == EscapeAll(s) + EscapeByte(b)
  {
    hide EscapeByte;
    if s == [] {
      assert [b][1..] == [];
    } else {
      assert (s + [b])[1..] == s[1..] + [b];
      EscapeAllExtends(s[1..], b);
    }
  }

  /** What the switch of the composing pass writes for a byte that needs an escape. */
  method PutEscape(out: array<Byte>, at: nat, b: Byte) returns (next: nat)
    requires |EscapeByte(b)| > 1 && at + |EscapeByte(b)| < out.Length
    modifies out
    ensures next == at + |EscapeByte(b)| && out[..next] == old(out[..at]) + EscapeByte(b)
  {
    var letter: Byte;
    if b == BACKSLASH || b == QUOTE { letter := b; }
    else if b == 8 { letter := 'b' as int; }
    else if b == 12 { letter := 'f' as int; }
    else if b == 10 { letter := 'n' as int; }
    else if b == 13 { letter := 'r' as int; }
    else if b == 9 { letter := 't' as int; }
    else {
      // sprintf("u%04x"), which also writes a terminator.
      next := Copy(out, at, EscapeByte(b));
      out[next] := 0;
      return;
    }
    assert EscapeByte(b) == [BACKSLASH, letter];
    next := Copy(out, at, [BACKSLASH, letter]);
  }

  /** The sizing pass, which is exact. */
  method MeasureEscaped(s: Str) returns (len: nat)
    ensures len == |EscapeAll(s)|
  {
    len := 0;
    var i := 0;
    while i < |s|
      invariant i <= |s| && len == |EscapeAll(s[..i])|
    {
      Prefix(s, i);
      len := len + 1;
      if s[i] == QUOTE || s[i] == BACKSLASH || s[i] == 8 || s[i] == 12 || s[i] == 10 ||
         s[i] == 13 || s[i] == 9
      {
        len := len + 1;
      } else if s[i] < 32 {
        len := len + 5;
      }
      i := i + 1;
    }
    assert s[..i] == s;
  }

  method PrintStringPtr(s: Str) returns (text: Str)
    requires NulFree(s)
    ensures text == PrintString(s) + [0]
  {
    hide EscapeAll;
    var len := MeasureEscaped(s);
    var out := new Byte[len + 3];
    out[0] := QUOTE;
    var ptr: nat := 1;
    var i := 0;
    NothingEscapes(s);
    while i < |s|
      invariant i <= |s| && ptr == 1 + |EscapeAll(s[..i])|
      invariant ptr <= len + 1 && out[..ptr] == [QUOTE] + EscapeAll(s[..i])
    {
      Prefix(s, i);
      ghost var done := out[..ptr];
      if s[i] > 31 && s[i] != QUOTE && s[i] != BACKSLASH {
        out[ptr] := s[i];
        ptr := ptr + 1;
      } else {
        ptr := PutEscape(out, ptr, s[i]);
      }
      assert out[..ptr] == done + EscapeByte(s[i]);
      i := i + 1;
    }
    assert s[..i] == s;
    out[ptr] := QUOTE;
    out[ptr + 1] := 0;
    text := out[..ptr + 2];
  }

  lemma NothingEscapes(s: Str)
    ensures EscapeAll(s[..0]) == []
  {
  }

  /** One more byte of the string escapes to a longer prefix that still fits. */
  lemma Prefix(s: Str, i: nat)
    requires i < |s|
    ensures EscapeAll(s[..i + 1]) == EscapeAll(s[..i]) + EscapeByte(s[i])
    ensures |EscapeAll(s[..i + 1])| <= |EscapeAll(s)|
  {
    hide EscapeByte;
    assert s[..i + 1] == s[..i] + [s[i]];
    EscapeAllExtends(s[..i], s[i]);
    EscapeAllSplits(s[..i + 1], s[i + 1..]);
    assert s == s[..i + 1] + s[i + 1..];
  }

  lemma {:induction false} EscapeAllSplits(a: Str, b: Str)
    ensures EscapeAll(a + b) == EscapeAll(a) + EscapeAll(b)
  {
    hide EscapeByte;
    if a == [] {
      assert a + b == b;
    } else {
      assert (a + b)[1..] == a[1..] + b;
      EscapeAllSplits(a[1..], b);
    }
  }

  // -------------------------------------------------------------------- numbers

  lemma {:induction false} DigitCount(n: nat, k: nat)
    requires k > 0 && n < Pow10(k)
    ensures |DecimalDigits(n)| <= k
  {
    if n >= 10 { DigitCount(n / 10, k - 1); }
  }

  const NUMBER_BUFFER: nat := 21

  /** sprintf(str, "%lld") fits the number buffer, terminator included. */
  method PrintNumber(n: int) returns (text: Str)
    requires LLONG_MIN <= n <= LLONG_MAX
    ensures text == PrintInteger(n) + [0] && |text| <= NUMBER_BUFFER
  {
    assert Pow10(6) == 1_000_000;
    assert Pow10(12) == 1_000_000_000_000;
    assert Pow10(18) == 1_000_000_000_000_000_000;
    DigitCount(if n < 0 then -n else n, 19);
    text := PrintInteger(n) + [0];
  }

  // --------------------------------------------------------------------- values

  method PrintValue(v: Value) returns (text: Str)
    requires Printable(v)
    ensures text == Print(v) + [0]
    decreases v, 0
  {
    hide PrintItems, PrintMembers, PrintString, PrintInteger, PrintableItems, PrintableMembers;
    match v
    case Null => return NULL_TEXT + [0];
    case False => return FALSE_TEXT + [0];
    case True => return TRUE_TEXT + [0];
    case Number(n) => text := PrintNumber(n);
    case String(s) => text := PrintStringPtr(s);
    case Array(items) => text := PrintArray(items);
    case Object(members) => text := PrintObject(members);
  }

  lemma LaterItems(items: seq<Value>, i: nat)
    requires PrintableItems(items) && i < |items|
    ensures Printable(items[i]) && items[i..][0] == items[i] && PrintableItems(items[i..])
    ensures i + 1 < |items| ==>
              PrintItems(items[i..]) == Print(items[i]) + [',' as int] + PrintItems(items[i + 1..])
    ensures i + 1 == |items| ==> PrintItems(items[i..]) == Print(items[i]) + [']' as int]
    decreases i
  {
    hide Print, Printable;
    if i > 0 { LaterItems(items, i - 1); }
    assert items[i..][1..] == items[i + 1..];
    if i > 0 { assert items[i - 1..][1..] == items[i..]; }
    if i == 0 { assert items[i..] == items; }
  }

  method PrintArray(items: seq<Value>) returns (text: Str)
    requires PrintableItems(items)
    ensures text == (if items == [] then ['[' as int, ']' as int]
                     else ['[' as int] + PrintItems(items)) + [0]
    decreases items, 2
  {
    hide Print, Printable, PrintItems, PrintableItems;
    if |items| == 0 { return ['[' as int, ']' as int, 0]; }
    assert items[0..] == items;
    var entries: seq<Str> := [];
    var len := 5;
    var i := 0;
    while i < |items|
      invariant i <= |items| && |entries| == i
      invariant forall k | 0 <= k < i :: Printed(items, k, entries[k])
      invariant i < |items| ==> PrintableItems(items[i..])
      invariant 5 + |PrintItems(items)| <= len + (if i < |items| then |PrintItems(items[i..])| else 0)
    {
      LaterItems(items, i);
      if i + 1 < |items| { LaterItems(items, i + 1); }
      var ret := PrintValue(items[i]);
      entries := entries + [ret];
      len := len + (|ret| - 1) + 2;
      i := i + 1;
    }
    text := ComposeArray(items, entries, len);
  }

  ghost predicate Printed(items: seq<Value>, k: nat, entry: Str)
    requires k < |items|
  {
    Printable(items[k]) && entry == Print(items[k]) + [0]
  }

  /** What is left to print of an array before its i-th element. */
  ghost function ItemsFrom(items: seq<Value>, i: nat): Str
    requires PrintableItems(items) && i <= |items|
  {
    if i == |items| then [']' as int]
    else
      LaterItems(items, i);
      PrintItems(items[i..])
  }

  lemma ItemsStep(items: seq<Value>, i: nat)
    requires PrintableItems(items) && i < |items|
    ensures Printable(items[i])
    ensures ItemsFrom(items, i) == Print(items[i]) + Separator(i + 1 == |items|) + ItemsFrom(items, i + 1)
  {
    hide Print, Printable, PrintItems, PrintableItems;
    LaterItems(items, i);
  }

  method ComposeArray(items: seq<Value>, entries: seq<Str>, len: nat) returns (text: Str)
    requires items != [] && PrintableItems(items) && |entries| == |items|
    requires forall k | 0 <= k < |items| :: Printed(items, k, entries[k])
    requires 5 + |PrintItems(items)| <= len
    ensures text == ['[' as int] + PrintItems(items) + [0]
  {
    hide Print, Printable, PrintItems, PrintableItems, ItemsFrom;
    ghost var full := ['[' as int] + PrintItems(items);
    WholeArray(items);
    var out := new Byte[len];
    out[0] := '[' as int;
    var ptr: nat := 1;
    out[ptr] := 0;
    var i := 0;
    while i < |items|
      invariant i <= |items| && ptr < len
      invariant out[..ptr] + ItemsFrom(items, i) == full
    {
      ItemsStep(items, i);
      assert Printed(items, i, entries[i]);
      ptr := PutItem(out, ptr, items[i], entries[i], i == |items| - 1);
      i := i + 1;
    }
    out[ptr] := ']' as int;
    out[ptr + 1] := 0;
    text := out[..ptr + 2];
  }

  lemma WholeArray(items: seq<Value>)
    requires items != [] && PrintableItems(items)
    ensures ItemsFrom(items, 0) == PrintItems(items) && ItemsFrom(items, |items|) == [']' as int]
  {
    assert items[0..] == items;
  }

  /** A separator after every element but the last. */
  function Separator(last: bool): Str { if last then [] else [',' as int] }

  /** One printed item copied with its terminator, and a comma unless it is the last. */
  method PutItem(out: array<Byte>, at: nat, v: Value, entry: Str, last: bool) returns (next: nat)
    requires Printable(v) && entry == Print(v) + [0]
    requires at + |Print(v)| + |Separator(last)| < out.Length
    modifies out
    ensures next == at + |Print(v)| + |Separator(last)|
    ensures out[..next] == old(out[..at]) + Print(v) + Separator(last)
  {
    hide Print, Printable;
    ghost var done := out[..at];
    next := Copy(out, at, entry);
    next := next - 1;
    assert out[..next] == done + Print(v);
    if !last {
      out[next] := ',' as int;
      next := next + 1;
      out[next] := 0;
      assert out[..next] == done + Print(v) + [',' as int];
    }
  }

  lemma LaterMembers(members: seq<Member>, i: nat)
    requires PrintableMembers(members) && i < |members|
    ensures NulFree(members[i].name) && Printable(members[i].value)
    ensures members[i..][0] == members[i] && PrintableMembers(members[i..])
    ensures i + 1 < |members| ==>
              PrintMembers(members[i..]) ==
              PrintMember(members[i]) + [',' as int] + PrintMembers(members[i + 1..])
    ensures i + 1 == |members| ==>
              PrintMembers(members[i..]) == PrintMember(members[i]) + ['}' as int]
    decreases i
  {
    hide PrintMember, Printable;
    if i > 0 { LaterMembers(members, i - 1); }
    assert members[i..][1..] == members[i + 1..];
    if i > 0 { assert members[i - 1..][1..] == members[i..]; }
    if i == 0 { assert members[i..] == members; }
  }

  ghost predicate PrintedMember(members: seq<Member>, k: nat, name: Str, entry: Str)
    requires k < |members|
  {
    NulFree(members[k].name) && name == PrintString(members[k].name) + [0] &&
    Printable(members[k].value) && entry == Print(members[k].value) + [0]
  }

  method PrintObject(members: seq<Member>) returns (text: Str)
    requires PrintableMembers(members)
    ensures text == (if members == [] then ['{' as int, '}' as int]
                     else ['{' as int] + PrintMembers(members)) + [0]
    decreases members, 2
  {
    hide Print, Printable, PrintMembers, PrintableMembers, PrintString;
    if |members| == 0 { return ['{' as int, '}' as int, 0]; }
    assert members[0..] == members;
    var names: seq<Str>, entries: seq<Str> := [], [];
    var len := 7;
    var i := 0;
    while i < |members|
      invariant i <= |members| && |names| == |entries| == i
      invariant forall k | 0 <= k < i :: PrintedMember(members, k, names[k], entries[k])
      invariant i < |members| ==> PrintableMembers(members[i..])
      invariant 7 + |PrintMembers(members)| <=
                len + (if i < |members| then |PrintMembers(members[i..])| else 0)
    {
      LaterMembers(members, i);
      if i + 1 < |members| { LaterMembers(members, i + 1); }
      var str := PrintStringPtr(members[i].name);
      var ret := PrintValue(members[i].value);
      names, entries := names + [str], entries + [ret];
      len := len + (|ret| - 1) + (|str| - 1) + 2;
      i := i + 1;
    }
    text := ComposeObject(members, names, entries, len);
  }

  /** What is left to print of an object before its i-th member. */
  ghost function MembersFrom(members: seq<Member>, i: nat): Str
    requires PrintableMembers(members) && i <= |members|
  {
    if i == |members| then ['}' as int]
    else
      LaterMembers(members, i);
      PrintMembers(members[i..])
  }

  lemma MembersStep(members: seq<Member>, i: nat)
    requires PrintableMembers(members) && i < |members|
    ensures NulFree(members[i].name) && Printable(members[i].value)
    ensures MembersFrom(members, i) ==
            PrintMember(members[i]) + Separator(i + 1 == |members|) + MembersFrom(members, i + 1)
  {
    hide PrintMember, Printable, PrintMembers, PrintableMembers;
    LaterMembers(members, i);
  }

  lemma WholeObject(members: seq<Member>)
    requires members != [] && PrintableMembers(members)
    ensures MembersFrom(members, 0) == PrintMembers(members) && MembersFrom(members, |members|) == ['}' as int]
  {
    assert members[0..] == members;
  }

  method ComposeObject(members: seq<Member>, names: seq<Str>, entries: seq<Str>, len: nat)
    returns (text: Str)
    requires members != [] && PrintableMembers(members)
    requires |names| == |entries| == |members|
    requires forall k | 0 <= k < |members| :: PrintedMember(members, k, names[k], entries[k])
    requires 7 + |PrintMembers(members)| <= len
    ensures text == ['{' as int] + PrintMembers(members) + [0]
  {
    hide Print, Printable, PrintMembers, PrintableMembers, PrintString, PrintMember, MembersFrom;
    ghost var full := ['{' as int] + PrintMembers(members);
    WholeObject(members);
    var out := new Byte[len];
    out[0] := '{' as int;
    var ptr: nat := 1;
    out[ptr] := 0;
    var i := 0;
    while i < |members|
      invariant i <= |members| && ptr < len
      invariant out[..ptr] + MembersFrom(members, i) == full
    {
      MembersStep(members, i);
      assert PrintedMember(members, i, names[i], entries[i]);
      ptr := PutMember(out, ptr, members[i], names[i], entries[i], i == |members| - 1);
      i := i + 1;
    }
    out[ptr] := '}' as int;
    out[ptr + 1] := 0;
    text := out[..ptr + 2];
  }

  lemma MemberText(m: Member)
    requires NulFree(m.name) && Printable(m.value)
    ensures PrintMember(m) == PrintString(m.name) + [':' as int] + Print(m.value)
  {
  }

  /** A printed name, a colon, a printed value, and a comma unless it is the last member. */
  method PutMember(out: array<Byte>, at: nat, m: Member, name: Str, entry: Str, last: bool)
    returns (next: nat)
    requires NulFree(m.name) && Printable(m.value)
    requires name == PrintString(m.name) + [0] && entry == Print(m.value) + [0]
    requires at + |PrintMember(m)| + |Separator(last)| < out.Length
    modifies out
    ensures next == at + |PrintMember(m)| + |Separator(last)|
    ensures out[..next] == old(out[..at]) + PrintMember(m) + Separator(last)
  {
    hide Print, Printable, PrintString, PrintMember;
    MemberText(m);
    ghost var done := out[..at];
    next := Copy(out, at, name);
    next := next - 1;
    assert out[..next] == done + PrintString(m.name);
    out[next] := ':' as int;
    next := next + 1;
    assert out[..next] == done + PrintString(m.name) + [':' as int];
    next := Copy(out, next, entry);
    next := next - 1;
    assert out[..next] == done + PrintMember(m);
    if !last {
      out[next] := ',' as int;
      next := next + 1;
      assert out[..next] == done + PrintMember(m) + [',' as int];
    }
    out[next] := 0;
    assert out[..next] == done + PrintMember(m) + Separator(last);
  }

  /** The printed text parses back: printing and parsing as the program runs them. */
  method PrintUnformatted(v: Value) returns (text: Text)
    requires Printable(v)
    ensures Parse(text) == if Nesting(v) <= MAX_NESTING then Some(v) else None
  {
    hide Print, Printable, Nesting, PValue;
    RoundTrip(v);
    text := PrintValue(v);
  }
}
