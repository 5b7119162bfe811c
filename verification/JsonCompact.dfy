/**
 The printed form of a tree, told apart from the printer: the one spelling without whitespace, with
 whole numbers in plain decimal digits and with as few and as short escapes as RFC 8259 lets do.
 */
module JsonCompact {
  import opened CText
  import opened JsonGrammar
  import opened JsonRoundTrip
  import opened JsonUnicode
  import opened JsonLiterals
  import opened JsonSpelling

  /** The slash stands for itself; control bytes without a short escape take lower-case digits. */
  predicate CompactPiece(piece: Piece)
    requires IsPiece(piece)
  {
    match piece
    case Plain(_) => true
    case Short(letter) => letter != 2
    case Units(high, _, cp) => cp < 32 && cp !in {8, 9, 10, 12, 13} && forall i :: 0 <= i < 4 ==> !high[i].upper
  }

  predicate CompactPieces(pieces: seq<Piece>)
    requires ArePieces(pieces)
  {
    forall i :: 0 <= i < |pieces| ==> CompactPiece(pieces[i])
  }

  predicate CompactNumeral(n: Numeral) { IsWhole(n) && !(n.negative && n.whole == ['0' as int]) }

  ghost predicate Compact(s: Spelling)
    requires IsSpelling(s)
    decreases s, 0
  {
    match s
    case Nothing => true
    case Truth(_) => true
    case Figure(n) => CompactNumeral(n)
    case Quoted(pieces) => CompactPieces(pieces)
    case List(blank, items) => blank == [] && CompactItems(items)
    case Dict(blank, entries) => blank == [] && CompactEntries(entries)
  }

  ghost predicate CompactItems(items: seq<Item>)
    requires AreItems(items)
    decreases items, 1
  {
    items == [] ||
    (items[0].before == [] && Compact(items[0].value) && items[0].after == [] && CompactItems(items[1..]))
  }

  ghost predicate CompactEntry(e: Entry)
    requires IsEntry(e)
    decreases e, 1
  {
    e.before == [] && CompactPieces(e.name) && e.beforeColon == [] && e.afterColon == [] && Compact(e.value) &&
    e.after == []
  }

  ghost predicate CompactEntries(entries: seq<Entry>)
    requires AreEntries(entries)
    decreases entries, 2
  {
    entries == [] || (CompactEntry(entries[0]) && CompactEntries(entries[1..]))
  }

  // ------------------------------------------------------------------------ strings

  lemma LowerDigit(d: nat)
    requires d < 16
    ensures HexDigit(d) == LOWER_DIGITS[d]
  {
    assert LOWER_DIGITS[d] == "0123456789abcdef"[d] as int;
  }

  lemma FewDigits(ns: Nibbles)
    requires |ns| == 4 && Base16(ns) < 32
    ensures ns[0].value == 0 && ns[1].value == 0 && ns[2].value == Base16(ns) / 16 && ns[3].value == Base16(ns) % 16
  {
    Base16Four(ns);
  }

  /** A compact piece is what the printer writes for the byte it stands for. */
  lemma CompactPieceIs(piece: Piece) returns (b: Byte)
    requires IsPiece(piece) && CompactPiece(piece)
    ensures b != 0 && PieceBytes(piece) == [b] && PieceText(piece) == EscapeByte(b)
  {
    hide Base16, Bytes;
    match piece {
      case Plain(c) => b := c;
      case Short(letter) =>
        b := MEANT[letter];
        LettersMean(letter);
        assert LETTERS[letter] == "\"\\/bfnrt"[letter] as int;
      case Units(high, low, cp) =>
        b := cp;
        FewDigits(high);
        LowerDigit(0);
        LowerDigit(cp / 16);
        LowerDigit(cp % 16);
        assert LOWER_DIGITS[0] == "0123456789abcdef"[0] as int;
        assert HexSpelt(high) == ['0' as int, '0' as int, HexDigit(cp / 16), HexDigit(cp % 16)];
    }
  }

  lemma {:induction false} CompactPiecesAre(pieces: seq<Piece>)
    requires ArePieces(pieces) && CompactPieces(pieces)
    ensures NulFree(PiecesBytes(pieces)) && PiecesText(pieces) == EscapeAll(PiecesBytes(pieces))
    ensures StringText(pieces) == PrintString(PiecesBytes(pieces))
    decreases |pieces|
  {
    hide PieceText, PieceBytes, EscapeByte, CompactPiece, IsPiece;
    if pieces != [] {
      var b := CompactPieceIs(pieces[0]);
      CompactPiecesAre(pieces[1..]);
      assert PiecesBytes(pieces)[1..] == PiecesBytes(pieces[1..]);
    }
  }

  /** The piece for a byte. */
  lemma PieceFor(b: Byte) returns (piece: Piece)
    requires b != 0
    ensures IsPiece(piece) && CompactPiece(piece) && PieceBytes(piece) == [b]
  {
    if b > 31 && b != QUOTE && b != BACKSLASH {
      piece := Plain(b);
    } else if b == QUOTE || b == BACKSLASH || b in {8, 9, 10, 12, 13} {
      piece := Short(if b == QUOTE then 0 else if b == BACKSLASH then 1 else if b == 8 then 3
                     else if b == 12 then 4 else if b == 10 then 5 else if b == 13 then 6 else 7);
    } else {
      var high := [Nibble(0, false), Nibble(0, false), Nibble(b / 16, false), Nibble(b % 16, false)];
      Base16Four(high);
      piece := Units(high, [], b);
    }
  }

  lemma {:induction false} PiecesFor(s: Str) returns (pieces: seq<Piece>)
    requires NulFree(s)
    ensures ArePieces(pieces) && CompactPieces(pieces) && PiecesBytes(pieces) == s
    decreases |s|
  {
    hide IsPiece, CompactPiece, PieceBytes;
    if s == [] {
      pieces := [];
    } else {
      var first := PieceFor(s[0]);
      var rest := PiecesFor(s[1..]);
      pieces := [first] + rest;
      assert pieces[1..] == rest;
    }
  }

  // ------------------------------------------------------------------------ numbers

  lemma {:induction false} DigitsBack(s: Str)
    requires s != [] && AllDigits(s) && (s[0] == '0' as int ==> |s| == 1)
    ensures DecimalDigits(Decimal(s)) == s && (Decimal(s) == 0 <==> s == ['0' as int])
    decreases |s|
  {
    var front := s[..|s| - 1];
    if |s| == 1 {
      assert front == [];
    } else {
      DigitsBack(front);
      assert s == front + [s[|s| - 1]];
    }
  }

  lemma {:induction false} DigitsFor(n: nat)
    ensures AllDigits(DecimalDigits(n)) && Decimal(DecimalDigits(n)) == n
  {
    var s := DecimalDigits(n);
    if n < 10 {
      assert s[..|s| - 1] == [];
    } else {
      DigitsFor(n / 10);
      assert s[..|s| - 1] == DecimalDigits(n / 10);
    }
  }

  lemma CompactNumeralIs(n: Numeral)
    requires IsNumeral(n) && Meaning(n).Some? && CompactNumeral(n)
    ensures Printable(Meaning(n).value) && Print(Meaning(n).value) == NumeralText(n)
  {
    hide Decimal, DecimalDigits;
    assert n.whole + n.fraction == n.whole;
    DigitsBack(n.whole);
  }

  lemma NumeralFor(i: int) returns (n: Numeral)
    requires LLONG_MIN <= i <= LLONG_MAX
    ensures IsNumeral(n) && CompactNumeral(n) && Meaning(n) == Some(Number(i))
  {
    hide Decimal;
    var size := if i < 0 then -i else i;
    DigitsFor(size);
    n := Numeral(i < 0, DecimalDigits(size), [], NoExponent);
    assert n.whole + n.fraction == n.whole;
  }

  // -------------------------------------------------------------------------- trees

  lemma {:induction false} CompactIsPrinted(s: Spelling)
    requires IsSpelling(s) && Compact(s)
    ensures Printable(TreeOf(s)) && Print(TreeOf(s)) == TextOf(s)
    decreases s, 0
  {
    hide NumeralText, StringText, PrintString, Meaning, PrintItems, PrintMembers, ItemsText, EntriesText;
    match s {
      case Nothing =>
      case Truth(_) =>
      case Figure(n) => CompactNumeralIs(n);
      case Quoted(pieces) => CompactPiecesAre(pieces);
      case List(_, items) => ItemsPrinted(items);
      case Dict(_, entries) => EntriesPrinted(entries);
    }
  }

  lemma NothingAround(before: Str, text: Str, after: Str, tail: Str)
    requires before == [] && after == []
    ensures before + (text + (after + tail)) == text + tail && after + tail == tail
  {
  }

  lemma ItemsTextIs(items: seq<Item>)
    requires items != [] && AreItems(items) && CompactItems(items)
    ensures ItemsText(items) ==
      TextOf(items[0].value) + if |items| == 1 then [CLOSE] else [COMMA] + ItemsText(items[1..])
  {
    hide TextOf, Compact, IsSpelling;
    var tail := if |items| == 1 then [CLOSE] else [COMMA] + ItemsText(items[1..]);
    NothingAround(items[0].before, TextOf(items[0].value), items[0].after, tail);
  }

  lemma EntriesTextIs(entries: seq<Entry>)
    requires entries != [] && AreEntries(entries) && CompactEntries(entries)
    ensures EntriesText(entries) ==
      MemberText(entries[0]) + if |entries| == 1 then [CLOSE_BRACE] else [COMMA] + EntriesText(entries[1..])
  {
    hide MemberText, Compact, IsSpelling;
    var tail := if |entries| == 1 then [CLOSE_BRACE] else [COMMA] + EntriesText(entries[1..]);
    NothingAround([], MemberText(entries[0]), entries[0].after, tail);
  }

  lemma {:induction false} ItemsPrinted(items: seq<Item>)
    requires AreItems(items) && CompactItems(items)
    ensures PrintableItems(TreesOf(items))
    ensures items != [] ==> PrintItems(TreesOf(items)) == ItemsText(items)
    decreases items, 1
  {
    hide TextOf, Print, Compact, Printable, ItemsText, IsSpelling, TreeOf;
    if items != [] {
      ItemsTextIs(items);
      CompactIsPrinted(items[0].value);
      ItemsPrinted(items[1..]);
      var trees := TreesOf(items);
      assert trees[0] == TreeOf(items[0].value) && trees[1..] == TreesOf(items[1..]);
    }
  }

  lemma {:induction false} EntryPrinted(e: Entry)
    requires IsEntry(e) && CompactEntry(e)
    ensures NulFree(MemberOf(e).name) && Printable(MemberOf(e).value) && PrintMember(MemberOf(e)) == MemberText(e)
    decreases e, 1
  {
    hide TextOf, Print, Compact, Printable, StringText, PrintString;
    CompactPiecesAre(e.name);
    CompactIsPrinted(e.value);
  }

  lemma {:induction false} EntriesPrinted(entries: seq<Entry>)
    requires AreEntries(entries) && CompactEntries(entries)
    ensures PrintableMembers(MembersOf(entries))
    ensures entries != [] ==> PrintMembers(MembersOf(entries)) == EntriesText(entries)
    decreases entries, 2
  {
    hide MemberText, PrintMember, Printable, MemberOf, IsEntry, EntriesText, CompactEntry;
    if entries != [] {
      EntriesTextIs(entries);
      EntryPrinted(entries[0]);
      EntriesPrinted(entries[1..]);
      var members := MembersOf(entries);
      assert members[0] == MemberOf(entries[0]) && members[1..] == MembersOf(entries[1..]);
    }
  }

  lemma {:induction false} SpellingFor(v: Value) returns (s: Spelling)
    requires Printable(v)
    ensures IsSpelling(s) && Compact(s) && TreeOf(s) == v
    decreases v, 0
  {
    hide Meaning, PiecesBytes, CompactPieces, CompactNumeral;
    match v {
      case Null => s := Nothing;
      case True => s := Truth(true);
      case False => s := Truth(false);
      case Number(i) =>
        var n := NumeralFor(i);
        s := Figure(n);
      case String(text) =>
        var pieces := PiecesFor(text);
        s := Quoted(pieces);
      case Array(values) =>
        var items := ItemsFor(values);
        s := List([], items);
      case Object(members) =>
        var entries := EntriesFor(members);
        s := Dict([], entries);
    }
  }

  lemma {:induction false} ItemsFor(values: seq<Value>) returns (items: seq<Item>)
    requires PrintableItems(values)
    ensures AreItems(items) && CompactItems(items) && TreesOf(items) == values
    decreases values, 1
  {
    hide IsSpelling, Compact, TreeOf, Printable;
    if values == [] {
      items := [];
    } else {
      var first := SpellingFor(values[0]);
      var rest := ItemsFor(values[1..]);
      items := [Item([], first, [])] + rest;
      assert items[1..] == rest;
    }
  }

  lemma {:induction false} EntriesFor(members: seq<Member>) returns (entries: seq<Entry>)
    requires PrintableMembers(members)
    ensures AreEntries(entries) && CompactEntries(entries) && MembersOf(entries) == members
    decreases members, 1
  {
    hide IsSpelling, Compact, TreeOf, Printable, ArePieces, CompactPieces, PiecesBytes;
    if members == [] {
      entries := [];
    } else {
      var name := PiecesFor(members[0].name);
      var value := SpellingFor(members[0].value);
      var rest := EntriesFor(members[1..]);
      entries := [Entry([], name, [], [], value, [])] + rest;
      assert entries[1..] == rest;
      assert MemberOf(entries[0]) == members[0];
    }
  }

  /** This text is a compact spelling of the tree. */
  ghost predicate SpellsCompactly(text: Str, v: Value) {
    exists s :: IsSpelling(s) && Compact(s) && TreeOf(s) == v && TextOf(s) == text
  }

  /** A printable tree has exactly one compact spelling, and that is its printed form. */
  lemma PrintsExactlyCompact(v: Value, text: Str)
    requires Printable(v)
    ensures Print(v) == text <==> SpellsCompactly(text, v)
  {
    hide IsSpelling, Compact, TreeOf, TextOf;
    var own := SpellingFor(v);
    CompactIsPrinted(own);
    if s :| IsSpelling(s) && Compact(s) && TreeOf(s) == v && TextOf(s) == text { CompactIsPrinted(s); }
  }
}
