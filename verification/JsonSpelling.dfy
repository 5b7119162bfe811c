/**
 The JSON texts of RFC 8259 with their insignificant whitespace, defined apart from the parser, and
 the proof that the parser accepts exactly the texts that spell a tree nested at most 32 deep.
 */
module JsonSpelling {
  import opened CText
  import opened JsonGrammar
  import opened JsonRoundTrip
  import opened JsonLiterals

  /** How a text may spell a tree; blank stands between the brackets of an empty container. */
  datatype Spelling =
    | Nothing
    | Truth(truth: bool)
    | Figure(numeral: Numeral)
    | Quoted(pieces: seq<Piece>)
    | List(blank: Str, items: seq<Item>)
    | Dict(blank: Str, entries: seq<Entry>)

  datatype Item = Item(before: Str, value: Spelling, after: Str)

  datatype Entry = Entry(before: Str, name: seq<Piece>, beforeColon: Str, afterColon: Str, value: Spelling, after: Str)

  ghost predicate IsSpelling(s: Spelling)
    decreases s, 0
  {
    match s
    case Nothing => true
    case Truth(_) => true
    case Figure(n) => IsNumeral(n) && Meaning(n).Some?
    case Quoted(pieces) => ArePieces(pieces)
    case List(blank, items) => Spaces(blank) && AreItems(items)
    case Dict(blank, entries) => Spaces(blank) && AreEntries(entries)
  }

  ghost predicate AreItems(items: seq<Item>)
    decreases items, 1
  {
    items == [] ||
    (Spaces(items[0].before) && IsSpelling(items[0].value) && Spaces(items[0].after) && AreItems(items[1..]))
  }

  ghost predicate IsEntry(e: Entry)
    decreases e, 1
  {
    Spaces(e.before) && ArePieces(e.name) && Spaces(e.beforeColon) && Spaces(e.afterColon) &&
    IsSpelling(e.value) && Spaces(e.after)
  }

  ghost predicate AreEntries(entries: seq<Entry>)
    decreases entries, 2
  {
    entries == [] || (IsEntry(entries[0]) && AreEntries(entries[1..]))
  }

  // ----------------------------------------------------------------------- the text

  const OPEN: Byte := '[' as int
  const CLOSE: Byte := ']' as int
  const OPEN_BRACE: Byte := '{' as int
  const CLOSE_BRACE: Byte := '}' as int
  const COMMA: Byte := ',' as int
  const COLON: Byte := ':' as int

  ghost function TextOf(s: Spelling): (r: Str)
    requires IsSpelling(s)
    ensures r != [] && !IsSpace(r[0]) && r[0] != CLOSE
    decreases s, 0
  {
    match s
    case Nothing => Bytes("null")
    case Truth(truth) => if truth then Bytes("true") else Bytes("false")
    case Figure(n) => FigureText(n)
    case Quoted(pieces) => StringText(pieces)
    case List(blank, items) => [OPEN] + if items == [] then blank + [CLOSE] else ItemsText(items)
    case Dict(blank, entries) => [OPEN_BRACE] + if entries == [] then blank + [CLOSE_BRACE] else EntriesText(entries)
  }

  function FigureText(n: Numeral): (r: Str)
    requires IsNumeral(n)
    ensures r == NumeralText(n) && r != [] && (r[0] == '-' as int || IsDigit(r[0]))
  {
    assert NumeralText(n)[0] == '-' as int || NumeralText(n)[0] == n.whole[0];
    NumeralText(n)
  }

  /** The items of a non-empty array, the commas between them and the closing bracket. */
  ghost function ItemsText(items: seq<Item>): Str
    requires items != [] && AreItems(items)
    decreases items, 1
  {
    items[0].before + (TextOf(items[0].value) + (items[0].after +
      if |items| == 1 then [CLOSE] else [COMMA] + ItemsText(items[1..])))
  }

  /** A name, its colon and its value. */
  ghost function MemberText(e: Entry): Str
    requires IsEntry(e)
    decreases e, 1
  {
    e.before + (StringText(e.name) + (e.beforeColon + ([COLON] + (e.afterColon + TextOf(e.value)))))
  }

  ghost function EntriesText(entries: seq<Entry>): Str
    requires entries != [] && AreEntries(entries)
    decreases entries, 2
  {
    MemberText(entries[0]) + (entries[0].after +
      if |entries| == 1 then [CLOSE_BRACE] else [COMMA] + EntriesText(entries[1..]))
  }

  // ----------------------------------------------------------------------- the tree

  ghost function TreeOf(s: Spelling): Value
    requires IsSpelling(s)
    decreases s, 0
  {
    match s
    case Nothing => Null
    case Truth(truth) => if truth then True else False
    case Figure(n) => Meaning(n).value
    case Quoted(pieces) => String(PiecesBytes(pieces))
    case List(_, items) => Array(TreesOf(items))
    case Dict(_, entries) => Object(MembersOf(entries))
  }

  ghost function TreesOf(items: seq<Item>): (r: seq<Value>)
    requires AreItems(items)
    ensures |r| == |items|
    decreases items, 1
  {
    if items == [] then [] else [TreeOf(items[0].value)] + TreesOf(items[1..])
  }

  ghost function MemberOf(e: Entry): Member
    requires IsEntry(e)
    decreases e, 1
  {
    Member(PiecesBytes(e.name), TreeOf(e.value))
  }

  ghost function MembersOf(entries: seq<Entry>): (r: seq<Member>)
    requires AreEntries(entries)
    ensures |r| == |entries|
    decreases entries, 2
  {
    if entries == [] then [] else [MemberOf(entries[0])] + MembersOf(entries[1..])
  }

  // ------------------------------------------------------------- every spelling is read

  /** What may follow a value: whitespace, punctuation or the end. */
  predicate Follows(b: Byte) { IsSpace(b) || b == COMMA || b == CLOSE || b == CLOSE_BRACE || b == 0 }

  lemma FollowsEnds(n: Numeral, b: Byte)
    requires Follows(b)
    ensures Ends(n, b)
  {
  }

  /** Skipping whitespace comes to the first byte behind it. */
  lemma SkipTo(t: Text, p: nat, blank: Str)
    requires Spaces(blank) && LooksAt(t, p, blank) && !IsSpace(t[p + |blank|])
    ensures Skip(t, p) == p + |blank|
  {
    SkipSpaces(t, p, blank);
    SkipNothing(t, p + |blank|);
  }

  /** Behind a value stand whitespace and then the next mark. */
  lemma AfterValue(t: Text, p: nat, after: Str, mark: Byte)
    requires Spaces(after) && LooksAt(t, p, after + [mark]) && Follows(mark) && !IsSpace(mark)
    ensures Follows(t[p]) && Skip(t, p) == p + |after| && t[p + |after|] == mark
  {
    hide LooksAt, Skip;
    Split(t, p, after, [mark]);
    Head(t, p + |after|, [mark]);
    if after != [] { Head(t, p, after); }
    SkipTo(t, p, after);
  }

  lemma WordReads(t: Text, p: nat, s: Spelling, depth: nat)
    requires (s.Nothing? || s.Truth?) && LooksAt(t, p, TextOf(s))
    ensures PValue(t, p, depth) == Ok(TreeOf(s), p + |TextOf(s)|)
  {
    hide PMarked, LooksAt;
    var word := TextOf(s);
    Head(t, p, word);
    if LooksAt(t, p, NULL_TEXT) { Head(t, p, NULL_TEXT); }
    if LooksAt(t, p, FALSE_TEXT) { Head(t, p, FALSE_TEXT); }
  }

  lemma NoContainer(n: Numeral)
    requires IsNumeral(n) && Meaning(n).Some?
    ensures Nesting(Meaning(n).value) == 0
  {
    hide Within64, Decimal;
  }

  lemma {:induction false} SpellingParses(t: Text, p: nat, s: Spelling, depth: nat)
    requires IsSpelling(s) && LooksAt(t, p, TextOf(s)) && Follows(t[p + |TextOf(s)|])
    ensures PValue(t, p, depth) == Expected(Fits(depth, TreeOf(s)), TreeOf(s), p + |TextOf(s)|)
    decreases s, 0
  {
    hide LooksAt, PValue, PString, PArray, PObject, PNumber, Meaning, NumeralText, StringText, PiecesBytes,
      ItemsText, EntriesText, NestingOfItems, NestingOfMembers, TreesOf, MembersOf, Ends;
    Head(t, p, TextOf(s));
    match s {
      case Nothing => WordReads(t, p, s, depth);
      case Truth(_) => WordReads(t, p, s, depth);
      case Figure(n) =>
        Within(t, p, TextOf(s));
        FollowsEnds(n, t[p + |TextOf(s)|]);
        NumeralParses(t, p, n);
        NoContainer(n);
        NotAWord(t, p);
      case Quoted(pieces) =>
        SpeltStringParses(t, p, pieces);
        NotAWord(t, p);
      case List(blank, items) =>
        ListParses(t, p, blank, items, depth);
        NotAWord(t, p);
      case Dict(blank, entries) =>
        DictParses(t, p, blank, entries, depth);
        NotAWord(t, p);
    }
  }

  /** Where the pieces of a spelled array lie. */
  lemma ItemsLie(t: Text, p: nat, items: seq<Item>)
    requires items != [] && AreItems(items) && LooksAt(t, p, ItemsText(items))
    ensures var value := items[0].value;
      var start := p + |items[0].before|;
      var end := start + |TextOf(value)|;
      var q := end + |items[0].after|;
      Skip(t, p) == start && LooksAt(t, start, TextOf(value)) && Follows(t[end]) && Skip(t, end) == q &&
      t[q] == (if |items| == 1 then CLOSE else COMMA) &&
      (|items| == 1 ==> p + |ItemsText(items)| == q + 1) &&
      (|items| > 1 ==> LooksAt(t, q + 1, ItemsText(items[1..])) &&
                       p + |ItemsText(items)| == q + 1 + |ItemsText(items[1..])|)
    ensures t[Skip(t, p)] != CLOSE
  {
    hide LooksAt, Skip, TextOf, Follows;
    var first := items[0];
    var value := TextOf(first.value);
    var start := p + |first.before|;
    var end := start + |value|;
    var q := end + |first.after|;
    var rest := if |items| == 1 then [CLOSE] else [COMMA] + ItemsText(items[1..]);
    Split(t, p, first.before, value + (first.after + rest));
    Split(t, start, value, first.after + rest);
    Head(t, start, value);
    SkipTo(t, p, first.before);
    var mark := rest[0];
    var tail := rest[1..];
    assert first.after + rest == (first.after + [mark]) + tail;
    Split(t, end, first.after + [mark], tail);
    Marks();
    AfterValue(t, end, first.after, mark);
  }

  lemma Marks()
    ensures Follows(COMMA) && Follows(CLOSE) && Follows(CLOSE_BRACE)
  {
  }

  lemma {:induction false} SpeltItemsParse(t: Text, p: nat, items: seq<Item>, depth: nat)
    requires items != [] && AreItems(items) && LooksAt(t, p, ItemsText(items)) && depth < MAX_NESTING
    ensures PItems(t, p, depth) == Expected(depth + 1 + NestingOfItems(TreesOf(items)) <= MAX_NESTING,
                                            TreesOf(items), p + |ItemsText(items)|)
    decreases items, 1
  {
    hide LooksAt, PValue, TextOf, TreeOf, Nesting, ItemsText, Skip, Follows;
    ItemsLie(t, p, items);
    var start := p + |items[0].before|;
    SpellingParses(t, start, items[0].value, depth + 1);
    var trees := TreesOf(items);
    assert trees == [TreeOf(items[0].value)] + TreesOf(items[1..]);
    assert trees[1..] == TreesOf(items[1..]);
    if |items| > 1 {
      var end := start + |TextOf(items[0].value)|;
      SpeltItemsParse(t, end + |items[0].after| + 1, items[1..], depth);
    } else {
      assert trees == [TreeOf(items[0].value)];
      NothingNested();
    }
  }

  lemma EmptyListParses(t: Text, p: nat, blank: Str, depth: nat)
    requires Spaces(blank) && LooksAt(t, p, [OPEN] + (blank + [CLOSE]))
    ensures t[p] == OPEN && TreesOf([]) == [] && Nesting(Array([])) == 1
    ensures PArray(t, p, depth) == Expected(depth < MAX_NESTING, Array([]), p + |blank| + 2)
  {
    hide LooksAt, PItems, Skip, Follows;
    Split(t, p, [OPEN], blank + [CLOSE]);
    Head(t, p, [OPEN]);
    Marks();
    AfterValue(t, p + 1, blank, CLOSE);
  }

  lemma EmptyDictParses(t: Text, p: nat, blank: Str, depth: nat)
    requires Spaces(blank) && LooksAt(t, p, [OPEN_BRACE] + (blank + [CLOSE_BRACE]))
    ensures t[p] == OPEN_BRACE && MembersOf([]) == [] && Nesting(Object([])) == 1
    ensures PObject(t, p, depth) == Expected(depth < MAX_NESTING, Object([]), p + |blank| + 2)
  {
    hide LooksAt, PMembers, Skip, Follows;
    Split(t, p, [OPEN_BRACE], blank + [CLOSE_BRACE]);
    Head(t, p, [OPEN_BRACE]);
    Marks();
    AfterValue(t, p + 1, blank, CLOSE_BRACE);
  }

  lemma {:induction false} ListParses(t: Text, p: nat, blank: Str, items: seq<Item>, depth: nat)
    requires Spaces(blank) && AreItems(items) && LooksAt(t, p, TextOf(List(blank, items)))
    ensures t[p] == OPEN
    ensures PArray(t, p, depth) == Expected(Fits(depth, Array(TreesOf(items))), Array(TreesOf(items)),
                                            p + |TextOf(List(blank, items))|)
    decreases items, 2
  {
    hide LooksAt, PItems, ItemsText, NestingOfItems, Skip, Follows;
    if items == [] {
      EmptyListParses(t, p, blank, depth);
    } else {
      Split(t, p, [OPEN], ItemsText(items));
      Head(t, p, [OPEN]);
      ItemsLie(t, p + 1, items);
      if depth < MAX_NESTING { SpeltItemsParse(t, p + 1, items, depth); }
    }
  }

  lemma NothingNested()
    ensures NestingOfItems([]) == 0 && NestingOfMembers([]) == 0
  {
  }

  /** Where the pieces of a spelled member lie. */
  lemma MemberLies(t: Text, p: nat, e: Entry)
    requires IsEntry(e) && LooksAt(t, p, MemberText(e))
    ensures var start := p + |e.before|;
      var end := start + |StringText(e.name)|;
      var colon := end + |e.beforeColon|;
      var value := colon + 1 + |e.afterColon|;
      Skip(t, p) == start && LooksAt(t, start, StringText(e.name)) && Skip(t, end) == colon && t[colon] == COLON &&
      Skip(t, colon + 1) == value && LooksAt(t, value, TextOf(e.value)) &&
      value + |TextOf(e.value)| == p + |MemberText(e)|
    ensures t[Skip(t, p)] == QUOTE
  {
    hide LooksAt, Skip, TextOf, StringText;
    var name, value := StringText(e.name), TextOf(e.value);
    var start := p + |e.before|;
    var end := start + |name|;
    var colon := end + |e.beforeColon|;
    Split(t, p, e.before, name + (e.beforeColon + ([COLON] + (e.afterColon + value))));
    Split(t, start, name, e.beforeColon + ([COLON] + (e.afterColon + value)));
    Split(t, end, e.beforeColon, [COLON] + (e.afterColon + value));
    Split(t, colon, [COLON], e.afterColon + value);
    Split(t, colon + 1, e.afterColon, value);
    Head(t, start, name);
    Head(t, colon, [COLON]);
    Head(t, colon + 1 + |e.afterColon|, value);
    SkipTo(t, p, e.before);
    SkipTo(t, end, e.beforeColon);
    SkipTo(t, colon + 1, e.afterColon);
  }

  lemma {:induction false} SpeltMemberParses(t: Text, p: nat, e: Entry, depth: nat)
    requires IsEntry(e) && LooksAt(t, p, MemberText(e)) && Follows(t[p + |MemberText(e)|])
    ensures PMember(t, p, depth) == Expected(Fits(depth + 1, TreeOf(e.value)), MemberOf(e), p + |MemberText(e)|)
    decreases e, 1
  {
    hide LooksAt, PValue, PString, TextOf, TreeOf, Nesting, MemberText, StringText, PiecesBytes, Skip, Follows;
    MemberLies(t, p, e);
    var start := p + |e.before|;
    SpeltStringParses(t, start, e.name);
    SpellingParses(t, start + |StringText(e.name)| + |e.beforeColon| + 1 + |e.afterColon|, e.value, depth + 1);
  }

  /** Where the pieces of a spelled object lie. */
  lemma EntriesLie(t: Text, p: nat, entries: seq<Entry>)
    requires entries != [] && AreEntries(entries) && LooksAt(t, p, EntriesText(entries))
    ensures var end := p + |MemberText(entries[0])|;
      var q := end + |entries[0].after|;
      LooksAt(t, p, MemberText(entries[0])) && Follows(t[end]) && Skip(t, end) == q &&
      t[q] == (if |entries| == 1 then CLOSE_BRACE else COMMA) &&
      (|entries| == 1 ==> p + |EntriesText(entries)| == q + 1) &&
      (|entries| > 1 ==> LooksAt(t, q + 1, EntriesText(entries[1..])) &&
                         p + |EntriesText(entries)| == q + 1 + |EntriesText(entries[1..])|)
  {
    hide LooksAt, Skip, MemberText, Follows;
    var first := entries[0];
    var member := MemberText(first);
    var end := p + |member|;
    var rest := if |entries| == 1 then [CLOSE_BRACE] else [COMMA] + EntriesText(entries[1..]);
    Split(t, p, member, first.after + rest);
    var mark := rest[0];
    var tail := rest[1..];
    assert first.after + rest == (first.after + [mark]) + tail;
    Split(t, end, first.after + [mark], tail);
    Marks();
    AfterValue(t, end, first.after, mark);
  }

  lemma {:induction false} SpeltMembersParse(t: Text, p: nat, entries: seq<Entry>, depth: nat)
    requires entries != [] && AreEntries(entries) && LooksAt(t, p, EntriesText(entries)) && depth < MAX_NESTING
    ensures PMembers(t, p, depth) == Expected(depth + 1 + NestingOfMembers(MembersOf(entries)) <= MAX_NESTING,
                                              MembersOf(entries), p + |EntriesText(entries)|)
    decreases entries, 2
  {
    hide LooksAt, PMember, MemberText, Nesting, EntriesText, Skip, Follows, TreeOf, PiecesBytes;
    EntriesLie(t, p, entries);
    SpeltMemberParses(t, p, entries[0], depth);
    var members := MembersOf(entries);
    assert members == [MemberOf(entries[0])] + MembersOf(entries[1..]);
    assert members[1..] == MembersOf(entries[1..]);
    if |entries| > 1 {
      SpeltMembersParse(t, p + |MemberText(entries[0])| + |entries[0].after| + 1, entries[1..], depth);
    } else {
      assert members == [MemberOf(entries[0])];
      NothingNested();
    }
  }

  lemma NameComesFirst(t: Text, p: nat, entries: seq<Entry>)
    requires entries != [] && AreEntries(entries) && LooksAt(t, p, EntriesText(entries))
    ensures t[Skip(t, p)] == QUOTE
  {
    hide LooksAt, MemberText, EntriesText, Skip, Follows, StringText;
    EntriesLie(t, p, entries);
    MemberLies(t, p, entries[0]);
  }

  lemma {:induction false} FullDictParses(t: Text, p: nat, entries: seq<Entry>, depth: nat)
    requires entries != [] && AreEntries(entries) && LooksAt(t, p, [OPEN_BRACE] + EntriesText(entries))
    ensures t[p] == OPEN_BRACE
    ensures PObject(t, p, depth) == Expected(depth + 1 + NestingOfMembers(MembersOf(entries)) <= MAX_NESTING,
                                             Object(MembersOf(entries)), p + 1 + |EntriesText(entries)|)
    decreases entries, 3
  {
    hide LooksAt, PMembers, EntriesText, MemberText, MembersOf, NestingOfMembers, Skip, AreEntries;
    Split(t, p, [OPEN_BRACE], EntriesText(entries));
    Head(t, p, [OPEN_BRACE]);
    NameComesFirst(t, p + 1, entries);
    if depth < MAX_NESTING { SpeltMembersParse(t, p + 1, entries, depth); }
  }

  lemma {:induction false} DictParses(t: Text, p: nat, blank: Str, entries: seq<Entry>, depth: nat)
    requires Spaces(blank) && AreEntries(entries) && LooksAt(t, p, TextOf(Dict(blank, entries)))
    ensures t[p] == OPEN_BRACE
    ensures PObject(t, p, depth) == Expected(Fits(depth, Object(MembersOf(entries))), Object(MembersOf(entries)),
                                             p + |TextOf(Dict(blank, entries))|)
    decreases entries, 4
  {
    hide LooksAt, PObject, EntriesText, NestingOfMembers, MembersOf, AreEntries;
    if entries == [] { EmptyDictParses(t, p, blank, depth); } else { FullDictParses(t, p, entries, depth); }
  }

  // --------------------------------------------------------- what is read was spelt so

  lemma {:induction false} SkipSpelt(t: Text, p: nat)
    requires p < |t|
    ensures Spaces(t[p..Skip(t, p)])
    decreases |t| - p
  {
    if IsSpace(t[p]) {
      SkipSpelt(t, p + 1);
      assert t[p..Skip(t, p)] == [t[p]] + t[p + 1..Skip(t, p)];
    }
  }

  lemma Joins(t: Text, a: nat, b: nat, c: nat)
    requires a <= b <= c <= |t|
    ensures t[a..c] == t[a..b] + t[b..c]
  {
  }

  lemma WordSpelt(t: Text, p: nat, depth: nat) returns (s: Spelling)
    requires LooksAt(t, p, NULL_TEXT) || LooksAt(t, p, FALSE_TEXT) || LooksAt(t, p, TRUE_TEXT)
    ensures IsSpelling(s) && PValue(t, p, depth) == Ok(TreeOf(s), p + |TextOf(s)|)
    ensures p + |TextOf(s)| < |t| && TextOf(s) == t[p..p + |TextOf(s)|]
  {
    s := if LooksAt(t, p, NULL_TEXT) then Nothing else Truth(!LooksAt(t, p, FALSE_TEXT));
  }

  lemma MarkedSpelt(t: Text, p: nat, depth: nat) returns (s: Spelling)
    requires p < |t| && PMarked(t, p, depth).Ok?
    requires t[p] == QUOTE || t[p] == '-' as int || IsDigit(t[p])
    ensures IsSpelling(s) && TreeOf(s) == PMarked(t, p, depth).value
    ensures TextOf(s) == t[p..PMarked(t, p, depth).end]
  {
    hide PString, PNumber, Meaning, NumeralText, StringText;
    if t[p] == QUOTE {
      var pieces := StringSpelt(t, p);
      s := Quoted(pieces);
    } else {
      var n := NumberSpelt(t, p);
      s := Figure(n);
    }
  }

  lemma {:induction false} ValueSpelt(t: Text, p: nat, depth: nat) returns (s: Spelling)
    requires p < |t| && PValue(t, p, depth).Ok?
    ensures IsSpelling(s) && TreeOf(s) == PValue(t, p, depth).value
    ensures TextOf(s) == t[p..PValue(t, p, depth).end]
    decreases |t| - p - 1, 5
  {
    hide LooksAt, PMarked, PArray, PObject, IsSpelling, TextOf, TreeOf;
    if LooksAt(t, p, NULL_TEXT) || LooksAt(t, p, FALSE_TEXT) || LooksAt(t, p, TRUE_TEXT) {
      s := WordSpelt(t, p, depth);
    } else if t[p] == QUOTE || t[p] == '-' as int || IsDigit(t[p]) {
      s := MarkedSpelt(t, p, depth);
    } else {
      s := ContainerSpelt(t, p, depth);
    }
  }

  lemma EmptyListIs(blank: Str)
    requires Spaces(blank)
    ensures IsSpelling(List(blank, [])) && TreeOf(List(blank, [])) == Array([])
    ensures TextOf(List(blank, [])) == [OPEN] + (blank + [CLOSE])
  {
  }

  lemma EmptyDictIs(blank: Str)
    requires Spaces(blank)
    ensures IsSpelling(Dict(blank, [])) && TreeOf(Dict(blank, [])) == Object([])
    ensures TextOf(Dict(blank, [])) == [OPEN_BRACE] + (blank + [CLOSE_BRACE])
  {
  }

  lemma {:induction false} ContainerSpelt(t: Text, p: nat, depth: nat) returns (s: Spelling)
    requires p < |t| && PMarked(t, p, depth).Ok?
    requires t[p] != QUOTE && t[p] != '-' as int && !IsDigit(t[p])
    ensures IsSpelling(s) && TreeOf(s) == PMarked(t, p, depth).value
    ensures TextOf(s) == t[p..PMarked(t, p, depth).end]
    decreases |t| - p - 1, 4
  {
    hide PItems, PMembers, ItemsText, EntriesText, Skip, TreesOf, MembersOf, AreItems, AreEntries;
    SkipSpelt(t, p + 1);
    var q := Skip(t, p + 1);
    var end := PMarked(t, p, depth).end;
    Joins(t, p, p + 1, end);
    assert t[p..p + 1] == [t[p]];
    if t[q] == CLOSE || t[q] == CLOSE_BRACE {
      EmptyListIs(t[p + 1..q]);
      EmptyDictIs(t[p + 1..q]);
      Joins(t, p + 1, q, q + 1);
      assert t[q..q + 1] == [t[q]];
    }
    if t[p] == OPEN {
      if t[q] == CLOSE {
        s := List(t[p + 1..q], []);
      } else {
        var items := ItemsSpelt(t, p + 1, depth);
        s := List([], items);
      }
    } else if t[q] == CLOSE_BRACE {
      s := Dict(t[p + 1..q], []);
    } else {
      var entries := EntriesSpelt(t, p + 1, depth);
      s := Dict([], entries);
    }
  }

  lemma Fourfold(t: Str, a: nat, b: nat, c: nat, d: nat, e: nat)
    requires a <= b <= c <= d <= e <= |t|
    ensures t[a..e] == t[a..b] + (t[b..c] + (t[c..d] + t[d..e]))
  {
    Threefold(t, b, c, d, e);
    assert t[a..e] == t[a..b] + t[b..e];
  }

  lemma {:induction false} ItemsSpelt(t: Text, p: nat, depth: nat) returns (items: seq<Item>)
    requires p < |t| && PItems(t, p, depth).Ok?
    ensures items != [] && AreItems(items) && TreesOf(items) == PItems(t, p, depth).value
    ensures ItemsText(items) == t[p..PItems(t, p, depth).end]
    decreases |t| - p - 1, 6
  {
    hide PValue, Skip, TextOf, TreeOf, IsSpelling;
    var end := PItems(t, p, depth).end;
    var start := Skip(t, p);
    SkipSpelt(t, p);
    var value := ValueSpelt(t, start, depth + 1);
    var after := PValue(t, start, depth + 1).end;
    SkipSpelt(t, after);
    var q := Skip(t, after);
    var item := Item(t[p..start], value, t[after..q]);
    Fourfold(t, p, start, after, q, end);
    if t[q] == COMMA {
      var rest := ItemsSpelt(t, q + 1, depth);
      items := [item] + rest;
      assert items[1..] == rest;
      assert t[q..end] == [COMMA] + t[q + 1..end];
    } else {
      items := [item];
      assert t[q..end] == [CLOSE];
    }
  }

  lemma {:induction false} MemberSpelt(t: Text, p: nat, depth: nat, after: Str) returns (e: Entry)
    requires p < |t| && PMember(t, p, depth).Ok? && Spaces(after)
    ensures IsEntry(e) && MemberOf(e) == PMember(t, p, depth).value && e.after == after
    ensures MemberText(e) == t[p..PMember(t, p, depth).end]
    decreases |t| - p - 1, 6
  {
    hide PValue, PString, Skip, TextOf, TreeOf, IsSpelling, StringText, PiecesBytes;
    var end := PMember(t, p, depth).end;
    var start := Skip(t, p);
    SkipSpelt(t, p);
    var name := StringSpelt(t, start);
    var named := PString(t, start).end;
    SkipSpelt(t, named);
    var colon := Skip(t, named);
    SkipSpelt(t, colon + 1);
    var q := Skip(t, colon + 1);
    var value := ValueSpelt(t, q, depth + 1);
    e := Entry(t[p..start], name, t[named..colon], t[colon + 1..q], value, after);
    Sixfold(t, p, start, named, colon, q, end);
    assert t[colon..colon + 1] == [COLON];
  }

  lemma Sixfold(t: Str, a: nat, b: nat, c: nat, d: nat, e: nat, f: nat)
    requires a <= b <= c <= d < e <= f <= |t|
    ensures t[a..f] == t[a..b] + (t[b..c] + (t[c..d] + (t[d..d + 1] + (t[d + 1..e] + t[e..f]))))
  {
    Threefold(t, d, d + 1, e, f);
    assert t[c..f] == t[c..d] + t[d..f];
    Threefold(t, a, b, c, f);
  }

  lemma {:induction false} EntriesSpelt(t: Text, p: nat, depth: nat) returns (entries: seq<Entry>)
    requires p < |t| && PMembers(t, p, depth).Ok?
    ensures entries != [] && AreEntries(entries) && MembersOf(entries) == PMembers(t, p, depth).value
    ensures EntriesText(entries) == t[p..PMembers(t, p, depth).end]
    decreases |t| - p - 1, 7
  {
    hide PMember, Skip, MemberText, MemberOf, IsEntry;
    var end := PMembers(t, p, depth).end;
    var after := PMember(t, p, depth).end;
    SkipSpelt(t, after);
    var q := Skip(t, after);
    var e := MemberSpelt(t, p, depth, t[after..q]);
    Joins(t, p, after, end);
    Joins(t, after, q, end);
    if t[q] == COMMA {
      var rest := EntriesSpelt(t, q + 1, depth);
      entries := [e] + rest;
      assert entries[1..] == rest;
      assert t[q..end] == [COMMA] + t[q + 1..end];
    } else {
      entries := [e];
      assert t[q..end] == [CLOSE_BRACE];
    }
  }

  // ------------------------------------------------------------------------ theorem

  /** The text spells the tree, with any whitespace RFC 8259 allows. */
  ghost predicate Spells(text: Str, v: Value) {
    exists before: Str, s: Spelling, after: Str :: SpellsWith(text, v, before, s, after)
  }

  ghost predicate SpellsWith(text: Str, v: Value, before: Str, s: Spelling, after: Str) {
    Spaces(before) && IsSpelling(s) && Spaces(after) && TreeOf(s) == v && text == before + TextOf(s) + after
  }

  lemma SpelledTextParses(text: Str, v: Value, before: Str, s: Spelling, after: Str)
    requires SpellsWith(text, v, before, s, after)
    ensures Parse(text + [0]) == if Nesting(v) <= MAX_NESTING then Some(v) else None
  {
    hide LooksAt, Skip, TextOf, TreeOf, PValue, Nesting, IsSpelling;
    var t: Text := text + [0];
    var p, q := |before|, |before| + |TextOf(s)|;
    LiesIn(before, TextOf(s), after);
    assert t == before + TextOf(s) + after + [0];
    Head(t, p, TextOf(s));
    SkipTo(t, 0, before);
    if after != [] { Head(t, q, after); }
    EndFollows(t[q]);
    SpellingParses(t, p, s, 0);
    SkipTo(t, q, after);
  }

  lemma EndFollows(b: Byte)
    ensures IsSpace(b) || b == 0 ==> Follows(b)
  {
  }

  lemma ParsedTextSpells(text: Str) returns (before: Str, s: Spelling, after: Str)
    requires NulFree(text) && Parse(text + [0]).Some?
    ensures SpellsWith(text, Parse(text + [0]).value, before, s, after)
  {
    hide Skip, TextOf, TreeOf, PValue, IsSpelling;
    var t: Text := text + [0];
    var p := Skip(t, 0);
    SkipSpelt(t, 0);
    s := ValueSpelt(t, p, 0);
    var q := PValue(t, p, 0).end;
    SkipSpelt(t, q);
    assert Skip(t, q) == |text|;
    before, after := t[..p], t[q..|text|];
    assert text == t[..|text|] == before + t[p..q] + after;
  }

  /**
   The parser accepts a text exactly if it spells a tree nested at most 32 deep, and gives that tree.
   */
  lemma ParsesExactlySpellings(text: Str, v: Value)
    requires NulFree(text)
    ensures Parse(text + [0]) == Some(v) <==> Spells(text, v) && Nesting(v) <= 32
  {
    hide SpellsWith;
    if before, s, after :| SpellsWith(text, v, before, s, after) {
      SpelledTextParses(text, v, before, s, after);
    }
    if Parse(text + [0]) == Some(v) {
      var before, s, after := ParsedTextSpells(text);
      SpelledTextParses(text, v, before, s, after);
    }
  }
}
