/** The parser reads back what the compact formatter writes.  A parsed
 *  value becomes a formatter `Node` by the classes the parser builds its
 *  tree from; `appendString` output decodes to the string it was given,
 *  and the whole compact output of a well-formed value parses to that
 *  value.
 */
module RoundTrip {
  import opened Wrappers
  import opened CodeUnits
  import opened JsonValue
  import opened Layout
  import opened Parser
  import opened ParserProperties
  import opened Placement

  // ---------------------------------------------------------------------
  // Strings
  // ---------------------------------------------------------------------

  /** The digit written for `d` is read back as `d`. */
  lemma {:induction false} HexDigitDecodes(d: nat)
    requires d < 16
    ensures IsHexDigit(HexDigit(d)) && HexDigitValue(HexDigit(d)) == d
  {
  }

  /** The four nibbles of a code unit, most significant first, make it up. */
  lemma {:induction false} NibblesCompose(ch: CodeUnit)
    ensures ch == 16 * (16 * (16 * (ch / 0x1000 % 0x10) + ch / 0x100 % 0x10) + ch / 0x10 % 0x10) + ch % 0x10
  {
    var q1 := ch / 16;
    var q2 := q1 / 16;
    assert ch / 0x100 == q2;
    assert ch / 0x1000 == q2 / 16;
  }

  /** `\uXXXX` as `appendString` writes it reads back as the unit itself. */
  lemma {:induction false} HexEscapeDecodes(text: Text, pos: nat, ch: CodeUnit)
    requires Holds(text, pos, HexEscapeDigits(ch))
    ensures HexAt(text, pos) && HexValue(text, pos) == ch
  {
    var digits := HexEscapeDigits(ch);
    assert text[pos] == Piece(digits, 0) && text[pos + 1] == Piece(digits, 1);
    assert text[pos + 2] == Piece(digits, 2) && text[pos + 3] == Piece(digits, 3);
    HexDigitDecodes(ch / 0x1000 % 0x10);
    HexDigitDecodes(ch / 0x100 % 0x10);
    HexDigitDecodes(ch / 0x10 % 0x10);
    HexDigitDecodes(ch % 0x10);
    assert HexAt(text, pos);
    assert HexRunValue(text, pos, 1) == ch / 0x1000 % 0x10;
    assert HexRunValue(text, pos, 2) == 16 * (ch / 0x1000 % 0x10) + ch / 0x100 % 0x10;
    assert HexRunValue(text, pos, 3) == 16 * HexRunValue(text, pos, 2) + ch / 0x10 % 0x10;
    assert HexRunValue(text, pos, 4) == 16 * HexRunValue(text, pos, 3) + ch % 0x10;
    NibblesCompose(ch);
  }

  /** The escape of one unit, read where it stands, adds that unit to what
      has been decoded and moves past the escape. */
  lemma {:induction false} EscapeUnitDecodes(text: Text, pos: nat, next: nat, pointer: Text, sb: Text, ch: CodeUnit, decoded: Text)
    requires Holds(text, pos, EscapeUnit(ch)) && next == pos + |EscapeUnit(ch)| && decoded == sb + [ch]
    ensures StringAt(text, pos, pointer, sb) == StringAt(text, next, pointer, decoded)
  {
    var e := EscapeUnit(ch);
    assert text[pos] == Piece(e, 0);
    if |e| >= 2 {
      assert text[pos + 1] == Piece(e, 1);
    }
    if ch < 0x20 || ch >= 0x7F {
      if ch != BACKSPACE && ch != FORM_FEED && ch != LF && ch != CR && ch != TAB {
        HoldsConcat(text, pos, [BACKSLASH, LOWER_U], HexEscapeDigits(ch));
        HexEscapeDecodes(text, pos + 2, ch);
      }
    }
  }

  /** Where the escape of a non-empty string stands, the escape of its
      first unit stands, followed by that of the rest. */
  lemma {:induction false} EscapedSplits(text: Text, pos: nat, s: Text)
    requires s != [] && Holds(text, pos, Escaped(s))
    ensures Holds(text, pos, EscapeUnit(s[0]))
    ensures Holds(text, pos + |EscapeUnit(s[0])|, Escaped(s[1..]))
  {
    HoldsConcat(text, pos, EscapeUnit(s[0]), Escaped(s[1..]));
  }

  /** The escape of the first unit of a non-empty string, read where it
      stands, adds that unit; the escape of the rest follows it. */
  lemma {:induction false} FirstUnitDecodes(text: Text, pos: nat, next: nat, pointer: Text, sb: Text, s: Text)
    requires s != [] && Holds(text, pos, Escaped(s)) && next == pos + |EscapeUnit(s[0])|
    ensures StringAt(text, pos, pointer, sb) == StringAt(text, next, pointer, sb + [s[0]])
    ensures Holds(text, next, Escaped(s[1..])) && next + |Escaped(s[1..])| == pos + |Escaped(s)|
  {
    EscapedSplits(text, pos, s);
    EscapeUnitDecodes(text, pos, next, pointer, sb, s[0], sb + [s[0]]);
  }

  /** An escaped string, read where it stands, adds the string to what has
      been decoded. */
  lemma {:induction false} EscapedDecodes(text: Text, pos: nat, pointer: Text, sb: Text, s: Text)
    requires Holds(text, pos, Escaped(s))
    ensures StringAt(text, pos, pointer, sb) == StringAt(text, pos + |Escaped(s)|, pointer, sb + s)
    decreases |s|
  {
    if s == [] {
      assert sb + s == sb;
    } else {
      var next, rest, decoded := pos + |EscapeUnit(s[0])|, s[1..], sb + [s[0]];
      FirstUnitDecodes(text, pos, next, pointer, sb, s);
      EscapedDecodes(text, next, pointer, decoded, rest);
      AppendFirst(sb, s);
      assert decoded + rest == sb + s && next + |Escaped(rest)| == pos + |Escaped(s)|;
    }
  }

  /** The same from an empty start: the escaped string decodes to itself. */
  lemma {:induction false} EscapedDecodesWhole(text: Text, pos: nat, pointer: Text, s: Text)
    requires Holds(text, pos, Escaped(s))
    ensures StringAt(text, pos, pointer, []) == StringAt(text, pos + |Escaped(s)|, pointer, s)
  {
    EscapedDecodes(text, pos, pointer, [], s);
    assert [] + s == s;
  }

  /** A closing quote ends the string and returns what has been decoded. */
  lemma {:induction false} ClosingQuoteEnds(text: Text, q: nat, pointer: Text, sb: Text)
    requires q < |text| && text[q] == QUOTE
    ensures StringAt(text, q, pointer, sb) == Scanned(sb, q + 1)
  {
  }

  /** The output of `appendString`, followed by anything, is read by the
      string scanner as exactly the string that was written. */
  lemma {:induction false} QuotedDecodes(text: Text, pos: nat, pointer: Text, s: Text)
    requires Holds(text, pos, Quoted(s))
    ensures pos < |text| && text[pos] == QUOTE
    ensures StringAt(text, pos + 1, pointer, []) == Scanned(s, pos + |Quoted(s)|)
  {
    var body := Escaped(s);
    HoldsConcat(text, pos, [QUOTE] + body, [QUOTE]);
    HoldsConcat(text, pos, [QUOTE], body);
    assert text[pos] == Piece([QUOTE], 0);
    assert text[pos + 1 + |body|] == Piece([QUOTE], 0);
    EscapedDecodesWhole(text, pos + 1, pointer, s);
    ClosingQuoteEnds(text, pos + 1 + |body|, pointer, s);
  }

  /** A quoted string where an element is expected is read as that string. */
  lemma {:induction false} StringParses(text: Text, pos: nat, pointer: Text, s: Text)
    requires Holds(text, pos, Quoted(s))
    ensures ValueAt(text, pos, pointer) == Scanned(Str(s), pos + |Quoted(s)|)
  {
    QuotedDecodes(text, pos, pointer, s);
  }

  /** `parseString(appendString(s)) == s`: the quoted form of any string,
      as a whole document, parses to that string. */
  lemma {:induction false} StringRoundTrip(s: Text)
    ensures Document(Quoted(s)) == Success(Str(s))
  {
    HoldsWhole(Quoted(s));
    StringParses(Quoted(s), 0, ROOT_POINTER, s);
  }

  // ---------------------------------------------------------------------
  // Values
  // ---------------------------------------------------------------------

  /** The object the formatters are handed for a value the parser built: a
      `Boolean` falls to the last branch of `appendPrimitive`, where its
      `toString()` is `true` or `false`; a `List` is a `Collection`; a `Map`
      keeps its members in the order they were read. */
  function ToNode(v: Value): Node
    decreases v, 1
  {
    match v
    case Null => NullNode
    case Boolean(b) => OtherNode(if b then TRUE else FALSE)
    case Integer(i) => IntNode(i)
    case Long(l) => LongNode(l)
    case BigDecimal(literal) => NumberNode(literal)
    case Str(s) => CharsNode(s)
    case List(items) => CollectionNode(ToNodes(items))
    case Map(members) => MapNode(ToEntries(members))
  }

  function ToNodes(items: seq<Value>): (nodes: seq<Node>)
    ensures |nodes| == |items|
    ensures forall k :: 0 <= k < |items| ==> nodes[k] == ToNode(items[k])
    decreases items, 0
  {
    seq(|items|, k requires 0 <= k < |items| => ToNode(items[k]))
  }

  function ToEntries(members: seq<Member>): (entries: seq<Entry>)
    ensures |entries| == |members|
    ensures forall k :: 0 <= k < |members| ==> entries[k] == Entry(members[k].key, ToNode(members[k].value))
    decreases members, 0
  {
    seq(|members|, k requires 0 <= k < |members| => Entry(members[k].key, ToNode(members[k].value)))
  }

  /** The units that can open an element as `outputTo` writes it. */
  predicate OpensElement(ch: CodeUnit)
  {
    ch == OPEN_BRACE || ch == OPEN_BRACKET || ch == QUOTE || ch == MINUS || IsDigit(ch)
    || ch == LOWER_T || ch == LOWER_F || ch == LOWER_N
  }

  /** The compact form of a well-formed value is never empty, and its first
      unit is neither whitespace nor a closing bracket or brace. */
  lemma {:induction false} CompactOpens(v: Value)
    requires WellFormed(v)
    ensures |Compact(ToNode(v))| >= 1 && OpensElement(Compact(ToNode(v))[0])
  {
    match v
    case Integer(i) => SignedDecimalOpens(i);
    case Long(l) => SignedDecimalOpens(l);
    case BigDecimal(literal) => LiteralOpens(literal);
    case _ =>
  }

  /** A number literal starts with a minus sign or a digit. */
  lemma {:induction false} LiteralOpens(literal: Text)
    requires IsDecimalLiteral(literal)
    ensures |literal| >= 1 && OpensElement(literal[0])
  {
    var n :| ValidNumber(n) && NumberText(n) == literal && NumberValue(n) == BigDecimal(literal);
    if !n.negative {
      assert literal[0] == n.intPart[0];
    }
  }

  lemma {:induction false} SignedDecimalOpens(m: int)
    ensures |SignedDecimalText(m)| >= 1 && OpensElement(SignedDecimalText(m)[0])
  {
    DecimalTextIsStandard(if m < 0 then -m else m);
  }

  // ---------------------------------------------------------------------
  // Comma-separated pieces
  // ---------------------------------------------------------------------

  /** The first `n` pieces separated by commas: the shape of the body of
      both a compact list and a compact map. */
  function Joined(pieces: seq<Text>, n: nat): Text
    requires n <= |pieces|
  {
    if n == 0 then [] else if n == 1 then pieces[0] else Joined(pieces, n - 1) + [COMMA] + pieces[n - 1]
  }

  /** The pieces of a list: its items in compact form. */
  function ItemPieces(items: seq<Value>): (pieces: seq<Text>)
    ensures |pieces| == |items|
    ensures forall j :: 0 <= j < |items| ==> pieces[j] == Compact(ToNode(items[j]))
  {
    seq(|items|, j requires 0 <= j < |items| => Compact(ToNode(items[j])))
  }

  /** One entry as `outputTo` writes it: `"key":value`. */
  function EntryText(m: Member): Text
  {
    Quoted(m.key) + [COLON] + Compact(ToNode(m.value))
  }

  /** The pieces of a map: its entries in compact form. */
  function MemberPieces(members: seq<Member>): (pieces: seq<Text>)
    ensures |pieces| == |members|
    ensures forall j :: 0 <= j < |members| ==> pieces[j] == EntryText(members[j])
  {
    seq(|members|, j requires 0 <= j < |members| => EntryText(members[j]))
  }

  /** The body of a compact list joins its items' compact forms. */
  lemma {:induction false} ItemsJoined(items: seq<Value>, n: nat)
    requires n <= |items|
    ensures CompactItems(ToNodes(items), n) == Joined(ItemPieces(items), n)
  {
    if n > 1 {
      ItemsJoined(items, n - 1);
    }
  }

  /** The body of a compact map joins its entries' compact forms. */
  lemma {:induction false} MembersJoined(members: seq<Member>, n: nat)
    requires n <= |members|
    ensures CompactMembers(ToEntries(members), n) == Joined(MemberPieces(members), n)
  {
    if n > 0 {
      var entries, m := ToEntries(members), members[n - 1];
      assert entries[n - 1] == Entry(m.key, ToNode(m.value));
      assert MemberPieces(members)[n - 1] == EntryText(m);
      if n > 1 {
        MembersJoined(members, n - 1);
      }
    }
  }

  /** A compact list is its joined items between brackets. */
  lemma {:induction false} ListBody(items: seq<Value>)
    ensures Compact(ToNode(List(items))) == [OPEN_BRACKET] + Joined(ItemPieces(items), |items|) + [CLOSE_BRACKET]
  {
    ItemsJoined(items, |items|);
  }

  /** A compact map is its joined entries between braces. */
  lemma {:induction false} MapBody(members: seq<Member>)
    ensures Compact(ToNode(Map(members))) == [OPEN_BRACE] + Joined(MemberPieces(members), |members|) + [CLOSE_BRACE]
  {
    MembersJoined(members, |members|);
  }

  /** An entry starts with the quote that opens its key. */
  lemma {:induction false} EntryOpens(m: Member)
    ensures |EntryText(m)| > 0 && EntryText(m)[0] == QUOTE
  {
    assert Quoted(m.key)[0] == QUOTE;
  }


  /** The first `k` pieces are at the head of the first `n`, and a comma
      follows them when more come. */
  lemma {:induction false} JoinedPlaced(text: Text, p0: nat, pieces: seq<Text>, k: nat, n: nat)
    requires 1 <= k <= n <= |pieces| && Holds(text, p0, Joined(pieces, n))
    ensures |Joined(pieces, k)| <= |Joined(pieces, n)| && Holds(text, p0, Joined(pieces, k))
    ensures k < n ==> |Joined(pieces, k)| < |Joined(pieces, n)| && text[p0 + |Joined(pieces, k)|] == COMMA
    decreases n
  {
    if k < n {
      var head := Joined(pieces, n - 1);
      HoldsConcat(text, p0, head + [COMMA], pieces[n - 1]);
      HoldsConcat(text, p0, head, [COMMA]);
      assert text[p0 + |head|] == Piece([COMMA], 0);
      JoinedPlaced(text, p0, pieces, k, n - 1);
    }
  }

  /** Where piece `k` starts: at the head, or after the first `k` pieces
      and a comma. */
  function PieceStart(pieces: seq<Text>, p0: nat, k: nat): nat
    requires k <= |pieces|
  {
    if k == 0 then p0 else p0 + |Joined(pieces, k)| + 1
  }

  /** Where piece `k` ends: just after the first `k + 1` pieces. */
  function PieceEnd(pieces: seq<Text>, p0: nat, k: nat): nat
    requires k < |pieces|
  {
    p0 + |Joined(pieces, k + 1)|
  }

  /** Piece `k` ends where the first `k + 1` pieces end. */
  lemma {:induction false} PiecePlaced(text: Text, p0: nat, pieces: seq<Text>, k: nat)
    requires k < |pieces| && Holds(text, p0, Joined(pieces, k + 1))
    ensures PieceStart(pieces, p0, k) + |pieces[k]| == p0 + |Joined(pieces, k + 1)|
    ensures Holds(text, PieceStart(pieces, p0, k), pieces[k])
  {
    if k > 0 {
      HoldsConcat(text, p0, Joined(pieces, k) + [COMMA], pieces[k]);
    }
  }

  /** What the parser sees from piece `k` on: the piece, ending before a
      comma or, after the last piece, before the closing unit. */
  lemma {:induction false} PieceFollowed(text: Text, p0: nat, pieces: seq<Text>, k: nat, close: CodeUnit)
    requires k < |pieces| && Holds(text, p0, Joined(pieces, |pieces|))
    requires p0 + |Joined(pieces, |pieces|)| < |text| && text[p0 + |Joined(pieces, |pieces|)|] == close
    ensures var end := p0 + |Joined(pieces, k + 1)|;
      PieceStart(pieces, p0, k) + |pieces[k]| == end < |text| && Holds(text, PieceStart(pieces, p0, k), pieces[k])
      && text[end] == if k + 1 < |pieces| then COMMA else close
  {
    JoinedPlaced(text, p0, pieces, k + 1, |pieces|);
    PiecePlaced(text, p0, pieces, k);
  }

  // ---------------------------------------------------------------------
  // Reading compact output back
  // ---------------------------------------------------------------------

  /** A keyword found at `pos` is matched there. */
  lemma {:induction false} KeywordMatches(text: Text, pos: nat, lit: Text)
    requires Holds(text, pos, lit)
    ensures StartsWithAt(text, pos, lit)
    decreases |lit|
  {
    if lit != [] {
      assert lit == [lit[0]] + lit[1..];
      HoldsConcat(text, pos, [lit[0]], lit[1..]);
      assert text[pos] == Piece([lit[0]], 0);
      KeywordMatches(text, pos + 1, lit[1..]);
    }
  }

  /** `null`, `true` and `false` are read back as themselves. */
  lemma {:induction false} KeywordRead(text: Text, start: nat, end: nat, pointer: Text, v: Value, piece: Text)
    requires v.Null? || v.Boolean?
    requires piece == Compact(ToNode(v)) && end == start + |piece| && Holds(text, start, piece)
    ensures ValueAt(text, start, pointer) == Scanned(v, end)
  {
    assert piece == if v.Null? then NULL else if v.b then TRUE else FALSE;
    assert text[start] == Piece(piece, 0);
    assert SkipSpaces(text, start) == start;
    KeywordMatches(text, start, piece);
  }

  /** The literal of the grammar a parsed integer is written as. */
  function IntegerParts(m: int): (n: NumberParts)
    ensures ValidNumber(n) && NumberText(n) == SignedDecimalText(m)
    ensures NumberValue(n) == if IsInt32(m) then Integer(m) else if IsInt64(m) then Long(m) else BigDecimal(SignedDecimalText(m))
  {
    DecimalTextIsStandard(if m < 0 then -m else m);
    NumberParts(m < 0, DecimalText(if m < 0 then -m else m), [], [])
  }

  /** A number written at `start`, followed by nothing that could extend
      it, is scanned as the number it denotes. */
  lemma {:induction false} NumberScanned(text: Text, start: nat, pointer: Text, n: NumberParts)
    requires ValidNumber(n) && Holds(text, start, NumberText(n))
    requires start + |NumberText(n)| == |text| || !ContinuesNumber(text[start + |NumberText(n)|])
    ensures NumberAt(text, start, pointer) == Scanned(NumberValue(n), start + |NumberText(n)|)
  {
    HoldsSlice(text, start, NumberText(n));
    NumberGrammarAccepted(text, start, pointer, n);
  }

  /** A number written where an element is expected, followed by nothing
      that could extend it, is read back as the number it denotes. */
  lemma {:induction false} NumberRead(text: Text, start: nat, end: nat, pointer: Text, n: NumberParts)
    requires ValidNumber(n) && end == start + |NumberText(n)| && Holds(text, start, NumberText(n))
    requires end == |text| || !ContinuesNumber(text[end])
    ensures ValueAt(text, start, pointer) == Scanned(NumberValue(n), end)
  {
    assert text[start] == Piece(NumberText(n), 0);
    if !n.negative {
      assert NumberText(n)[0] == n.intPart[0];
    }
    ValueAtNumber(text, start, pointer);
    NumberScanned(text, start, pointer, n);
  }

  /** An integer written in decimal is read back as the number it denotes. */
  lemma {:induction false} IntegerRead(text: Text, start: nat, end: nat, pointer: Text, m: int, piece: Text)
    requires piece == SignedDecimalText(m) && end == start + |piece| && Holds(text, start, piece)
    requires end == |text| || !ContinuesNumber(text[end])
    ensures ValueAt(text, start, pointer) == Scanned(NumberValue(IntegerParts(m)), end)
  {
    NumberRead(text, start, end, pointer, IntegerParts(m));
  }

  /** The compact form of a well-formed value, standing between `start`
      and `end` and followed by nothing that could extend a number, is
      read back as that value, the cursor stopping at `end`. */
  lemma {:induction false} ValueRead(text: Text, start: nat, end: nat, pointer: Text, v: Value, piece: Text)
    requires WellFormed(v) && piece == Compact(ToNode(v))
    requires end == start + |piece| && Holds(text, start, piece)
    requires end == |text| || !ContinuesNumber(text[end])
    ensures ValueAt(text, start, pointer) == Scanned(v, end)
    decreases v, 3
  {
    match v
    case List(items) => ListRead(text, start, end, pointer, items, piece);
    case Map(members) => MapRead(text, start, end, pointer, members, piece);
    case _ => ScalarRead(text, start, end, pointer, v, piece);
  }

  /** The same for a value that is neither a list nor a map. */
  lemma {:induction false} ScalarRead(text: Text, start: nat, end: nat, pointer: Text, v: Value, piece: Text)
    requires !v.List? && !v.Map?
    requires WellFormed(v) && piece == Compact(ToNode(v))
    requires end == start + |piece| && Holds(text, start, piece)
    requires end == |text| || !ContinuesNumber(text[end])
    ensures ValueAt(text, start, pointer) == Scanned(v, end)
  {
    match v
    case Null => KeywordRead(text, start, end, pointer, v, piece);
    case Boolean(_) => KeywordRead(text, start, end, pointer, v, piece);
    case Integer(i) => IntegerRead(text, start, end, pointer, i, piece);
    case Long(l) => IntegerRead(text, start, end, pointer, l, piece);
    case BigDecimal(literal) => LiteralRead(text, start, end, pointer, literal, piece);
    case Str(s) => StringParses(text, start, pointer, s);
  }

  /** A number literal kept as text is read back as itself. */
  lemma {:induction false} LiteralRead(text: Text, start: nat, end: nat, pointer: Text, literal: Text, piece: Text)
    requires IsDecimalLiteral(literal) && piece == literal
    requires end == start + |piece| && Holds(text, start, piece)
    requires end == |text| || !ContinuesNumber(text[end])
    ensures ValueAt(text, start, pointer) == Scanned(BigDecimal(literal), end)
  {
    var n :| ValidNumber(n) && NumberText(n) == literal && NumberValue(n) == BigDecimal(literal);
    NumberRead(text, start, end, pointer, n);
  }

  /** What the parser meets after an element or a member ending at `end`:
      a comma when `more` come, and otherwise whitespace, if any, up to
      the unit `closing` at `close`. */
  predicate FollowedBy(text: Text, end: nat, more: bool, close: nat, closing: CodeUnit)
  {
    end < |text|
    && if more then text[end] == COMMA
       else close < |text| && SkipSpaces(text, end) == close && text[close] == closing
  }

  /** Item `j` of a list body in place: it is read from where piece `j`
      starts to where it ends, and a comma follows it or, after the last,
      the closing bracket at `close`. */
  ghost predicate ItemInPlace(text: Text, pointer: Text, items: seq<Value>, pieces: seq<Text>, p0: nat, close: nat, j: nat)
  {
    j < |items| && j < |pieces| && PieceStart(pieces, p0, j) <= |text|
    && ValueAt(text, PieceStart(pieces, p0, j), pointer + [SLASH] + DecimalText(j)) == Scanned(items[j], PieceEnd(pieces, p0, j))
    && FollowedBy(text, PieceEnd(pieces, p0, j), j + 1 < |items|, close, CLOSE_BRACKET)
  }

  /** Each item of a list body in place. */
  ghost predicate ItemsInPlace(text: Text, pointer: Text, items: seq<Value>, pieces: seq<Text>, p0: nat, close: nat)
  {
    |pieces| == |items| && forall j :: 0 <= j < |items| ==> ItemInPlace(text, pointer, items, pieces, p0, close, j)
  }

  /** The array loop's view of a list body: item `j` is read from
      `starts[j]` to `ends[j]`, a comma follows every item but the last,
      the closing bracket, at `close`, follows the last, and each item
      after the first starts just after the comma before it. */
  ghost predicate ItemsLaidOut(text: Text, pointer: Text, items: seq<Value>, starts: seq<nat>, ends: seq<nat>, close: nat)
  {
    |starts| == |ends| == |items|
    && (forall j {:trigger starts[j]} :: 0 <= j < |items| ==>
          starts[j] <= |text|
          && ValueAt(text, starts[j], pointer + [SLASH] + DecimalText(j)) == Scanned(items[j], ends[j])
          && FollowedBy(text, ends[j], j + 1 < |items|, close, CLOSE_BRACKET))
    && (forall j {:trigger starts[j]} :: 0 < j < |items| ==> starts[j] == ends[j - 1] + 1)
  }

  /** From item `k` on, the array loop reads the rest of a laid-out list
      body and its closing bracket. */
  lemma {:induction false} ElementsFrom(text: Text, pointer: Text, items: seq<Value>, starts: seq<nat>, ends: seq<nat>, close: nat, k: nat)
    requires k < |items| && ItemsLaidOut(text, pointer, items, starts, ends, close)
    ensures ElementsAt(text, starts[k], pointer, items[..k]) == Scanned(List(items), close + 1)
    decreases |items| - k
  {
    PrefixGrows(items, k);
    if k + 1 < |items| {
      ElementThenComma(text, starts[k], pointer, items[..k], items[k], ends[k], items[..k + 1]);
      ElementsFrom(text, pointer, items, starts, ends, close, k + 1);
    } else {
      ElementThenClose(text, starts[k], pointer, items[..k], items[k], ends[k], close);
    }
  }

  /** Where each of the pieces starts. */
  function PieceStarts(pieces: seq<Text>, p0: nat): (starts: seq<nat>)
    ensures |starts| == |pieces| && forall j :: 0 <= j < |pieces| ==> starts[j] == PieceStart(pieces, p0, j)
  {
    seq(|pieces|, j requires 0 <= j < |pieces| => PieceStart(pieces, p0, j))
  }

  /** Where each of the pieces ends. */
  function PieceEnds(pieces: seq<Text>, p0: nat): (ends: seq<nat>)
    ensures |ends| == |pieces| && forall j :: 0 <= j < |pieces| ==> ends[j] == PieceEnd(pieces, p0, j)
  {
    seq(|pieces|, j requires 0 <= j < |pieces| => PieceEnd(pieces, p0, j))
  }

  /** The same facts, as the array loop's view. */
  lemma {:induction false} ItemsSpanned(text: Text, pointer: Text, items: seq<Value>, pieces: seq<Text>, p0: nat, close: nat)
    requires ItemsInPlace(text, pointer, items, pieces, p0, close)
    ensures ItemsLaidOut(text, pointer, items, PieceStarts(pieces, p0), PieceEnds(pieces, p0), close)
  {
    var starts, ends := PieceStarts(pieces, p0), PieceEnds(pieces, p0);
    forall j | 0 <= j < |items|
      ensures starts[j] == PieceStart(pieces, p0, j) && ends[j] == PieceEnd(pieces, p0, j)
      ensures ItemInPlace(text, pointer, items, pieces, p0, close, j)
    {
    }
  }

  /** Item `j` of a compact list body, where it stands, is read back. */
  lemma {:induction false} ItemAt(text: Text, p0: nat, pointer: Text, items: seq<Value>, pieces: seq<Text>, close: nat, j: nat)
    requires j < |items| == |pieces| && WellFormed(items[j]) && pieces[j] == Compact(ToNode(items[j]))
    requires var body := Joined(pieces, |pieces|);
      Holds(text, p0, body) && p0 + |body| < |text| && text[p0 + |body|] == CLOSE_BRACKET
    requires close == p0 + |Joined(pieces, |pieces|)|
    ensures ItemInPlace(text, pointer, items, pieces, p0, close, j)
    decreases items, 0
  {
    var start, end := PieceStart(pieces, p0, j), PieceEnd(pieces, p0, j);
    PieceFollowed(text, p0, pieces, j, CLOSE_BRACKET);
    ValueRead(text, start, end, pointer + [SLASH] + DecimalText(j), items[j], pieces[j]);
    assert SkipSpaces(text, end) == end;
  }

  /** A compact list body, followed by the closing bracket, is laid out
      for the array loop piece by piece. */
  lemma {:induction false} ItemsPlaced(text: Text, p0: nat, pointer: Text, items: seq<Value>, pieces: seq<Text>)
    requires |pieces| == |items|
    requires forall j :: 0 <= j < |items| ==> WellFormed(items[j]) && pieces[j] == Compact(ToNode(items[j]))
    requires var body := Joined(pieces, |pieces|);
      Holds(text, p0, body) && p0 + |body| < |text| && text[p0 + |body|] == CLOSE_BRACKET
    ensures ItemsInPlace(text, pointer, items, pieces, p0, p0 + |Joined(pieces, |pieces|)|)
    decreases items, 1
  {
    var close := p0 + |Joined(pieces, |pieces|)|;
    forall j | 0 <= j < |items| {
      ItemAt(text, p0, pointer, items, pieces, close, j);
    }
  }

  /** A non-empty compact list body, followed by its closing unit, is read
      by the array loop, from its start on, as the whole list. */
  lemma {:induction false} ItemsBodyRead(text: Text, p0: nat, pointer: Text, items: seq<Value>, pieces: seq<Text>)
    requires items != [] && |pieces| == |items|
    requires forall j :: 0 <= j < |items| ==> WellFormed(items[j]) && pieces[j] == Compact(ToNode(items[j]))
    requires var body := Joined(pieces, |pieces|);
      Holds(text, p0, body) && p0 + |body| < |text| && text[p0 + |body|] == CLOSE_BRACKET
    ensures ElementsAt(text, p0, pointer, []) == Scanned(List(items), p0 + |Joined(pieces, |pieces|)| + 1)
    decreases items, 2
  {
    ItemsPlaced(text, p0, pointer, items, pieces);
    ItemsInPlaceRead(text, pointer, items, pieces, p0, p0 + |Joined(pieces, |pieces|)|);
  }

  /** A list body whose items are each in place is read by the array
      loop, from its start on, as the whole list. */
  lemma {:induction false} ItemsInPlaceRead(text: Text, pointer: Text, items: seq<Value>, pieces: seq<Text>, p0: nat, close: nat)
    requires items != [] && p0 <= |text| && ItemsInPlace(text, pointer, items, pieces, p0, close)
    ensures ElementsAt(text, p0, pointer, []) == Scanned(List(items), close + 1)
  {
    ItemsSpanned(text, pointer, items, pieces, p0, close);
    ElementsFrom(text, pointer, items, PieceStarts(pieces, p0), PieceEnds(pieces, p0), close, 0);
    assert items[..0] == [];
  }

  /** A compact list is read back as the list. */
  lemma {:induction false} ListRead(text: Text, start: nat, end: nat, pointer: Text, items: seq<Value>, piece: Text)
    requires forall j :: 0 <= j < |items| ==> WellFormed(items[j])
    requires piece == Compact(ToNode(List(items)))
    requires end == start + |piece| && Holds(text, start, piece)
    ensures ValueAt(text, start, pointer) == Scanned(List(items), end)
    decreases items, 5
  {
    ListBody(items);
    Bracketed(text, start, piece, OPEN_BRACKET, Joined(ItemPieces(items), |items|), CLOSE_BRACKET);
    ItemsRead(text, start, pointer, items);
  }

  /** The same, once the brackets and the body between them are placed. */
  lemma {:induction false} ItemsRead(text: Text, start: nat, pointer: Text, items: seq<Value>)
    requires forall j :: 0 <= j < |items| ==> WellFormed(items[j])
    requires var body := Joined(ItemPieces(items), |items|);
      start + 1 + |body| < |text| && text[start] == OPEN_BRACKET
      && Holds(text, start + 1, body) && text[start + 1 + |body|] == CLOSE_BRACKET
    ensures ValueAt(text, start, pointer) == Scanned(List(items), start + 2 + |Joined(ItemPieces(items), |items|)|)
    decreases items, 4
  {
    if items == [] {
      EmptyArrayAt(text, start, pointer);
    } else {
      var pieces := ItemPieces(items);
      ListOpens(text, start, pointer, items, pieces);
      ItemsBodyRead(text, start + 1, pointer, items, pieces);
    }
  }

  /** A non-empty compact list opens the array loop at its first item. */
  lemma {:induction false} ListOpens(text: Text, start: nat, pointer: Text, items: seq<Value>, pieces: seq<Text>)
    requires items != [] && |pieces| == |items| && pieces[0] == Compact(ToNode(items[0])) && WellFormed(items[0])
    requires var body := Joined(pieces, |items|);
      start + 1 + |body| < |text| && text[start] == OPEN_BRACKET
      && Holds(text, start + 1, body) && text[start + 1 + |body|] == CLOSE_BRACKET
    ensures ValueAt(text, start, pointer) == ElementsAt(text, start + 1, pointer, [])
  {
    PieceFollowed(text, start + 1, pieces, 0, CLOSE_BRACKET);
    CompactOpens(items[0]);
    assert text[start + 1] == Piece(pieces[0], 0);
    ArrayOpensAt(text, start, pointer);
  }

  /** The opening unit, body and closing unit of a container, where they
      stand. */
  lemma {:induction false} Bracketed(text: Text, pos: nat, c: Text, open: CodeUnit, body: Text, close: CodeUnit)
    requires c == [open] + body + [close]
    requires Holds(text, pos, c)
    ensures pos + 1 + |body| < |text| && text[pos] == open && Holds(text, pos + 1, body) && text[pos + 1 + |body|] == close
    ensures !IsSpaceCharacter(open) ==> SkipSpaces(text, pos) == pos
  {
    HoldsConcat(text, pos, [open] + body, [close]);
    HoldsConcat(text, pos, [open], body);
    assert text[pos] == Piece([open], 0);
    assert text[pos + 1 + |body|] == Piece([close], 0);
  }

  /** One member written at `pos` is read back, its key being new. */
  lemma {:induction false} MemberRead(text: Text, pos: nat, end: nat, pointer: Text, members: seq<Member>, m: Member, piece: Text)
    requires WellFormed(m.value) && m.key !in Keys(members) && piece == EntryText(m)
    requires end == pos + |piece| && Holds(text, pos, piece) && end < |text| && !ContinuesNumber(text[end])
    ensures MemberAt(text, pos, pointer, members) == Scanned(m, end)
    decreases m.value, 5
  {
    KeyAndValueRead(text, pos, end, pointer, m, piece);
    MemberParts(text, pos, pointer, members, m.key, pos + |Quoted(m.key)|, m.value, end);
  }

  /** The key, colon and value of one entry, where they stand, are read
      back one by one. */
  lemma {:induction false} KeyAndValueRead(text: Text, pos: nat, end: nat, pointer: Text, m: Member, piece: Text)
    requires WellFormed(m.value) && piece == EntryText(m)
    requires end == pos + |piece| && Holds(text, pos, piece) && end < |text| && !ContinuesNumber(text[end])
    ensures var colon := pos + |Quoted(m.key)|;
      pos < colon < end && text[pos] == QUOTE && text[colon] == COLON
      && StringAt(text, pos + 1, pointer, []) == Scanned(m.key, colon)
      && ValueAt(text, colon + 1, pointer + [SLASH] + m.key) == Scanned(m.value, end)
    decreases m.value, 4
  {
    var q := Quoted(m.key);
    var c := Compact(ToNode(m.value));
    assert piece == q + [COLON] + c;
    EntrySplit(text, pos, end, q, c);
    QuotedDecodes(text, pos, pointer, m.key);
    ValueRead(text, pos + |q| + 1, end, pointer + [SLASH] + m.key, m.value, c);
  }

  /** `key:value` standing between `pos` and `end`, split at the colon. */
  lemma {:induction false} EntrySplit(text: Text, pos: nat, end: nat, q: Text, c: Text)
    requires end == pos + |q| + 1 + |c| && Holds(text, pos, q + [COLON] + c)
    ensures pos + |q| < end && Holds(text, pos, q) && text[pos + |q|] == COLON
    ensures Holds(text, pos + |q| + 1, c)
  {
    HoldsConcat(text, pos, q + [COLON], c);
    HoldsConcat(text, pos, q, [COLON]);
    assert text[pos + |q|] == Piece([COLON], 0);
  }

  /** Member `k` of a map with distinct keys has a key none before it has. */
  lemma {:induction false} KeyIsNew(members: seq<Member>, k: nat)
    requires k < |members| && DistinctKeys(members)
    ensures members[k].key !in Keys(members[..k])
  {
    var keys := Keys(members[..k]);
    forall j | 0 <= j < k
      ensures keys[j] != members[k].key
    {
      assert keys[j] == members[j].key;
    }
  }

  /** Member `j` of a map body in place: it is read, after the members
      before it, from where piece `j` starts to where it ends, and a comma
      follows it or, after the last, the closing brace at `close`. */
  ghost predicate MemberInPlace(text: Text, pointer: Text, members: seq<Member>, pieces: seq<Text>, p0: nat, close: nat, j: nat)
  {
    j < |members| && j < |pieces| && PieceStart(pieces, p0, j) <= |text|
    && MemberAt(text, PieceStart(pieces, p0, j), pointer, members[..j]) == Scanned(members[j], PieceEnd(pieces, p0, j))
    && FollowedBy(text, PieceEnd(pieces, p0, j), j + 1 < |members|, close, CLOSE_BRACE)
  }

  /** Each member of a map body in place. */
  ghost predicate MembersInPlace(text: Text, pointer: Text, members: seq<Member>, pieces: seq<Text>, p0: nat, close: nat)
  {
    |pieces| == |members| && forall j :: 0 <= j < |members| ==> MemberInPlace(text, pointer, members, pieces, p0, close, j)
  }

  /** The object loop's view of a map body: member `j` is read from
      `starts[j]` to `ends[j]`, a comma follows every member but the last,
      the closing brace, at `close`, follows the last, and each member
      after the first starts just after the comma. */
  ghost predicate MembersLaidOut(text: Text, pointer: Text, members: seq<Member>, starts: seq<nat>, ends: seq<nat>, close: nat)
  {
    |starts| == |ends| == |members|
    && (forall j {:trigger starts[j]} :: 0 <= j < |members| ==>
          starts[j] <= |text|
          && MemberAt(text, starts[j], pointer, members[..j]) == Scanned(members[j], ends[j])
          && FollowedBy(text, ends[j], j + 1 < |members|, close, CLOSE_BRACE))
    && (forall j {:trigger starts[j]} :: 0 < j < |members| ==> starts[j] == ends[j - 1] + 1)
  }

  /** From member `k` on, the object loop reads the rest of a laid-out map
      body and its closing brace. */
  lemma {:induction false} MembersFrom(text: Text, pointer: Text, members: seq<Member>, starts: seq<nat>, ends: seq<nat>, close: nat, k: nat)
    requires k < |members| && MembersLaidOut(text, pointer, members, starts, ends, close)
    ensures MembersAt(text, starts[k], pointer, members[..k]) == Scanned(Map(members), close + 1)
    decreases |members| - k
  {
    PrefixGrows(members, k);
    if k + 1 < |members| {
      MemberThenComma(text, starts[k], pointer, members[..k], members[k], ends[k], members[..k + 1]);
      MembersFrom(text, pointer, members, starts, ends, close, k + 1);
    } else {
      MemberThenClose(text, starts[k], pointer, members[..k], members[k], ends[k], close);
    }
  }

  /** The same facts, as the object loop's view. */
  lemma {:induction false} MembersSpanned(text: Text, pointer: Text, members: seq<Member>, pieces: seq<Text>, p0: nat, close: nat)
    requires MembersInPlace(text, pointer, members, pieces, p0, close)
    ensures MembersLaidOut(text, pointer, members, PieceStarts(pieces, p0), PieceEnds(pieces, p0), close)
  {
    var starts, ends := PieceStarts(pieces, p0), PieceEnds(pieces, p0);
    forall j | 0 <= j < |members|
      ensures starts[j] == PieceStart(pieces, p0, j) && ends[j] == PieceEnd(pieces, p0, j)
      ensures MemberInPlace(text, pointer, members, pieces, p0, close, j)
    {
    }
  }

  /** Entry `j` of a compact map body, where it stands, is read back, its
      key being new. */
  lemma {:induction false} EntryAt(text: Text, p0: nat, pointer: Text, members: seq<Member>, pieces: seq<Text>, close: nat, j: nat)
    requires j < |members| == |pieces| && WellFormed(members[j].value) && members[j].key !in Keys(members[..j])
    requires pieces[j] == EntryText(members[j])
    requires var body := Joined(pieces, |pieces|);
      Holds(text, p0, body) && p0 + |body| < |text| && text[p0 + |body|] == CLOSE_BRACE
    requires close == p0 + |Joined(pieces, |pieces|)|
    ensures MemberInPlace(text, pointer, members, pieces, p0, close, j)
    decreases members, 0
  {
    var start, end := PieceStart(pieces, p0, j), PieceEnd(pieces, p0, j);
    PieceFollowed(text, p0, pieces, j, CLOSE_BRACE);
    MemberRead(text, start, end, pointer, members[..j], members[j], pieces[j]);
    assert SkipSpaces(text, end) == end;
  }

  /** Every key of a map with distinct keys is new to the members before
      it. */
  lemma {:induction false} KeysNew(members: seq<Member>)
    requires DistinctKeys(members)
    ensures forall j :: 0 <= j < |members| ==> members[j].key !in Keys(members[..j])
  {
    forall j | 0 <= j < |members|
      ensures members[j].key !in Keys(members[..j])
    {
      KeyIsNew(members, j);
    }
  }

  /** The members of a well-formed map meet what the object loop needs of
      them, one after the other. */
  lemma {:induction false} MembersReady(members: seq<Member>)
    requires WellFormedMembers(members)
    ensures forall j :: 0 <= j < |members| ==>
      WellFormed(members[j].value) && members[j].key !in Keys(members[..j]) && MemberPieces(members)[j] == EntryText(members[j])
  {
    KeysNew(members);
  }

  /** A compact map body whose keys are new one after the other, followed
      by the closing brace, is laid out for the object loop piece by
      piece. */
  lemma {:induction false} MembersPlaced(text: Text, p0: nat, pointer: Text, members: seq<Member>, pieces: seq<Text>)
    requires |pieces| == |members|
    requires forall j :: 0 <= j < |members| ==>
      WellFormed(members[j].value) && members[j].key !in Keys(members[..j]) && pieces[j] == EntryText(members[j])
    requires var body := Joined(pieces, |pieces|);
      Holds(text, p0, body) && p0 + |body| < |text| && text[p0 + |body|] == CLOSE_BRACE
    ensures MembersInPlace(text, pointer, members, pieces, p0, p0 + |Joined(pieces, |pieces|)|)
    decreases members, 1
  {
    var close := p0 + |Joined(pieces, |pieces|)|;
    forall j | 0 <= j < |members| {
      EntryAt(text, p0, pointer, members, pieces, close, j);
    }
  }

  /** A non-empty compact map body with distinct keys, followed by its
      closing unit, is read by the object loop, from its start on, as the
      whole map. */
  lemma {:induction false} MembersBodyRead(text: Text, p0: nat, pointer: Text, members: seq<Member>, pieces: seq<Text>)
    requires members != [] && WellFormedMembers(members) && pieces == MemberPieces(members)
    requires var body := Joined(pieces, |members|);
      Holds(text, p0, body) && p0 + |body| < |text| && text[p0 + |body|] == CLOSE_BRACE
    ensures MembersAt(text, p0, pointer, []) == Scanned(Map(members), p0 + |Joined(pieces, |members|)| + 1)
    decreases members, 2
  {
    MembersReady(members);
    MembersPlaced(text, p0, pointer, members, pieces);
    MembersInPlaceRead(text, pointer, members, pieces, p0, p0 + |Joined(pieces, |pieces|)|);
  }

  /** A map body whose members are each in place is read by the object
      loop, from its start on, as the whole map. */
  lemma {:induction false} MembersInPlaceRead(text: Text, pointer: Text, members: seq<Member>, pieces: seq<Text>, p0: nat, close: nat)
    requires members != [] && p0 <= |text| && MembersInPlace(text, pointer, members, pieces, p0, close)
    ensures MembersAt(text, p0, pointer, []) == Scanned(Map(members), close + 1)
  {
    MembersSpanned(text, pointer, members, pieces, p0, close);
    MembersFrom(text, pointer, members, PieceStarts(pieces, p0), PieceEnds(pieces, p0), close, 0);
    assert members[..0] == [];
  }

  /** A compact map is read back as the map. */
  lemma {:induction false} MapRead(text: Text, start: nat, end: nat, pointer: Text, members: seq<Member>, piece: Text)
    requires WellFormedMembers(members)
    requires piece == Compact(ToNode(Map(members)))
    requires end == start + |piece| && Holds(text, start, piece)
    ensures ValueAt(text, start, pointer) == Scanned(Map(members), end)
    decreases members, 5
  {
    MapBody(members);
    Bracketed(text, start, piece, OPEN_BRACE, Joined(MemberPieces(members), |members|), CLOSE_BRACE);
    MembersRead(text, start, pointer, members);
  }

  /** The same, once the brackets and the body between them are placed. */
  lemma {:induction false} MembersRead(text: Text, start: nat, pointer: Text, members: seq<Member>)
    requires WellFormedMembers(members)
    requires var body := Joined(MemberPieces(members), |members|);
      start + 1 + |body| < |text| && text[start] == OPEN_BRACE
      && Holds(text, start + 1, body) && text[start + 1 + |body|] == CLOSE_BRACE
    ensures ValueAt(text, start, pointer) == Scanned(Map(members), start + 2 + |Joined(MemberPieces(members), |members|)|)
    decreases members, 4
  {
    if members == [] {
      EmptyObjectAt(text, start, pointer);
    } else {
      var pieces := MemberPieces(members);
      MapOpens(text, start, pointer, members, pieces);
      MembersBodyRead(text, start + 1, pointer, members, pieces);
    }
  }

  /** A non-empty compact map opens the object loop at its first key. */
  lemma {:induction false} MapOpens(text: Text, start: nat, pointer: Text, members: seq<Member>, pieces: seq<Text>)
    requires members != [] && |pieces| == |members| && pieces[0] == EntryText(members[0])
    requires var body := Joined(pieces, |members|);
      start + 1 + |body| < |text| && text[start] == OPEN_BRACE
      && Holds(text, start + 1, body) && text[start + 1 + |body|] == CLOSE_BRACE
    ensures ValueAt(text, start, pointer) == MembersAt(text, start + 1, pointer, [])
  {
    PieceFollowed(text, start + 1, pieces, 0, CLOSE_BRACE);
    EntryOpens(members[0]);
    assert text[start + 1] == Piece(pieces[0], 0);
    ObjectOpensAt(text, start, pointer);
  }

  // ---------------------------------------------------------------------
  // Whole documents
  // ---------------------------------------------------------------------

  /** `parse(outputTo(v)) == v` for every value the parser can return. */
  lemma {:induction false} CompactRoundTrip(v: Value)
    requires WellFormed(v)
    ensures Document(Compact(ToNode(v))) == Success(v)
  {
    var t := Compact(ToNode(v));
    HoldsWhole(t);
    ValueRead(t, 0, |t|, ROOT_POINTER, v, t);
  }

  /** Compact output is a fixed point of parsing and formatting again. */
  lemma {:induction false} CompactIdempotent(json: Text)
    requires Document(json).Success?
    ensures var once := Compact(ToNode(Document(json).value));
      Document(once).Success? && Compact(ToNode(Document(once).value)) == once
  {
    DocumentWellFormed(json);
    CompactRoundTrip(Document(json).value);
  }
}
