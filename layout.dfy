/** The text the two formatters produce, as functions of what they are given.
 *
 *  The formatters take any Java object and dispatch on its runtime class;
 *  `Node` closes that dispatch into one constructor per branch the source
 *  tells apart.  `Compact` is the layout of `outputTo`, `Indented` the
 *  layout of `formatTo`, and `Quoted` the output of `appendString`.
 */
module Layout {
  import opened CodeUnits
  import opened JsonValue

  /** What a formatter is handed, by the branch that prints it. */
  datatype Node =
    | NullNode
    | MapNode(entries: seq<Entry>)
    | CollectionNode(items: seq<Node>)
    | ArrayNode(elements: seq<Node>)
    | IntNode(i: Int32)
    | LongNode(l: Int64)
    | NumberNode(text: Text)
    | CharsNode(chars: Text)
    | OtherNode(text: Text)

  /** A map entry: the text of its key's `toString()`, and its value. */
  datatype Entry = Entry(key: Text, value: Node)

  /** The objects `appendPrimitive` prints: numbers (by their `toString()`
      unless they are an `Integer` or a `Long`), character sequences, and
      anything else (by its `toString()`). */
  predicate IsPrimitive(v: Node)
  {
    v.IntNode? || v.LongNode? || v.NumberNode? || v.CharsNode? || v.OtherNode?
  }

  /** `count` spaces, and none for a count that is not positive. */
  function Spaces(count: int): (s: Text)
    ensures |s| == if count > 0 then count else 0
    ensures forall k :: 0 <= k < |s| ==> s[k] == SPACE
    decreases if count > 0 then count else 0
  {
    if count <= 0 then [] else Spaces(count - 1) + [SPACE]
  }

  /** The upper-case hexadecimal digit for a value below 16. */
  function HexDigit(d: nat): (ch: CodeUnit)
    requires d < 16
    ensures 0x30 <= ch <= 0x39 || 0x41 <= ch <= 0x46
  {
    if d < 10 then 0x30 + d else 0x37 + d
  }

  /** The digits of `\uXXXX` for a code unit, most significant first. */
  function HexEscapeDigits(ch: CodeUnit): Text
  {
    [HexDigit(ch / 0x1000 % 0x10), HexDigit(ch / 0x100 % 0x10), HexDigit(ch / 0x10 % 0x10), HexDigit(ch % 0x10)]
  }

  /** What one code unit of a string becomes inside the quotes. */
  function EscapeUnit(ch: CodeUnit): Text
  {
    if ch == QUOTE || ch == BACKSLASH then [BACKSLASH, ch]
    else if ch == BACKSPACE then [BACKSLASH, LOWER_B]
    else if ch == FORM_FEED then [BACKSLASH, LOWER_F]
    else if ch == LF then [BACKSLASH, LOWER_N]
    else if ch == CR then [BACKSLASH, LOWER_R]
    else if ch == TAB then [BACKSLASH, LOWER_T]
    else if ch < 0x20 || ch >= 0x7F then [BACKSLASH, LOWER_U] + HexEscapeDigits(ch)
    else [ch]
  }

  /** The escaped form of a whole string, unit by unit. */
  function Escaped(s: Text): Text
  {
    if s == [] then [] else EscapeUnit(s[0]) + Escaped(s[1..])
  }

  /** Escaping one more unit at the end extends the escape by that unit's. */
  lemma {:induction false} EscapedSnoc(s: Text, ch: CodeUnit)
    ensures Escaped(s + [ch]) == Escaped(s) + EscapeUnit(ch)
    decreases |s|
  {
    if s == [] {
      assert [] + [ch] == [ch];
      assert [ch][1..] == [];
    } else {
      assert (s + [ch])[1..] == s[1..] + [ch];
      EscapedSnoc(s[1..], ch);
    }
  }

  /** A string in JSON quoted form. */
  function Quoted(s: Text): Text
  {
    [QUOTE] + Escaped(s) + [QUOTE]
  }

  /** Space to tilde: the code units that are printable ASCII. */
  predicate IsPrintableAscii(ch: CodeUnit)
  {
    0x20 <= ch <= 0x7E
  }

  /** The escape of any one unit is made of printable ASCII only. */
  lemma {:induction false} EscapeUnitPrintable(ch: CodeUnit)
    ensures forall k :: 0 <= k < |EscapeUnit(ch)| ==> IsPrintableAscii(EscapeUnit(ch)[k])
  {
    if !(ch == QUOTE || ch == BACKSLASH || ch == BACKSPACE || ch == FORM_FEED || ch == LF || ch == CR || ch == TAB)
       && (ch < 0x20 || ch >= 0x7F) {
      var digits := HexEscapeDigits(ch);
      assert EscapeUnit(ch) == [BACKSLASH, LOWER_U] + digits;
      assert forall k :: 0 <= k < 4 ==> IsPrintableAscii(digits[k]);
    }
  }

  /** Whatever a string holds, its escaped form is printable ASCII only. */
  lemma {:induction false} EscapedPrintable(s: Text)
    ensures forall k :: 0 <= k < |Escaped(s)| ==> IsPrintableAscii(Escaped(s)[k])
    decreases |s|
  {
    if s != [] {
      var first, rest := EscapeUnit(s[0]), Escaped(s[1..]);
      EscapeUnitPrintable(s[0]);
      EscapedPrintable(s[1..]);
      forall k | 0 <= k < |Escaped(s)|
        ensures IsPrintableAscii(Escaped(s)[k])
      {
        if k < |first| {
          assert Escaped(s)[k] == first[k];
        } else {
          assert Escaped(s)[k] == rest[k - |first|];
        }
      }
    }
  }

  /** `appendString` writes printable ASCII only, quotes included. */
  lemma {:induction false} QuotedPrintable(s: Text)
    ensures forall k :: 0 <= k < |Quoted(s)| ==> IsPrintableAscii(Quoted(s)[k])
  {
    EscapedPrintable(s);
    forall k | 0 <= k < |Quoted(s)|
      ensures IsPrintableAscii(Quoted(s)[k])
    {
      if 0 < k < |Quoted(s)| - 1 {
        assert Quoted(s)[k] == Escaped(s)[k - 1];
      }
    }
  }

  /** `appendPrimitive`: an `Integer` or `Long` in standard decimal form,
      another number as its `toString()`, a character sequence quoted, and
      anything else bare when its text is `true` or `false`, quoted
      otherwise. */
  function PrimitiveText(v: Node): Text
    requires IsPrimitive(v)
  {
    match v
    case IntNode(i) => SignedDecimalText(i)
    case LongNode(l) => SignedDecimalText(l)
    case NumberNode(text) => text
    case CharsNode(chars) => Quoted(chars)
    case OtherNode(text) => if text == TRUE || text == FALSE then text else Quoted(text)
  }

  // ---------------------------------------------------------------------
  // outputTo: no whitespace at all
  // ---------------------------------------------------------------------

  function Compact(v: Node): Text
    decreases v, 1
  {
    match v
    case NullNode => NULL
    case MapNode(entries) => [OPEN_BRACE] + CompactMembers(entries, |entries|) + [CLOSE_BRACE]
    case CollectionNode(items) => [OPEN_BRACKET] + CompactItems(items, |items|) + [CLOSE_BRACKET]
    case ArrayNode(elements) => [OPEN_BRACKET] + CompactItems(elements, |elements|) + [CLOSE_BRACKET]
    case _ => PrimitiveText(v)
  }

  /** One entry: `"key":value`. */
  function CompactEntry(entry: Entry): Text
    decreases entry, 0
  {
    Quoted(entry.key) + [COLON] + Compact(entry.value)
  }

  /** The first `n` entries separated by commas. */
  function CompactMembers(entries: seq<Entry>, n: nat): Text
    requires n <= |entries|
    decreases entries, n
  {
    if n == 0 then []
    else if n == 1 then CompactEntry(entries[0])
    else CompactMembers(entries, n - 1) + [COMMA] + CompactEntry(entries[n - 1])
  }

  /** The first `n` items, separated by commas. */
  function CompactItems(items: seq<Node>, n: nat): Text
    requires n <= |items|
    decreases items, n
  {
    if n == 0 then []
    else if n == 1 then Compact(items[0])
    else CompactItems(items, n - 1) + [COMMA] + Compact(items[n - 1])
  }

  // ---------------------------------------------------------------------
  // formatTo: one member per line
  // ---------------------------------------------------------------------

  /** `v` laid out with `indent` more spaces per level, lines separated by
      `ls`, the current line being indented by `current` spaces. */
  function Indented(v: Node, indent: nat, ls: Text, current: int): Text
    decreases v, 1
  {
    match v
    case NullNode => NULL
    case MapNode(entries) =>
      if |entries| == 0 then [OPEN_BRACE, CLOSE_BRACE]
      else
        [OPEN_BRACE] + ls + IndentedMembers(entries, |entries|, indent, ls, current + indent)
        + ls + Spaces(current) + [CLOSE_BRACE]
    case CollectionNode(items) =>
      if |items| == 0 then [OPEN_BRACKET, CLOSE_BRACKET]
      else
        [OPEN_BRACKET] + ls + IndentedItems(items, |items|, indent, ls, current + indent)
        + ls + Spaces(current) + [CLOSE_BRACKET]
    case ArrayNode(elements) =>
      if |elements| == 0 then [OPEN_BRACKET, CLOSE_BRACKET]
      else
        [OPEN_BRACKET] + ls + IndentedItems(elements, |elements|, indent, ls, current + indent)
        + ls + Spaces(current) + [CLOSE_BRACKET]
    case _ => PrimitiveText(v)
  }

  /** One entry on its own line, indented by `inner`: `"key": value`. */
  function IndentedMember(entry: Entry, indent: nat, ls: Text, inner: int): Text
    decreases entry, 0
  {
    Spaces(inner) + Quoted(entry.key) + [COLON, SPACE] + Indented(entry.value, indent, ls, inner)
  }

  /** The first `n` entries, each on its own line, separated by `,` and a
      line separator. */
  function IndentedMembers(entries: seq<Entry>, n: nat, indent: nat, ls: Text, inner: int): Text
    requires n <= |entries|
    decreases entries, n
  {
    if n == 0 then []
    else
      (if n == 1 then [] else IndentedMembers(entries, n - 1, indent, ls, inner) + [COMMA] + ls)
      + IndentedMember(entries[n - 1], indent, ls, inner)
  }

  /** One item on its own line, indented by `inner`. */
  function IndentedItem(item: Node, indent: nat, ls: Text, inner: int): Text
    decreases item, 2
  {
    Spaces(inner) + Indented(item, indent, ls, inner)
  }

  /** The first `n` items, each on its own line, separated by `,` and a
      line separator. */
  function IndentedItems(items: seq<Node>, n: nat, indent: nat, ls: Text, inner: int): Text
    requires n <= |items|
    decreases items, n
  {
    if n == 0 then []
    else
      (if n == 1 then [] else IndentedItems(items, n - 1, indent, ls, inner) + [COMMA] + ls)
      + IndentedItem(items[n - 1], indent, ls, inner)
  }
}
