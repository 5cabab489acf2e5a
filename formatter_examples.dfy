/** The layouts the formatter's own tests check, stated for any indent,
 *  line separator and starting indent.
 */
module FormatterExamples {
  import opened Wrappers
  import opened CodeUnits
  import opened Layout
  import opened Formatters

  /** The list of the indent and separator tests. */
  const FOUR_NUMBERS: seq<Node> := [IntNode(123), IntNode(456), IntNode(789), IntNode(222)]

  /** The decimal texts of the four numbers. */
  lemma {:induction false} ThreeDigitTexts()
    ensures SignedDecimalText(123) == Lit("123") && SignedDecimalText(456) == Lit("456")
    ensures SignedDecimalText(789) == Lit("789") && SignedDecimalText(222) == Lit("222")
  {
    assert DecimalText(1) == Lit("1") && DecimalText(12) == Lit("12");
    assert DecimalText(4) == Lit("4") && DecimalText(45) == Lit("45");
    assert DecimalText(7) == Lit("7") && DecimalText(78) == Lit("78");
    assert DecimalText(2) == Lit("2") && DecimalText(22) == Lit("22");
  }

  /** A map of one entry: the brace, a line separator, the entry one
      indent further in, a line separator, the starting indent and the
      closing brace. */
  lemma {:induction false} OneEntryMap(key: Text, v: Node, indent: nat, ls: Text, current: int)
    ensures Indented(MapNode([Entry(key, v)]), indent, ls, current)
         == [OPEN_BRACE] + ls + (Spaces(current + indent) + Quoted(key) + [COLON, SPACE])
            + Indented(v, indent, ls, current + indent) + (ls + Spaces(current) + [CLOSE_BRACE])
  {
    var head := Spaces(current + indent) + Quoted(key) + [COLON, SPACE];
    var body := Indented(v, indent, ls, current + indent);
    assert IndentedMembers([Entry(key, v)], 1, indent, ls, current + indent) == [] + (head + body);
    assert [OPEN_BRACE] + ls + ([] + (head + body)) + ls + Spaces(current) + [CLOSE_BRACE]
        == [OPEN_BRACE] + ls + head + body + (ls + Spaces(current) + [CLOSE_BRACE]);
  }

  /** A map inside a map, as in the nested-objects test: each entry one
      indent further in than the map holding it, and each closing brace,
      on a line of its own, at the indent of its own map's entry. */
  lemma {:induction false} NestedMaps(outer: Text, inner: Text, v: Node, indent: nat, ls: Text, current: int)
    ensures Indented(MapNode([Entry(outer, MapNode([Entry(inner, v)]))]), indent, ls, current)
         == [OPEN_BRACE] + ls + (Spaces(current + indent) + Quoted(outer) + [COLON, SPACE])
            + ([OPEN_BRACE] + ls + (Spaces(current + 2 * indent) + Quoted(inner) + [COLON, SPACE])
               + Indented(v, indent, ls, current + 2 * indent) + (ls + Spaces(current + indent) + [CLOSE_BRACE]))
            + (ls + Spaces(current) + [CLOSE_BRACE])
  {
    OneEntryMap(outer, MapNode([Entry(inner, v)]), indent, ls, current);
    OneEntryMap(inner, v, indent, ls, current + indent);
    assert current + indent + indent == current + 2 * indent;
  }

  /** The four numbers come out one per line, each after `inner` spaces,
      the lines joined by a comma and the separator written verbatim: with
      indent 3 and `\n` this is the `123,` / `456,` / `789,` / `222` block
      of the test, shifted right by the starting indent. */
  lemma {:induction false} FourItems(indent: nat, ls: Text, inner: int)
    ensures IndentedItems(FOUR_NUMBERS, 4, indent, ls, inner)
         == Spaces(inner) + SignedDecimalText(123) + [COMMA] + ls
            + (Spaces(inner) + SignedDecimalText(456)) + [COMMA] + ls
            + (Spaces(inner) + SignedDecimalText(789)) + [COMMA] + ls
            + (Spaces(inner) + SignedDecimalText(222))
  {
    assert IndentedItems(FOUR_NUMBERS, 1, indent, ls, inner) == Spaces(inner) + SignedDecimalText(123);
  }

  /** An `Object[]` is laid out exactly as a collection holding the same
      elements, in both modes. */
  lemma {:induction false} ArrayLikeCollection(elements: seq<Node>, indent: nat, ls: Text, current: int)
    ensures Compact(ArrayNode(elements)) == Compact(CollectionNode(elements))
    ensures Indented(ArrayNode(elements), indent, ls, current) == Indented(CollectionNode(elements), indent, ls, current)
  {
  }

  /** A negative indent and a missing separator are both refused. */
  lemma {:induction false} RefusedArguments(systemLineSeparator: Text)
    ensures FormatterWithIndent(-1, systemLineSeparator) == Failure(IllegalArgument(INDENT_NEGATIVE))
    ensures FormatterWithLineSeparator(None) == Failure(IllegalArgument(SEPARATOR_NULL))
  {
  }
}
