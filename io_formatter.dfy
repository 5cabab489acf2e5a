/** The formatter of the `io.jstuff` package.  Its `formatTo` loops write
 *  the line separator before each member instead of after each comma; each
 *  routine is proved to append the same layout as the `net.pwall` one.
 *  Its `outputTo` and `appendPrimitive` are the `net.pwall` ones line for
 *  line, and its string and integer emitters are taken to be the
 *  `net.pwall` ones, so those are used from `NetFormatter`.
 */
module IoFormatter {
  import opened CodeUnits
  import opened Layout
  import opened Appendables
  import opened Formatters
  import NetFormatter

  /** `formatTo(a, value, currentIndent)`. */
  method FormatTo(f: Formatter, a: Appendable, v: Node, currentIndent: int)
    modifies a
    ensures a.contents == old(a.contents) + Indented(v, f.indent, f.lineSeparator, currentIndent)
    decreases v, 2
  {
    match v {
      case NullNode => a.Append(NULL);
      case MapNode(entries) => FormatMap(f, a, entries, currentIndent);
      case CollectionNode(items) => FormatCollection(f, a, items, currentIndent);
      case ArrayNode(elements) => FormatArray(f, a, elements, currentIndent);
      case _ => NetFormatter.AppendPrimitive(a, v);
    }
  }

  /** The map branch: `{`, the entries each after a line separator, and,
      unless the map is empty, a line separator and the closing line's
      indent; then `}`. */
  method FormatMap(f: Formatter, a: Appendable, entries: seq<Entry>, currentIndent: int)
    modifies a
    ensures a.contents == old(a.contents) + Indented(MapNode(entries), f.indent, f.lineSeparator, currentIndent)
    decreases entries, 1
  {
    a.Append([OPEN_BRACE]);
    if |entries| > 0 {
      FormatEntries(f, a, entries, currentIndent);
      AppendLineSeparator(f, a);
      AppendSpaces(a, currentIndent);
    }
    a.Append([CLOSE_BRACE]);
    LeadingSeparatorBlock(old(a.contents), OPEN_BRACE, f.lineSeparator,
      IndentedMembers(entries, |entries|, f.indent, f.lineSeparator, currentIndent + f.indent),
      Spaces(currentIndent), CLOSE_BRACE);
  }

  /** The `Collection` branch, laid out like the map branch with `[` and `]`. */
  method FormatCollection(f: Formatter, a: Appendable, items: seq<Node>, currentIndent: int)
    modifies a
    ensures a.contents == old(a.contents) + Indented(CollectionNode(items), f.indent, f.lineSeparator, currentIndent)
    decreases items, 1
  {
    a.Append([OPEN_BRACKET]);
    if |items| > 0 {
      FormatCollectionItems(f, a, items, currentIndent);
      AppendLineSeparator(f, a);
      AppendSpaces(a, currentIndent);
    }
    a.Append([CLOSE_BRACKET]);
    LeadingSeparatorBlock(old(a.contents), OPEN_BRACKET, f.lineSeparator,
      IndentedItems(items, |items|, f.indent, f.lineSeparator, currentIndent + f.indent),
      Spaces(currentIndent), CLOSE_BRACKET);
  }

  /** The `Object[]` branch: the same layout as the `Collection` branch. */
  method FormatArray(f: Formatter, a: Appendable, elements: seq<Node>, currentIndent: int)
    modifies a
    ensures a.contents == old(a.contents) + Indented(ArrayNode(elements), f.indent, f.lineSeparator, currentIndent)
    decreases elements, 1
  {
    a.Append([OPEN_BRACKET]);
    var n := |elements|;
    if n > 0 {
      FormatArrayElements(f, a, elements, currentIndent);
      AppendLineSeparator(f, a);
      AppendSpaces(a, currentIndent);
    }
    a.Append([CLOSE_BRACKET]);
    LeadingSeparatorBlock(old(a.contents), OPEN_BRACKET, f.lineSeparator,
      IndentedItems(elements, |elements|, f.indent, f.lineSeparator, currentIndent + f.indent),
      Spaces(currentIndent), CLOSE_BRACKET);
  }

  /** The entry loop: a line separator, the indent and `"key": value` for
      each entry, and a comma after every entry but the last. */
  method FormatEntries(f: Formatter, a: Appendable, entries: seq<Entry>, currentIndent: int)
    requires |entries| > 0
    modifies a
    ensures a.contents == old(a.contents)
      + (f.lineSeparator + IndentedMembers(entries, |entries|, f.indent, f.lineSeparator, currentIndent + f.indent))
    decreases entries, 0
  {
    var i := 0;
    var indented := currentIndent + f.indent;
    ghost var lead: Text := [];
    while true
      invariant 0 <= i < |entries|
      invariant a.contents == old(a.contents) + lead
      invariant i == 0 ==> lead == []
      invariant i > 0 ==> lead == f.lineSeparator + IndentedMembers(entries, i, f.indent, f.lineSeparator, indented) + [COMMA]
      decreases |entries| - i
    {
      ghost var done := a.contents;
      AppendLineSeparator(f, a);
      var entry := entries[i];
      i := i + 1;
      AppendSpaces(a, indented);
      NetFormatter.AppendString(a, entry.key);
      a.Append([COLON]);
      a.Append([SPACE]);
      FormatTo(f, a, entry.value, indented);
      ghost var member := IndentedMember(entry, f.indent, f.lineSeparator, indented);
      SeparatedMemberAppended(done, f.lineSeparator, Spaces(indented), Quoted(entry.key),
        Indented(entry.value, f.indent, f.lineSeparator, indented));
      assert a.contents == done + (f.lineSeparator + member);
      ghost var members := IndentedMembers(entries, i, f.indent, f.lineSeparator, indented);
      if i == 1 {
        assert members == member;
      } else {
        ghost var previous := IndentedMembers(entries, i - 1, f.indent, f.lineSeparator, indented);
        assert members == previous + [COMMA] + f.lineSeparator + member;
        LeadExtended(f.lineSeparator, previous, member);
      }
      NetFormatter.Associative(old(a.contents), lead, f.lineSeparator + member);
      assert a.contents == old(a.contents) + (f.lineSeparator + members);
      if i == |entries| {
        break;
      }
      a.Append([COMMA]);
      NetFormatter.Associative(old(a.contents), f.lineSeparator + members, [COMMA]);
      lead := f.lineSeparator + members + [COMMA];
    }
  }

  /** The item loop of the `Collection` branch, walking an iterator (the
      items it has still to return). */
  method FormatCollectionItems(f: Formatter, a: Appendable, items: seq<Node>, currentIndent: int)
    requires |items| > 0
    modifies a
    ensures a.contents == old(a.contents)
      + (f.lineSeparator + IndentedItems(items, |items|, f.indent, f.lineSeparator, currentIndent + f.indent))
    decreases items, 0
  {
    var remaining := items;
    var indented := currentIndent + f.indent;
    ghost var lead: Text := [];
    while true
      invariant 0 < |remaining| <= |items| && remaining == items[|items| - |remaining|..]
      invariant a.contents == old(a.contents) + lead
      invariant |remaining| == |items| ==> lead == []
      invariant |remaining| < |items| ==>
        lead == f.lineSeparator + IndentedItems(items, |items| - |remaining|, f.indent, f.lineSeparator, indented) + [COMMA]
      decreases |remaining|
    {
      ghost var done := a.contents;
      AppendLineSeparator(f, a);
      AppendSpaces(a, indented);
      var next := remaining[0];
      assert next == items[|items| - |remaining|];
      remaining := remaining[1..];
      FormatTo(f, a, next, indented);
      ghost var item := IndentedItem(next, f.indent, f.lineSeparator, indented);
      SeparatedItemAppended(done, f.lineSeparator, Spaces(indented), Indented(next, f.indent, f.lineSeparator, indented));
      ghost var k := |items| - |remaining|;
      ghost var written := IndentedItems(items, k, f.indent, f.lineSeparator, indented);
      if k > 1 {
        LeadExtended(f.lineSeparator, IndentedItems(items, k - 1, f.indent, f.lineSeparator, indented), item);
      }
      NetFormatter.Associative(old(a.contents), lead, f.lineSeparator + item);
      assert a.contents == old(a.contents) + (f.lineSeparator + written);
      if remaining == [] {
        break;
      }
      a.Append([COMMA]);
      NetFormatter.Associative(old(a.contents), f.lineSeparator + written, [COMMA]);
      lead := f.lineSeparator + written + [COMMA];
    }
  }

  /** The element loop of the `Object[]` branch, by index. */
  method FormatArrayElements(f: Formatter, a: Appendable, elements: seq<Node>, currentIndent: int)
    requires |elements| > 0
    modifies a
    ensures a.contents == old(a.contents)
      + (f.lineSeparator + IndentedItems(elements, |elements|, f.indent, f.lineSeparator, currentIndent + f.indent))
    decreases elements, 0
  {
    var n := |elements|;
    var i := 0;
    var indented := currentIndent + f.indent;
    ghost var lead: Text := [];
    while true
      invariant 0 <= i < n
      invariant a.contents == old(a.contents) + lead
      invariant i == 0 ==> lead == []
      invariant i > 0 ==> lead == f.lineSeparator + IndentedItems(elements, i, f.indent, f.lineSeparator, indented) + [COMMA]
      decreases n - i
    {
      ghost var done := a.contents;
      AppendLineSeparator(f, a);
      AppendSpaces(a, indented);
      var element := elements[i];
      i := i + 1;
      FormatTo(f, a, element, indented);
      ghost var item := IndentedItem(element, f.indent, f.lineSeparator, indented);
      SeparatedItemAppended(done, f.lineSeparator, Spaces(indented), Indented(element, f.indent, f.lineSeparator, indented));
      ghost var written := IndentedItems(elements, i, f.indent, f.lineSeparator, indented);
      if i > 1 {
        LeadExtended(f.lineSeparator, IndentedItems(elements, i - 1, f.indent, f.lineSeparator, indented), item);
      }
      NetFormatter.Associative(old(a.contents), lead, f.lineSeparator + item);
      assert a.contents == old(a.contents) + (f.lineSeparator + written);
      if i >= n {
        assert i == |elements|;
        break;
      }
      a.Append([COMMA]);
      NetFormatter.Associative(old(a.contents), f.lineSeparator + written, [COMMA]);
      lead := f.lineSeparator + written + [COMMA];
    }
  }

  /** A line separator and the pieces of a map entry appended in turn. */
  lemma {:induction false} SeparatedMemberAppended(done: Text, ls: Text, spaces: Text, key: Text, value: Text)
    ensures done + ls + spaces + key + [COLON] + [SPACE] + value
      == done + (ls + (spaces + key + [COLON, SPACE] + value))
  {
  }

  /** A line separator, an indent and an item appended in turn. */
  lemma {:induction false} SeparatedItemAppended(done: Text, ls: Text, spaces: Text, item: Text)
    ensures done + ls + spaces + item == done + (ls + (spaces + item))
  {
  }

  /** Writing the separator before a member, after the comma, gives the
      same text as writing it after the comma. */
  lemma {:induction false} LeadExtended(ls: Text, previous: Text, member: Text)
    ensures ls + (previous + [COMMA] + ls + member) == ls + previous + [COMMA] + (ls + member)
  {
  }

  /** The pieces of a non-empty container, the opening separator written
      with the members. */
  lemma {:induction false} LeadingSeparatorBlock(done: Text, open: CodeUnit, ls: Text, body: Text, spaces: Text, close: CodeUnit)
    ensures done + [open] + (ls + body) + ls + spaces + [close] == done + ([open] + ls + body + ls + spaces + [close])
  {
  }
}
