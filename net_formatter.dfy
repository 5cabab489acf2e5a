/** The formatter of the `net.pwall` package: every routine appends to the
 *  sink, and each is proved to append exactly its layout function.
 */
module NetFormatter {
  import opened CodeUnits
  import opened JsonValue
  import opened Layout
  import opened Appendables
  import opened Formatters

  /** The two digit tables: the units digit and the tens digit of every
      number below 100. */
  const DIGITS: Text := seq(100, k requires 0 <= k < 100 => 0x30 + k % 10)
  const TENS_DIGITS: Text := seq(100, k requires 0 <= k < 100 => 0x30 + k / 10)

  /** The table of upper-case hexadecimal digits. */
  const HEX_DIGITS: Text := [0x30, 0x31, 0x32, 0x33, 0x34, 0x35, 0x36, 0x37, 0x38, 0x39,
                             0x41, 0x42, 0x43, 0x44, 0x45, 0x46]

  /** `-2147483648` and `-9223372036854775808`. */
  const INT_MIN_TEXT: Text := [MINUS, 0x32, 0x31, 0x34, 0x37, 0x34, 0x38, 0x33, 0x36, 0x34, 0x38]
  const LONG_MIN_TEXT: Text := [MINUS, 0x39, 0x32, 0x32, 0x33, 0x33, 0x37, 0x32, 0x30, 0x33, 0x36,
                                0x38, 0x35, 0x34, 0x37, 0x37, 0x35, 0x38, 0x30, 0x38]

  // ---------------------------------------------------------------------
  // formatTo
  // ---------------------------------------------------------------------

  /** `formatTo(a, value, currentIndent)`. */
  method FormatTo(f: Formatter, a: Appendable, v: Node, currentIndent: int)
    modifies a
    ensures a.contents == old(a.contents) + Indented(v, f.indent, f.lineSeparator, currentIndent)
    decreases v, 2
  {
    match v {
      case NullNode => a.Append(NULL);
      case MapNode(entries) => FormatMap(f, a, entries, currentIndent);
      case CollectionNode(items) => FormatCollection(f, a, items, currentIndent);
      case ArrayNode(elements) => FormatArray(f, a, elements, currentIndent);
      case _ => AppendPrimitive(a, v);
    }
  }

  /** The map branch: `{`, then, unless the map is empty, the entries between
      line separators and the closing line's indent; then `}`. */
  method FormatMap(f: Formatter, a: Appendable, entries: seq<Entry>, currentIndent: int)
    modifies a
    ensures a.contents == old(a.contents) + Indented(MapNode(entries), f.indent, f.lineSeparator, currentIndent)
    decreases entries, 1
  {
    a.Append([OPEN_BRACE]);
    if |entries| > 0 {
      AppendLineSeparator(f, a);
      FormatEntries(f, a, entries, currentIndent);
      AppendLineSeparator(f, a);
      AppendSpaces(a, currentIndent);
    }
    a.Append([CLOSE_BRACE]);
    BlockAppended(old(a.contents), OPEN_BRACE, f.lineSeparator,
      IndentedMembers(entries, |entries|, f.indent, f.lineSeparator, currentIndent + f.indent),
      Spaces(currentIndent), CLOSE_BRACE);
  }

  /** The `Iterable` branch, laid out like the map branch with `[` and `]`. */
  method FormatCollection(f: Formatter, a: Appendable, items: seq<Node>, currentIndent: int)
    modifies a
    ensures a.contents == old(a.contents) + Indented(CollectionNode(items), f.indent, f.lineSeparator, currentIndent)
    decreases items, 1
  {
    a.Append([OPEN_BRACKET]);
    if |items| > 0 {
      AppendLineSeparator(f, a);
      FormatCollectionItems(f, a, items, currentIndent);
      AppendLineSeparator(f, a);
      AppendSpaces(a, currentIndent);
    }
    a.Append([CLOSE_BRACKET]);
    BlockAppended(old(a.contents), OPEN_BRACKET, f.lineSeparator,
      IndentedItems(items, |items|, f.indent, f.lineSeparator, currentIndent + f.indent),
      Spaces(currentIndent), CLOSE_BRACKET);
  }

  /** The `Object[]` branch: the same layout as the `Iterable` branch. */
  method FormatArray(f: Formatter, a: Appendable, elements: seq<Node>, currentIndent: int)
    modifies a
    ensures a.contents == old(a.contents) + Indented(ArrayNode(elements), f.indent, f.lineSeparator, currentIndent)
    decreases elements, 1
  {
    a.Append([OPEN_BRACKET]);
    var n := |elements|;
    if n > 0 {
      AppendLineSeparator(f, a);
      FormatArrayElements(f, a, elements, currentIndent);
      AppendLineSeparator(f, a);
      AppendSpaces(a, currentIndent);
    }
    a.Append([CLOSE_BRACKET]);
    BlockAppended(old(a.contents), OPEN_BRACKET, f.lineSeparator,
      IndentedItems(elements, |elements|, f.indent, f.lineSeparator, currentIndent + f.indent),
      Spaces(currentIndent), CLOSE_BRACKET);
  }

  /** The entry loop of the map branch: each entry on a line of its own at
      the deeper indent, a comma and a line separator between entries. */
  method FormatEntries(f: Formatter, a: Appendable, entries: seq<Entry>, currentIndent: int)
    requires |entries| > 0
    modifies a
    ensures a.contents == old(a.contents)
      + IndentedMembers(entries, |entries|, f.indent, f.lineSeparator, currentIndent + f.indent)
    decreases entries, 0
  {
    var i := 0;
    ghost var inner := currentIndent + f.indent;
    ghost var lead: Text := [];
    while true
      invariant 0 <= i < |entries|
      invariant a.contents == old(a.contents) + lead
      invariant i == 0 ==> lead == []
      invariant i > 0 ==> lead == IndentedMembers(entries, i, f.indent, f.lineSeparator, inner) + [COMMA] + f.lineSeparator
      decreases |entries| - i
    {
      ghost var done := a.contents;
      var entry := entries[i];
      i := i + 1;
      var newIndent := currentIndent + f.indent;
      AppendSpaces(a, newIndent);
      AppendString(a, entry.key);
      a.Append([COLON]);
      a.Append([SPACE]);
      FormatTo(f, a, entry.value, newIndent);
      ghost var member := IndentedMember(entry, f.indent, f.lineSeparator, inner);
      MemberAppended(done, Spaces(newIndent), Quoted(entry.key), Indented(entry.value, f.indent, f.lineSeparator, newIndent));
      Associative(old(a.contents), lead, member);
      ghost var members := IndentedMembers(entries, i, f.indent, f.lineSeparator, inner);
      assert members == lead + member;
      assert a.contents == old(a.contents) + members;
      if i == |entries| {
        break;
      }
      a.Append([COMMA]);
      AppendLineSeparator(f, a);
      SeparatorAppended(old(a.contents), members, f.lineSeparator);
      lead := members + [COMMA] + f.lineSeparator;
    }
  }

  /** The element loop of the collection branch, walking an iterator (the
      items it has still to return). */
  method FormatCollectionItems(f: Formatter, a: Appendable, items: seq<Node>, currentIndent: int)
    requires |items| > 0
    modifies a
    ensures a.contents == old(a.contents)
      + IndentedItems(items, |items|, f.indent, f.lineSeparator, currentIndent + f.indent)
    decreases items, 0
  {
    var remaining := items;
    ghost var inner := currentIndent + f.indent;
    ghost var lead: Text := [];
    while true
      invariant 0 < |remaining| <= |items| && remaining == items[|items| - |remaining|..]
      invariant a.contents == old(a.contents) + lead
      invariant |remaining| == |items| ==> lead == []
      invariant |remaining| < |items| ==>
        lead == IndentedItems(items, |items| - |remaining|, f.indent, f.lineSeparator, inner) + [COMMA] + f.lineSeparator
      decreases |remaining|
    {
      ghost var done := a.contents;
      AppendSpaces(a, currentIndent + f.indent);
      var next := remaining[0];
      assert next == items[|items| - |remaining|];
      remaining := remaining[1..];
      FormatTo(f, a, next, currentIndent + f.indent);
      ghost var item := IndentedItem(next, f.indent, f.lineSeparator, inner);
      Associative(done, Spaces(inner), Indented(next, f.indent, f.lineSeparator, inner));
      Associative(old(a.contents), lead, item);
      ghost var done' := IndentedItems(items, |items| - |remaining|, f.indent, f.lineSeparator, inner);
      assert done' == lead + item;
      assert a.contents == old(a.contents) + done';
      if remaining == [] {
        break;
      }
      a.Append([COMMA]);
      AppendLineSeparator(f, a);
      SeparatorAppended(old(a.contents), done', f.lineSeparator);
      lead := done' + [COMMA] + f.lineSeparator;
    }
  }

  /** The element loop of the `Object[]` branch, by index. */
  method FormatArrayElements(f: Formatter, a: Appendable, elements: seq<Node>, currentIndent: int)
    requires |elements| > 0
    modifies a
    ensures a.contents == old(a.contents)
      + IndentedItems(elements, |elements|, f.indent, f.lineSeparator, currentIndent + f.indent)
    decreases elements, 0
  {
    var n := |elements|;
    var i := 0;
    ghost var inner := currentIndent + f.indent;
    ghost var lead: Text := [];
    while true
      invariant 0 <= i < n
      invariant a.contents == old(a.contents) + lead
      invariant i == 0 ==> lead == []
      invariant i > 0 ==> lead == IndentedItems(elements, i, f.indent, f.lineSeparator, inner) + [COMMA] + f.lineSeparator
      decreases n - i
    {
      ghost var done := a.contents;
      AppendSpaces(a, currentIndent + f.indent);
      var element := elements[i];
      i := i + 1;
      FormatTo(f, a, element, currentIndent + f.indent);
      ghost var item := IndentedItem(element, f.indent, f.lineSeparator, inner);
      Associative(done, Spaces(inner), Indented(element, f.indent, f.lineSeparator, inner));
      Associative(old(a.contents), lead, item);
      ghost var items := IndentedItems(elements, i, f.indent, f.lineSeparator, inner);
      assert items == lead + item;
      assert a.contents == old(a.contents) + items;
      if i >= n {
        assert i == |elements|;
        assert a.contents == old(a.contents) + IndentedItems(elements, |elements|, f.indent, f.lineSeparator, inner);
        break;
      }
      a.Append([COMMA]);
      AppendLineSeparator(f, a);
      SeparatorAppended(old(a.contents), items, f.lineSeparator);
      lead := items + [COMMA] + f.lineSeparator;
    }
  }

  // ---------------------------------------------------------------------
  // outputTo
  // ---------------------------------------------------------------------

  /** `outputTo(a, value)`. */
  method OutputTo(a: Appendable, v: Node)
    modifies a
    ensures a.contents == old(a.contents) + Compact(v)
    decreases v, 1
  {
    match v {
      case NullNode => a.Append(NULL);
      case MapNode(entries) =>
        a.Append([OPEN_BRACE]);
        if |entries| > 0 {
          OutputEntries(a, entries);
        }
        a.Append([CLOSE_BRACE]);
        Associative(old(a.contents), [OPEN_BRACE] + CompactMembers(entries, |entries|), [CLOSE_BRACE]);
        Associative(old(a.contents), [OPEN_BRACE], CompactMembers(entries, |entries|));
      case CollectionNode(items) =>
        a.Append([OPEN_BRACKET]);
        if |items| > 0 {
          OutputCollectionItems(a, items);
        }
        a.Append([CLOSE_BRACKET]);
        Associative(old(a.contents), [OPEN_BRACKET] + CompactItems(items, |items|), [CLOSE_BRACKET]);
        Associative(old(a.contents), [OPEN_BRACKET], CompactItems(items, |items|));
      case ArrayNode(elements) =>
        a.Append([OPEN_BRACKET]);
        var n := |elements|;
        if n > 0 {
          OutputArrayElements(a, elements);
        }
        a.Append([CLOSE_BRACKET]);
        Associative(old(a.contents), [OPEN_BRACKET] + CompactItems(elements, |elements|), [CLOSE_BRACKET]);
        Associative(old(a.contents), [OPEN_BRACKET], CompactItems(elements, |elements|));
      case _ => AppendPrimitive(a, v);
    }
  }

  method OutputEntries(a: Appendable, entries: seq<Entry>)
    requires |entries| > 0
    modifies a
    ensures a.contents == old(a.contents) + CompactMembers(entries, |entries|)
    decreases entries, 0
  {
    var i := 0;
    ghost var lead: Text := [];
    while true
      invariant 0 <= i < |entries|
      invariant a.contents == old(a.contents) + lead
      invariant i == 0 ==> lead == []
      invariant i > 0 ==> lead == CompactMembers(entries, i) + [COMMA]
      decreases |entries| - i
    {
      ghost var done := a.contents;
      var entry := entries[i];
      i := i + 1;
      AppendString(a, entry.key);
      a.Append([COLON]);
      OutputTo(a, entry.value);
      ghost var member := CompactEntry(entry);
      Associative(done, Quoted(entry.key), [COLON]);
      Associative(done, Quoted(entry.key) + [COLON], Compact(entry.value));
      Associative(old(a.contents), lead, member);
      ghost var members := CompactMembers(entries, i);
      if i == 1 {
        assert lead + member == member;
      }
      assert members == lead + member;
      assert a.contents == old(a.contents) + members;
      if i == |entries| {
        break;
      }
      a.Append([COMMA]);
      Associative(old(a.contents), members, [COMMA]);
      lead := members + [COMMA];
    }
  }

  method OutputCollectionItems(a: Appendable, items: seq<Node>)
    requires |items| > 0
    modifies a
    ensures a.contents == old(a.contents) + CompactItems(items, |items|)
    decreases items, 0
  {
    var remaining := items;
    ghost var lead: Text := [];
    while true
      invariant 0 < |remaining| <= |items| && remaining == items[|items| - |remaining|..]
      invariant a.contents == old(a.contents) + lead
      invariant |remaining| == |items| ==> lead == []
      invariant |remaining| < |items| ==> lead == CompactItems(items, |items| - |remaining|) + [COMMA]
      decreases |remaining|
    {
      var next := remaining[0];
      assert next == items[|items| - |remaining|];
      remaining := remaining[1..];
      OutputTo(a, next);
      Associative(old(a.contents), lead, Compact(next));
      ghost var done := CompactItems(items, |items| - |remaining|);
      assert done == lead + Compact(next);
      assert a.contents == old(a.contents) + done;
      if remaining == [] {
        break;
      }
      a.Append([COMMA]);
      Associative(old(a.contents), done, [COMMA]);
      lead := done + [COMMA];
    }
  }

  method OutputArrayElements(a: Appendable, elements: seq<Node>)
    requires |elements| > 0
    modifies a
    ensures a.contents == old(a.contents) + CompactItems(elements, |elements|)
    decreases elements, 0
  {
    var n := |elements|;
    var i := 0;
    ghost var lead: Text := [];
    while true
      invariant 0 <= i < n
      invariant a.contents == old(a.contents) + lead
      invariant i == 0 ==> lead == []
      invariant i > 0 ==> lead == CompactItems(elements, i) + [COMMA]
      decreases n - i
    {
      var element := elements[i];
      i := i + 1;
      OutputTo(a, element);
      Associative(old(a.contents), lead, Compact(element));
      ghost var items := CompactItems(elements, i);
      assert items == lead + Compact(element);
      assert a.contents == old(a.contents) + items;
      if i >= n {
        break;
      }
      a.Append([COMMA]);
      Associative(old(a.contents), items, [COMMA]);
      lead := items + [COMMA];
    }
  }

  // ---------------------------------------------------------------------
  // Primitives
  // ---------------------------------------------------------------------

  /** `appendPrimitive`. */
  method AppendPrimitive(a: Appendable, v: Node)
    requires IsPrimitive(v)
    modifies a
    ensures a.contents == old(a.contents) + PrimitiveText(v)
  {
    match v {
      case IntNode(i) => AppendInt(a, i);
      case LongNode(l) => AppendLong(a, l);
      case NumberNode(text) => a.Append(text);
      case CharsNode(chars) => AppendString(a, chars);
      case OtherNode(s) =>
        if s == TRUE || s == FALSE {
          a.Append(s);
        } else {
          AppendString(a, s);
        }
    }
  }

  /** `appendString`: the units between quotes, each escaped as needed. */
  method AppendString(a: Appendable, cs: Text)
    modifies a
    ensures a.contents == old(a.contents) + Quoted(cs)
  {
    a.Append([QUOTE]);
    var i, n := 0, |cs|;
    while i < n
      invariant 0 <= i <= n
      invariant a.contents == old(a.contents) + [QUOTE] + Escaped(cs[..i])
    {
      AppendEscapedUnit(a, cs[i]);
      assert cs[..i + 1] == cs[..i] + [cs[i]];
      EscapedSnoc(cs[..i], cs[i]);
      Associative(old(a.contents) + [QUOTE], Escaped(cs[..i]), EscapeUnit(cs[i]));
      i := i + 1;
    }
    assert cs[..n] == cs;
    a.Append([QUOTE]);
  }

  /** The body of `appendString`'s loop: one code unit, escaped as needed. */
  method AppendEscapedUnit(a: Appendable, ch: CodeUnit)
    modifies a
    ensures a.contents == old(a.contents) + EscapeUnit(ch)
  {
    if ch == QUOTE || ch == BACKSLASH {
      a.Append([BACKSLASH]);
      a.Append([ch]);
      Associative(old(a.contents), [BACKSLASH], [ch]);
    } else if ch == BACKSPACE {
      a.Append([BACKSLASH, LOWER_B]);
    } else if ch == FORM_FEED {
      a.Append([BACKSLASH, LOWER_F]);
    } else if ch == LF {
      a.Append([BACKSLASH, LOWER_N]);
    } else if ch == CR {
      a.Append([BACKSLASH, LOWER_R]);
    } else if ch == TAB {
      a.Append([BACKSLASH, LOWER_T]);
    } else if ch < 0x20 || ch >= 0x7F {
      a.Append([BACKSLASH, LOWER_U]);
      a.Append([HEX_DIGITS[ch / 0x1000 % 0x10]]);
      a.Append([HEX_DIGITS[ch / 0x100 % 0x10]]);
      a.Append([HEX_DIGITS[ch / 0x10 % 0x10]]);
      a.Append([HEX_DIGITS[ch % 0x10]]);
      HexEscapeAppended(old(a.contents), ch);
    } else {
      a.Append([ch]);
    }
  }

  /** `appendInt`: `Integer.MIN_VALUE`, whose magnitude is not an `int`, is
      written from a constant. */
  method AppendInt(a: Appendable, i: Int32)
    modifies a
    ensures a.contents == old(a.contents) + SignedDecimalText(i)
  {
    if i < 0 {
      if i == INT_MIN {
        IntMinText();
        a.Append(INT_MIN_TEXT);
      } else {
        a.Append([MINUS]);
        assert IsInt32(i);
        var m: Int32 := -i;
        AppendPositiveInt(a, m);
      }
    } else {
      AppendPositiveInt(a, i);
    }
  }

  /** `appendPositiveInt`: the digits above the last two first, then the
      last two from the tables. */
  method AppendPositiveInt(a: Appendable, i: Int32)
    requires i >= 0
    modifies a
    ensures a.contents == old(a.contents) + DecimalText(i)
    decreases i
  {
    if i >= 100 {
      assert IsInt32(i);
      var n: Int32 := i / 100;
      AppendPositiveInt(a, n);
      var r := i - n * 100;
      a.Append([TENS_DIGITS[r]]);
      a.Append([DIGITS[r]]);
      LastTwoDigits(i);
    } else if i >= 10 {
      a.Append([TENS_DIGITS[i]]);
      a.Append([DIGITS[i]]);
      TwoDigits(i);
    } else {
      a.Append([DIGITS[i]]);
    }
  }

  /** `appendLong`, with `Long.MIN_VALUE` written from a constant. */
  method AppendLong(a: Appendable, n: Int64)
    modifies a
    ensures a.contents == old(a.contents) + SignedDecimalText(n)
  {
    if n < 0 {
      if n == LONG_MIN {
        LongMinText();
        a.Append(LONG_MIN_TEXT);
      } else {
        a.Append([MINUS]);
        assert IsInt64(n);
        var m: Int64 := -n;
        AppendPositiveLong(a, m);
      }
    } else {
      AppendPositiveLong(a, n);
    }
  }

  /** `appendPositiveLong`: below 100 the tens digit is written only when
      there is one. */
  method AppendPositiveLong(a: Appendable, n: Int64)
    requires n >= 0
    modifies a
    ensures a.contents == old(a.contents) + DecimalText(n)
    decreases n
  {
    if n >= 100 {
      assert IsInt64(n);
      var m: Int64 := n / 100;
      AppendPositiveLong(a, m);
      var i := n - m * 100;
      a.Append([TENS_DIGITS[i]]);
      a.Append([DIGITS[i]]);
      LastTwoDigits(n);
    } else {
      var i := n;
      if i >= 10 {
        a.Append([TENS_DIGITS[i]]);
        TwoDigits(i);
      }
      a.Append([DIGITS[i]]);
    }
  }

  lemma {:induction false} Associative(x: Text, y: Text, z: Text)
    ensures x + y + z == x + (y + z)
  {
  }

  /** The four pieces of a map entry appended in turn. */
  lemma {:induction false} MemberAppended(done: Text, spaces: Text, key: Text, value: Text)
    ensures done + spaces + key + [COLON] + [SPACE] + value == done + (spaces + key + [COLON, SPACE] + value)
  {
  }

  /** A comma and a line separator appended after what is written so far. */
  lemma {:induction false} SeparatorAppended(start: Text, written: Text, ls: Text)
    ensures start + written + [COMMA] + ls == start + (written + [COMMA] + ls)
  {
  }

  /** The pieces of a non-empty container appended in turn. */
  lemma {:induction false} BlockAppended(done: Text, open: CodeUnit, ls: Text, body: Text, spaces: Text, close: CodeUnit)
    ensures done + [open] + ls + body + ls + spaces + [close] == done + ([open] + ls + body + ls + spaces + [close])
  {
  }

  /** The six units of a `\uXXXX` escape appended in turn. */
  lemma {:induction false} HexEscapeAppended(done: Text, ch: CodeUnit)
    ensures done + [BACKSLASH, LOWER_U] + [HEX_DIGITS[ch / 0x1000 % 0x10]] + [HEX_DIGITS[ch / 0x100 % 0x10]]
      + [HEX_DIGITS[ch / 0x10 % 0x10]] + [HEX_DIGITS[ch % 0x10]]
      == done + ([BACKSLASH, LOWER_U] + HexEscapeDigits(ch))
  {
    HexTable();
  }

  /** The table holds the digit for each value. */
  lemma {:induction false} HexTable()
    ensures forall d :: 0 <= d < 16 ==> HEX_DIGITS[d] == HexDigit(d)
  {
    assert HEX_DIGITS == seq(16, d requires 0 <= d < 16 => HexDigit(d));
  }

  // ---------------------------------------------------------------------
  // The digit tables give the standard decimal form
  // ---------------------------------------------------------------------

  /** A number from 10 to 99 is its two table digits. */
  lemma {:induction false} TwoDigits(i: nat)
    requires 10 <= i < 100
    ensures DecimalText(i) == [TENS_DIGITS[i], DIGITS[i]]
  {
  }

  /** From 100 on, the decimal form is that of the hundreds followed by the
      two table digits of the remainder. */
  lemma {:induction false} LastTwoDigits(i: nat)
    requires i >= 100
    ensures DecimalText(i) == DecimalText(i / 100) + [TENS_DIGITS[i % 100], DIGITS[i % 100]]
  {
    assert i / 10 / 10 == i / 100 && i / 10 % 10 == i % 100 / 10 && i % 10 == i % 100 % 10;
  }

  /** Appending a digit to the decimal form of a positive number. */
  lemma {:induction false} DigitAppended(n: nat, d: nat)
    requires n >= 1 && d < 10
    ensures DecimalText(10 * n + d) == DecimalText(n) + [0x30 + d]
  {
  }

  /** The constant is the standard form of `Integer.MIN_VALUE`. */
  lemma {:induction false} IntMinText()
    ensures INT_MIN_TEXT == SignedDecimalText(INT_MIN)
  {
    DigitAppended(2, 1);
    DigitAppended(21, 4);
    DigitAppended(214, 7);
    DigitAppended(2147, 4);
    DigitAppended(21474, 8);
    DigitAppended(214748, 3);
    DigitAppended(2147483, 6);
    DigitAppended(21474836, 4);
    DigitAppended(214748364, 8);
    assert DecimalText(2147483648) == [0x32] + [0x31] + [0x34] + [0x37] + [0x34] + [0x38] + [0x33] + [0x36] + [0x34] + [0x38];
  }

  /** The constant is the standard form of `Long.MIN_VALUE`. */
  lemma {:induction false} LongMinText()
    ensures LONG_MIN_TEXT == SignedDecimalText(LONG_MIN)
  {
    DigitAppended(9, 2);
    DigitAppended(92, 2);
    DigitAppended(922, 3);
    DigitAppended(9223, 3);
    DigitAppended(92233, 7);
    DigitAppended(922337, 2);
    DigitAppended(9223372, 0);
    DigitAppended(92233720, 3);
    DigitAppended(922337203, 6);
    DigitAppended(9223372036, 8);
    DigitAppended(92233720368, 5);
    DigitAppended(922337203685, 4);
    DigitAppended(9223372036854, 7);
    DigitAppended(92233720368547, 7);
    DigitAppended(922337203685477, 5);
    DigitAppended(9223372036854775, 8);
    DigitAppended(92233720368547758, 0);
    DigitAppended(922337203685477580, 8);
    assert DecimalText(9223372036854775808) == [0x39] + [0x32] + [0x32] + [0x33] + [0x33] + [0x37] + [0x32] + [0x30] + [0x33] + [0x36] + [0x38] + [0x35] + [0x34] + [0x37] + [0x37] + [0x35] + [0x38] + [0x30] + [0x38];
  }
}
