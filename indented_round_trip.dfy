/** The parser reads back what the indenting formatter writes.  Indented
 *  output differs from compact output only by whitespace: the line
 *  separator and indentation before each element, member and closing
 *  unit, and the space after each colon.  The parser skips all of it, so
 *  indented output of a well-formed value parses to that value, whatever
 *  the indent and the starting indent, as long as the line separator is
 *  JSON whitespace.
 */
module IndentedRoundTrip {
  import opened Wrappers
  import opened CodeUnits
  import opened JsonValue
  import opened Layout
  import opened Parser
  import opened ParserProperties
  import opened Placement
  import opened RoundTrip

  // ---------------------------------------------------------------------
  // Whitespace
  // ---------------------------------------------------------------------

  /** Every unit of `s` is JSON whitespace. */
  predicate AllSpaces(s: Text)
  {
    forall k :: 0 <= k < |s| ==> IsSpaceCharacter(s[k])
  }

  /** A line separator followed by indentation is whitespace. */
  lemma {:induction false} LineBreakSpaces(ls: Text, count: int)
    requires AllSpaces(ls)
    ensures AllSpaces(ls + Spaces(count))
  {
    var s := ls + Spaces(count);
    forall k | 0 <= k < |s| ensures IsSpaceCharacter(s[k]) {
      if k < |ls| {
        assert s[k] == ls[k];
      } else {
        assert s[k] == Spaces(count)[k - |ls|];
      }
    }
  }

  /** Skipping whitespace from the start of a run of whitespace reaches
      where skipping from its end does. */
  lemma {:induction false} SkipsRun(text: Text, pos: nat, ws: Text)
    requires AllSpaces(ws) && Holds(text, pos, ws)
    ensures pos + |ws| <= |text| && SkipSpaces(text, pos) == SkipSpaces(text, pos + |ws|)
    decreases |ws|
  {
    if ws != [] {
      assert ws == [ws[0]] + ws[1..];
      HoldsConcat(text, pos, [ws[0]], ws[1..]);
      assert text[pos] == Piece([ws[0]], 0);
      forall k | 0 <= k < |ws[1..]| ensures IsSpaceCharacter(ws[1..][k]) {
        assert ws[1..][k] == ws[k + 1];
      }
      SkipsRun(text, pos + 1, ws[1..]);
    }
  }

  /** Whitespace before a unit that is not whitespace is skipped up to
      that unit. */
  lemma {:induction false} SkipsTo(text: Text, pos: nat, ws: Text)
    requires AllSpaces(ws) && Holds(text, pos, ws)
    requires pos + |ws| < |text| && !IsSpaceCharacter(text[pos + |ws|])
    ensures SkipSpaces(text, pos) == pos + |ws|
  {
    SkipsRun(text, pos, ws);
  }

  /** An element is read alike from any two places whitespace skipping
      takes to the same place. */
  lemma {:induction false} ValueAtSkips(text: Text, pos: nat, pos': nat, pointer: Text)
    requires pos <= |text| && pos' <= |text| && SkipSpaces(text, pos) == SkipSpaces(text, pos')
    ensures ValueAt(text, pos, pointer) == ValueAt(text, pos', pointer)
  {
  }

  /** A member likewise. */
  lemma {:induction false} MemberAtSkips(text: Text, pos: nat, pos': nat, pointer: Text, members: seq<Member>)
    requires pos <= |text| && pos' <= |text| && SkipSpaces(text, pos) == SkipSpaces(text, pos')
    ensures MemberAt(text, pos, pointer, members) == MemberAt(text, pos', pointer, members)
  {
  }

  /** The array loop started before whitespace reads what it reads when
      started after it. */
  lemma {:induction false} ElementsAtSkips(text: Text, pos: nat, pointer: Text, items: seq<Value>)
    requires pos <= |text|
    ensures ElementsAt(text, SkipSpaces(text, pos), pointer, items) == ElementsAt(text, pos, pointer, items)
  {
    var q := SkipSpaces(text, pos);
    SkipSpacesStopsAtFirstNonSpace(text, pos);
    assert SkipSpaces(text, q) == q;
    ValueAtSkips(text, q, pos, pointer + [SLASH] + DecimalText(|items|));
  }

  /** `[` followed by whitespace, if any, and something other than `]`:
      the array loop starts just after the bracket. */
  lemma {:induction false} ArrayOpensBefore(text: Text, pos: nat, pointer: Text)
    requires pos < |text| && text[pos] == OPEN_BRACKET
    requires SkipSpaces(text, pos + 1) < |text| && text[SkipSpaces(text, pos + 1)] != CLOSE_BRACKET
    ensures ValueAt(text, pos, pointer) == ElementsAt(text, pos + 1, pointer, [])
  {
    assert SkipSpaces(text, pos) == pos;
    ElementsAtSkips(text, pos + 1, pointer, []);
  }

  /** `{` followed by whitespace, if any, and something other than `}`:
      the object loop starts just after the brace. */
  lemma {:induction false} ObjectOpensBefore(text: Text, pos: nat, pointer: Text)
    requires pos < |text| && text[pos] == OPEN_BRACE
    requires SkipSpaces(text, pos + 1) < |text| && text[SkipSpaces(text, pos + 1)] != CLOSE_BRACE
    ensures ValueAt(text, pos, pointer) == MembersAt(text, pos + 1, pointer, [])
  {
    assert SkipSpaces(text, pos) == pos;
  }

  /** A line separator before a body whose last part follows a comma and
      a line separator: the body joins its parts, each with the separator
      before it, with commas. */
  lemma {:induction false} LineJoinedStep(pieces: seq<Text>, n: nat, ls: Text, head: Text, last: Text, whole: Text)
    requires 1 < n <= |pieces| && whole == head + [COMMA] + ls + last
    requires ls + head == Joined(pieces, n - 1) && ls + last == pieces[n - 1]
    ensures ls + whole == Joined(pieces, n)
  {
    assert ls + (head + [COMMA] + ls + last) == (ls + head) + [COMMA] + (ls + last);
  }

  // ---------------------------------------------------------------------
  // The layout of a value
  // ---------------------------------------------------------------------

  /** A value that the indenting formatter writes as the compact one does:
      anything but a non-empty list or map. */
  predicate Flat(v: Value)
  {
    !(v.List? && v.items != []) && !(v.Map? && v.members != [])
  }

  /** The indented form of a flat value is its compact form. */
  lemma {:induction false} FlatIsCompact(v: Value, indent: nat, ls: Text, current: int)
    requires Flat(v)
    ensures Indented(ToNode(v), indent, ls, current) == Compact(ToNode(v))
  {
    match v
    case List(items) =>
      assert ToNodes(items) == [];
    case Map(members) =>
      assert ToEntries(members) == [];
    case _ =>
  }

  /** The indented form of a well-formed value is never empty, and its
      first unit is neither whitespace nor a closing bracket or brace. */
  lemma {:induction false} IndentedOpens(v: Value, indent: nat, ls: Text, current: int)
    requires WellFormed(v)
    ensures var t := Indented(ToNode(v), indent, ls, current); |t| >= 1 && OpensElement(t[0])
  {
    if Flat(v) {
      FlatIsCompact(v, indent, ls, current);
      CompactOpens(v);
    }
  }

  /** Item `j` of a list as the array loop meets it: the line separator
      and the indentation before it, then its own indented form. */
  function LineItems(items: seq<Value>, indent: nat, ls: Text, inner: int): (pieces: seq<Text>)
    ensures |pieces| == |items|
  {
    seq(|items|, j requires 0 <= j < |items| => LineItem(items[j], indent, ls, inner))
  }

  /** One item with the line separator and the indentation before it. */
  function LineItem(v: Value, indent: nat, ls: Text, inner: int): Text
  {
    (ls + Spaces(inner)) + Indented(ToNode(v), indent, ls, inner)
  }

  /** Piece `j` of a list body is item `j` on its line, and also the line
      separator followed by the item as the formatter indents it. */
  lemma {:induction false} LineItemPiece(items: seq<Value>, j: nat, indent: nat, ls: Text, inner: int)
    requires j < |items|
    ensures LineItems(items, indent, ls, inner)[j] == (ls + Spaces(inner)) + Indented(ToNode(items[j]), indent, ls, inner)
    ensures LineItems(items, indent, ls, inner)[j] == ls + IndentedItem(ToNodes(items)[j], indent, ls, inner)
  {
  }

  /** One entry as the indenting formatter writes it: `"key": value`. */
  function LineEntry(m: Member, indent: nat, inner: int, ls: Text): Text
  {
    Quoted(m.key) + [COLON] + ([SPACE] + Indented(ToNode(m.value), indent, ls, inner))
  }

  /** Member `j` of a map as the object loop meets it: the line separator
      and the indentation before it, then its entry. */
  function LineMembers(members: seq<Member>, indent: nat, ls: Text, inner: int): (pieces: seq<Text>)
    ensures |pieces| == |members|
  {
    seq(|members|, j requires 0 <= j < |members| => LineMember(members[j], indent, ls, inner))
  }

  /** One member with the line separator and the indentation before it. */
  function LineMember(m: Member, indent: nat, ls: Text, inner: int): Text
  {
    (ls + Spaces(inner)) + LineEntry(m, indent, inner, ls)
  }

  /** Piece `j` of a map body is member `j` on its line. */
  lemma {:induction false} LineMemberPiece(members: seq<Member>, j: nat, indent: nat, ls: Text, inner: int)
    requires j < |members|
    ensures LineMembers(members, indent, ls, inner)[j] == (ls + Spaces(inner)) + LineEntry(members[j], indent, inner, ls)
  {
  }

  /** The line separator and the items of an indented list body join the
      items as the array loop meets them with commas. */
  lemma {:induction false} LineItemsJoined(items: seq<Value>, n: nat, indent: nat, ls: Text, inner: int)
    requires 1 <= n <= |items|
    ensures ls + IndentedItems(ToNodes(items), n, indent, ls, inner) == Joined(LineItems(items, indent, ls, inner), n)
  {
    var nodes, pieces := ToNodes(items), LineItems(items, indent, ls, inner);
    forall j | 0 <= j < n
      ensures ls + IndentedItem(nodes[j], indent, ls, inner) == pieces[j]
    {
      LineItemPiece(items, j, indent, ls, inner);
    }
    NodesOnLines(nodes, pieces, n, indent, ls, inner);
  }

  /** Items each of which, with the line separator before it, is its
      piece: the line separator and the first `n` items of a body join
      the first `n` pieces. */
  lemma {:induction false} NodesOnLines(nodes: seq<Node>, pieces: seq<Text>, n: nat, indent: nat, ls: Text, inner: int)
    requires 1 <= n <= |nodes| && n <= |pieces|
    requires forall j :: 0 <= j < n ==> ls + IndentedItem(nodes[j], indent, ls, inner) == pieces[j]
    ensures ls + IndentedItems(nodes, n, indent, ls, inner) == Joined(pieces, n)
  {
    var last := IndentedItem(nodes[n - 1], indent, ls, inner);
    if n == 1 {
      assert IndentedItems(nodes, n, indent, ls, inner) == [] + last;
    } else {
      var head := IndentedItems(nodes, n - 1, indent, ls, inner);
      assert IndentedItems(nodes, n, indent, ls, inner) == head + [COMMA] + ls + last;
      NodesOnLines(nodes, pieces, n - 1, indent, ls, inner);
      LineJoinedStep(pieces, n, ls, head, last, IndentedItems(nodes, n, indent, ls, inner));
    }
  }

  /** Member `j` of an indented map body, with the line separator before
      it, is its piece. */
  lemma {:induction false} MemberOnItsLine(members: seq<Member>, j: nat, indent: nat, ls: Text, inner: int)
    requires j < |members|
    ensures ls + IndentedMember(ToEntries(members)[j], indent, ls, inner) == LineMembers(members, indent, ls, inner)[j]
  {
    var m := members[j];
    var e := ToEntries(members)[j];
    LineMemberPiece(members, j, indent, ls, inner);
    assert e == Entry(m.key, ToNode(m.value));
    assert IndentedMember(e, indent, ls, inner) == Spaces(inner) + LineEntry(m, indent, inner, ls);
  }

  /** The same for the members of an indented map body. */
  lemma {:induction false} LineMembersJoined(members: seq<Member>, n: nat, indent: nat, ls: Text, inner: int)
    requires 1 <= n <= |members|
    ensures ls + IndentedMembers(ToEntries(members), n, indent, ls, inner) == Joined(LineMembers(members, indent, ls, inner), n)
  {
    var entries, pieces := ToEntries(members), LineMembers(members, indent, ls, inner);
    forall j | 0 <= j < n
      ensures ls + IndentedMember(entries[j], indent, ls, inner) == pieces[j]
    {
      MemberOnItsLine(members, j, indent, ls, inner);
    }
    EntriesOnLines(entries, pieces, n, indent, ls, inner);
  }

  /** Entries each of which, with the line separator before it, is its
      piece: the line separator and the first `n` entries of a body join
      the first `n` pieces. */
  lemma {:induction false} EntriesOnLines(entries: seq<Entry>, pieces: seq<Text>, n: nat, indent: nat, ls: Text, inner: int)
    requires 1 <= n <= |entries| && n <= |pieces|
    requires forall j :: 0 <= j < n ==> ls + IndentedMember(entries[j], indent, ls, inner) == pieces[j]
    ensures ls + IndentedMembers(entries, n, indent, ls, inner) == Joined(pieces, n)
  {
    var last := IndentedMember(entries[n - 1], indent, ls, inner);
    if n == 1 {
      assert IndentedMembers(entries, n, indent, ls, inner) == [] + last;
    } else {
      var head := IndentedMembers(entries, n - 1, indent, ls, inner);
      assert IndentedMembers(entries, n, indent, ls, inner) == head + [COMMA] + ls + last;
      EntriesOnLines(entries, pieces, n - 1, indent, ls, inner);
      LineJoinedStep(pieces, n, ls, head, last, IndentedMembers(entries, n, indent, ls, inner));
    }
  }

  /** A non-empty indented list: `[`, its items each on a line of their
      own, then a line break and the indentation of the list before `]`. */
  lemma {:induction false} IndentedListBody(items: seq<Value>, indent: nat, ls: Text, current: int)
    requires items != []
    ensures Indented(ToNode(List(items)), indent, ls, current)
      == [OPEN_BRACKET] + Joined(LineItems(items, indent, ls, current + indent), |items|) + (ls + Spaces(current)) + [CLOSE_BRACKET]
  {
    var nodes := ToNodes(items);
    assert ToNode(List(items)) == CollectionNode(nodes);
    ListLayout(nodes, indent, ls, current);
    LineItemsJoined(items, |items|, indent, ls, current + indent);
    Regrouped(OPEN_BRACKET, ls, IndentedItems(nodes, |items|, indent, ls, current + indent),
              Joined(LineItems(items, indent, ls, current + indent), |items|), Spaces(current), CLOSE_BRACKET);
  }

  /** A non-empty indented map likewise, between braces. */
  lemma {:induction false} IndentedMapBody(members: seq<Member>, indent: nat, ls: Text, current: int)
    requires members != []
    ensures Indented(ToNode(Map(members)), indent, ls, current)
      == [OPEN_BRACE] + Joined(LineMembers(members, indent, ls, current + indent), |members|) + (ls + Spaces(current)) + [CLOSE_BRACE]
  {
    var entries := ToEntries(members);
    assert ToNode(Map(members)) == MapNode(entries);
    MapLayout(entries, indent, ls, current);
    LineMembersJoined(members, |members|, indent, ls, current + indent);
    Regrouped(OPEN_BRACE, ls, IndentedMembers(entries, |members|, indent, ls, current + indent),
              Joined(LineMembers(members, indent, ls, current + indent), |members|), Spaces(current), CLOSE_BRACE);
  }

  /** The line separators of a container, regrouped: the first with the
      body, the second with the indentation before the closing unit. */
  lemma {:induction false} Regrouped(open: CodeUnit, ls: Text, body: Text, lined: Text, indentation: Text, close: CodeUnit)
    requires ls + body == lined
    ensures [open] + ls + body + ls + indentation + [close] == [open] + lined + (ls + indentation) + [close]
  {
    assert [open] + ls + body + ls + indentation + [close] == [open] + (ls + body) + (ls + indentation) + [close];
  }

  /** A non-empty list node as the indenting formatter writes it. */
  lemma {:induction false} ListLayout(nodes: seq<Node>, indent: nat, ls: Text, current: int)
    requires nodes != []
    ensures Indented(CollectionNode(nodes), indent, ls, current)
      == [OPEN_BRACKET] + ls + IndentedItems(nodes, |nodes|, indent, ls, current + indent) + ls + Spaces(current) + [CLOSE_BRACKET]
  {
  }

  /** A non-empty map node as the indenting formatter writes it. */
  lemma {:induction false} MapLayout(entries: seq<Entry>, indent: nat, ls: Text, current: int)
    requires entries != []
    ensures Indented(MapNode(entries), indent, ls, current)
      == [OPEN_BRACE] + ls + IndentedMembers(entries, |entries|, indent, ls, current + indent) + ls + Spaces(current) + [CLOSE_BRACE]
  {
  }

  /** The opening unit, the body, the whitespace after it and the closing
      unit of a non-empty indented container, where they stand. */
  lemma {:induction false} Enclosed(text: Text, pos: nat, c: Text, open: CodeUnit, body: Text, trailer: Text, close: CodeUnit)
    requires c == [open] + body + trailer + [close] && Holds(text, pos, c)
    ensures pos + 1 + |body| + |trailer| < |text| && text[pos] == open
    ensures Holds(text, pos + 1, body) && Holds(text, pos + 1 + |body|, trailer)
    ensures text[pos + 1 + |body| + |trailer|] == close
  {
    HoldsConcat(text, pos, [open] + body + trailer, [close]);
    HoldsConcat(text, pos, [open] + body, trailer);
    HoldsConcat(text, pos, [open], body);
    assert text[pos] == Piece([open], 0);
    assert text[pos + 1 + |body| + |trailer|] == Piece([close], 0);
  }

  // ---------------------------------------------------------------------
  // Reading indented output back
  // ---------------------------------------------------------------------

  /** What may follow an element: the end of the text, or a unit that
      cannot extend a number. */
  predicate EndsElement(text: Text, end: nat)
  {
    end == |text| || (end < |text| && !ContinuesNumber(text[end]))
  }

  /** The units after an element in indented output end it. */
  lemma {:induction false} SeparatorEnds(ch: CodeUnit)
    requires ch == COMMA || ch == CLOSE_BRACKET || ch == CLOSE_BRACE || IsSpaceCharacter(ch)
    ensures !ContinuesNumber(ch)
  {
  }

  /** The indented form of a well-formed value, standing between `start`
      and `end` and followed by nothing that could extend a number, is
      read back as that value, the cursor stopping at `end`. */
  lemma {:induction false} IndentedValueRead(text: Text, start: nat, end: nat, pointer: Text, v: Value,
                                              indent: nat, ls: Text, current: int, piece: Text)
    requires WellFormed(v) && AllSpaces(ls) && piece == Indented(ToNode(v), indent, ls, current)
    requires end == start + |piece| && Holds(text, start, piece) && EndsElement(text, end)
    ensures ValueAt(text, start, pointer) == Scanned(v, end)
    decreases v, 3
  {
    if Flat(v) {
      FlatIsCompact(v, indent, ls, current);
      ValueRead(text, start, end, pointer, v, piece);
    } else if v.List? {
      IndentedListBody(v.items, indent, ls, current);
      IndentedListRead(text, start, end, pointer, v.items, indent, ls, current, piece);
    } else {
      IndentedMapBody(v.members, indent, ls, current);
      IndentedMapRead(text, start, end, pointer, v.members, indent, ls, current, piece);
    }
  }

  /** An element preceded by whitespace: skipped, then read back. */
  lemma {:induction false} LineValueRead(text: Text, start: nat, end: nat, pointer: Text, v: Value,
                                          indent: nat, ls: Text, inner: int, ws: Text, piece: Text)
    requires WellFormed(v) && AllSpaces(ls) && AllSpaces(ws)
    requires piece == ws + Indented(ToNode(v), indent, ls, inner)
    requires end == start + |piece| && Holds(text, start, piece) && EndsElement(text, end)
    ensures ValueAt(text, start, pointer) == Scanned(v, end)
    decreases v, 4
  {
    var c := Indented(ToNode(v), indent, ls, inner);
    HoldsConcat(text, start, ws, c);
    SkipsRun(text, start, ws);
    ValueAtSkips(text, start, start + |ws|, pointer);
    IndentedValueRead(text, start + |ws|, end, pointer, v, indent, ls, inner, c);
  }

  /** Piece `j` of a body stands where the joined pieces put it, and
      what follows it is a comma or, after the last, whitespace up to the
      closing unit at `close`. */
  ghost predicate LaidAt(text: Text, p0: nat, pieces: seq<Text>, close: nat, closing: CodeUnit, j: nat)
  {
    j < |pieces|
    && var start, end := PieceStart(pieces, p0, j), PieceEnd(pieces, p0, j);
       start + |pieces[j]| == end && Holds(text, start, pieces[j]) && EndsElement(text, end)
       && FollowedBy(text, end, j + 1 < |pieces|, close, closing)
  }

  /** Piece `j` of a body that whitespace and a closing unit follow, where
      it stands, and what the parser meets after it. */
  lemma {:induction false} LineFollowed(text: Text, p0: nat, pieces: seq<Text>, trailer: Text, close: nat, closing: CodeUnit, j: nat)
    requires j < |pieces| && AllSpaces(trailer) && (closing == CLOSE_BRACKET || closing == CLOSE_BRACE)
    requires var body := Joined(pieces, |pieces|);
      Holds(text, p0, body) && Holds(text, p0 + |body|, trailer)
      && p0 + |body| + |trailer| < |text| && text[p0 + |body| + |trailer|] == closing
    requires close == p0 + |Joined(pieces, |pieces|)| + |trailer|
    ensures LaidAt(text, p0, pieces, close, closing, j)
  {
    var end := PieceEnd(pieces, p0, j);
    JoinedPlaced(text, p0, pieces, j + 1, |pieces|);
    PiecePlaced(text, p0, pieces, j);
    if j + 1 == |pieces| {
      SkipsRun(text, end, trailer);
      assert SkipSpaces(text, close) == close;
      if trailer != [] {
        assert text[end] == Piece(trailer, 0);
      }
    }
    SeparatorEnds(text[end]);
  }

  /** Item `j` of an indented list body, where it stands, is read back,
      and what follows it is a comma or whitespace up to `]`. */
  lemma {:induction false} LineItemAt(text: Text, p0: nat, pointer: Text, items: seq<Value>, pieces: seq<Text>,
                                       indent: nat, ls: Text, inner: int, close: nat, j: nat)
    requires j < |items| && WellFormed(items[j])
    requires AllSpaces(ls) && pieces == LineItems(items, indent, ls, inner)
    requires LaidAt(text, p0, pieces, close, CLOSE_BRACKET, j)
    ensures ItemInPlace(text, pointer, items, pieces, p0, close, j)
    decreases items, 0
  {
    var start, end := PieceStart(pieces, p0, j), PieceEnd(pieces, p0, j);
    LineItemPiece(items, j, indent, ls, inner);
    LineBreakSpaces(ls, inner);
    LineValueRead(text, start, end, pointer + [SLASH] + DecimalText(j), items[j], indent, ls, inner, ls + Spaces(inner), pieces[j]);
  }

  /** Every item of an indented list body is in place for the array loop. */
  lemma {:induction false} LineItemsPlaced(text: Text, p0: nat, pointer: Text, items: seq<Value>, pieces: seq<Text>,
                                            indent: nat, ls: Text, inner: int, trailer: Text)
    requires forall j :: 0 <= j < |items| ==> WellFormed(items[j])
    requires AllSpaces(ls) && AllSpaces(trailer) && pieces == LineItems(items, indent, ls, inner)
    requires var body := Joined(pieces, |pieces|);
      Holds(text, p0, body) && Holds(text, p0 + |body|, trailer)
      && p0 + |body| + |trailer| < |text| && text[p0 + |body| + |trailer|] == CLOSE_BRACKET
    ensures ItemsInPlace(text, pointer, items, pieces, p0, p0 + |Joined(pieces, |pieces|)| + |trailer|)
    decreases items, 1
  {
    var close := p0 + |Joined(pieces, |pieces|)| + |trailer|;
    forall j | 0 <= j < |items| {
      LineFollowed(text, p0, pieces, trailer, close, CLOSE_BRACKET, j);
    }
    forall j | 0 <= j < |items| {
      LineItemAt(text, p0, pointer, items, pieces, indent, ls, inner, close, j);
    }
  }

  /** A non-empty indented list, laid out as `IndentedListBody` states, is
      read back as the list. */
  lemma {:induction false} IndentedListRead(text: Text, start: nat, end: nat, pointer: Text, items: seq<Value>,
                                             indent: nat, ls: Text, current: int, piece: Text)
    requires items != [] && forall j :: 0 <= j < |items| ==> WellFormed(items[j])
    requires AllSpaces(ls)
    requires piece == [OPEN_BRACKET] + Joined(LineItems(items, indent, ls, current + indent), |items|) + (ls + Spaces(current)) + [CLOSE_BRACKET]
    requires end == start + |piece| && Holds(text, start, piece)
    ensures ValueAt(text, start, pointer) == Scanned(List(items), end)
    decreases items, 5
  {
    var pieces, trailer := LineItems(items, indent, ls, current + indent), ls + Spaces(current);
    LineBreakSpaces(ls, current);
    Enclosed(text, start, piece, OPEN_BRACKET, Joined(pieces, |items|), trailer, CLOSE_BRACKET);
    LineListOpens(text, start, pointer, items, pieces, indent, ls, current + indent);
    LineItemsBodyRead(text, start + 1, pointer, items, pieces, indent, ls, current + indent, trailer);
  }

  /** The array loop of an indented list starts just after its bracket:
      its first item, past a line break, is no closing bracket. */
  lemma {:induction false} LineListOpens(text: Text, start: nat, pointer: Text, items: seq<Value>, pieces: seq<Text>,
                                          indent: nat, ls: Text, inner: int)
    requires items != [] && WellFormed(items[0]) && AllSpaces(ls) && pieces == LineItems(items, indent, ls, inner)
    requires start < |text| && text[start] == OPEN_BRACKET && Holds(text, start + 1, Joined(pieces, |items|))
    ensures ValueAt(text, start, pointer) == ElementsAt(text, start + 1, pointer, [])
  {
    var p0 := start + 1;
    var ws, first := ls + Spaces(inner), Indented(ToNode(items[0]), indent, ls, inner);
    LineItemPiece(items, 0, indent, ls, inner);
    JoinedPlaced(text, p0, pieces, 1, |items|);
    PiecePlaced(text, p0, pieces, 0);
    HoldsConcat(text, p0, ws, first);
    LineBreakSpaces(ls, inner);
    IndentedOpens(items[0], indent, ls, inner);
    assert text[p0 + |ws|] == Piece(first, 0);
    SkipsTo(text, p0, ws);
    ArrayOpensBefore(text, start, pointer);
  }

  /** A non-empty indented list body, followed by whitespace and `]`, is
      read by the array loop, from its start on, as the whole list. */
  lemma {:induction false} LineItemsBodyRead(text: Text, p0: nat, pointer: Text, items: seq<Value>, pieces: seq<Text>,
                                              indent: nat, ls: Text, inner: int, trailer: Text)
    requires items != [] && forall j :: 0 <= j < |items| ==> WellFormed(items[j])
    requires AllSpaces(ls) && AllSpaces(trailer) && pieces == LineItems(items, indent, ls, inner)
    requires var body := Joined(pieces, |pieces|);
      Holds(text, p0, body) && Holds(text, p0 + |body|, trailer)
      && p0 + |body| + |trailer| < |text| && text[p0 + |body| + |trailer|] == CLOSE_BRACKET
    ensures ElementsAt(text, p0, pointer, []) == Scanned(List(items), p0 + |Joined(pieces, |pieces|)| + |trailer| + 1)
    decreases items, 2
  {
    LineItemsPlaced(text, p0, pointer, items, pieces, indent, ls, inner, trailer);
    ItemsInPlaceRead(text, pointer, items, pieces, p0, p0 + |Joined(pieces, |pieces|)| + |trailer|);
  }

  /** One indented entry, preceded by whitespace, is read back as the
      member, its key being new. */
  lemma {:induction false} LineMemberRead(text: Text, start: nat, end: nat, pointer: Text, members: seq<Member>, m: Member,
                                           indent: nat, ls: Text, inner: int, piece: Text)
    requires WellFormed(m.value) && m.key !in Keys(members) && AllSpaces(ls)
    requires piece == (ls + Spaces(inner)) + LineEntry(m, indent, inner, ls)
    requires end == start + |piece| && Holds(text, start, piece) && EndsElement(text, end)
    ensures MemberAt(text, start, pointer, members) == Scanned(m, end)
    decreases m.value, 7
  {
    var ws := ls + Spaces(inner);
    var pos := start + |ws|;
    HoldsConcat(text, start, ws, LineEntry(m, indent, inner, ls));
    LineBreakSpaces(ls, inner);
    LineEntryRead(text, pos, end, pointer, members, m, indent, ls, inner);
    SkipsTo(text, start, ws);
    MemberAtSkips(text, start, pos, pointer, members);
  }

  /** `"key": value` standing between `pos` and `end` is read back as the
      member, its key being new. */
  lemma {:induction false} LineEntryRead(text: Text, pos: nat, end: nat, pointer: Text, members: seq<Member>, m: Member,
                                          indent: nat, ls: Text, inner: int)
    requires WellFormed(m.value) && m.key !in Keys(members) && AllSpaces(ls)
    requires end == pos + |LineEntry(m, indent, inner, ls)| && Holds(text, pos, LineEntry(m, indent, inner, ls))
    requires EndsElement(text, end)
    ensures pos < |text| && text[pos] == QUOTE
    ensures MemberAt(text, pos, pointer, members) == Scanned(m, end)
    decreases m.value, 6
  {
    var colon := pos + |Quoted(m.key)|;
    LineEntryValue(text, pos, end, pointer, m, indent, ls, inner);
    QuotedDecodes(text, pos, pointer, m.key);
    MemberParts(text, pos, pointer, members, m.key, colon, m.value, end);
  }

  /** The key of an indented entry, where it stands, is followed by `:`,
      then by the value, which is read back. */
  lemma {:induction false} LineEntryValue(text: Text, pos: nat, end: nat, pointer: Text, m: Member,
                                           indent: nat, ls: Text, inner: int)
    requires WellFormed(m.value) && AllSpaces(ls)
    requires end == pos + |LineEntry(m, indent, inner, ls)| && Holds(text, pos, LineEntry(m, indent, inner, ls))
    requires EndsElement(text, end)
    ensures pos + |Quoted(m.key)| < end && Holds(text, pos, Quoted(m.key)) && text[pos + |Quoted(m.key)|] == COLON
    ensures ValueAt(text, pos + |Quoted(m.key)| + 1, pointer + [SLASH] + m.key) == Scanned(m.value, end)
    decreases m.value, 5
  {
    var q, c := Quoted(m.key), Indented(ToNode(m.value), indent, ls, inner);
    EntrySplit(text, pos, end, q, [SPACE] + c);
    assert AllSpaces([SPACE]);
    LineValueRead(text, pos + |q| + 1, end, pointer + [SLASH] + m.key, m.value, indent, ls, inner, [SPACE], [SPACE] + c);
  }

  /** Member `j` of an indented map body, where it stands, is read back,
      and what follows it is a comma or whitespace up to `}`. */
  lemma {:induction false} LineEntryAt(text: Text, p0: nat, pointer: Text, members: seq<Member>, pieces: seq<Text>,
                                        indent: nat, ls: Text, inner: int, close: nat, j: nat)
    requires j < |members| && WellFormed(members[j].value) && members[j].key !in Keys(members[..j])
    requires AllSpaces(ls) && pieces == LineMembers(members, indent, ls, inner)
    requires LaidAt(text, p0, pieces, close, CLOSE_BRACE, j)
    ensures MemberInPlace(text, pointer, members, pieces, p0, close, j)
    decreases members, 0
  {
    var start, end := PieceStart(pieces, p0, j), PieceEnd(pieces, p0, j);
    LineMemberPiece(members, j, indent, ls, inner);
    LineMemberRead(text, start, end, pointer, members[..j], members[j], indent, ls, inner, pieces[j]);
    MemberThere(text, pointer, members, pieces, p0, close, j, start, end);
  }

  /** Member `j`, read where piece `j` stands and followed as the object
      loop expects, is in place. */
  lemma {:induction false} MemberThere(text: Text, pointer: Text, members: seq<Member>, pieces: seq<Text>,
                                        p0: nat, close: nat, j: nat, start: nat, end: nat)
    requires j < |members| == |pieces| && start == PieceStart(pieces, p0, j) && end == PieceEnd(pieces, p0, j)
    requires start <= |text| && MemberAt(text, start, pointer, members[..j]) == Scanned(members[j], end)
    requires FollowedBy(text, end, j + 1 < |pieces|, close, CLOSE_BRACE)
    ensures MemberInPlace(text, pointer, members, pieces, p0, close, j)
  {
  }

  /** Every member of an indented map body with distinct keys is in place
      for the object loop. */
  lemma {:induction false} LineMembersPlaced(text: Text, p0: nat, pointer: Text, members: seq<Member>, pieces: seq<Text>,
                                              indent: nat, ls: Text, inner: int, trailer: Text)
    requires forall j :: 0 <= j < |members| ==> WellFormed(members[j].value) && members[j].key !in Keys(members[..j])
    requires AllSpaces(ls) && AllSpaces(trailer) && pieces == LineMembers(members, indent, ls, inner)
    requires var body := Joined(pieces, |pieces|);
      Holds(text, p0, body) && Holds(text, p0 + |body|, trailer)
      && p0 + |body| + |trailer| < |text| && text[p0 + |body| + |trailer|] == CLOSE_BRACE
    ensures MembersInPlace(text, pointer, members, pieces, p0, p0 + |Joined(pieces, |pieces|)| + |trailer|)
    decreases members, 1
  {
    var close := p0 + |Joined(pieces, |pieces|)| + |trailer|;
    forall j | 0 <= j < |members| {
      LineFollowed(text, p0, pieces, trailer, close, CLOSE_BRACE, j);
    }
    forall j | 0 <= j < |members| {
      LineEntryAt(text, p0, pointer, members, pieces, indent, ls, inner, close, j);
    }
  }

  /** A non-empty indented map with distinct keys, laid out as
      `IndentedMapBody` states, is read back as the map. */
  lemma {:induction false} IndentedMapRead(text: Text, start: nat, end: nat, pointer: Text, members: seq<Member>,
                                            indent: nat, ls: Text, current: int, piece: Text)
    requires members != [] && WellFormedMembers(members)
    requires AllSpaces(ls)
    requires piece == [OPEN_BRACE] + Joined(LineMembers(members, indent, ls, current + indent), |members|) + (ls + Spaces(current)) + [CLOSE_BRACE]
    requires end == start + |piece| && Holds(text, start, piece)
    ensures ValueAt(text, start, pointer) == Scanned(Map(members), end)
    decreases members, 5
  {
    var pieces, trailer := LineMembers(members, indent, ls, current + indent), ls + Spaces(current);
    LineBreakSpaces(ls, current);
    Enclosed(text, start, piece, OPEN_BRACE, Joined(pieces, |members|), trailer, CLOSE_BRACE);
    LineMapOpens(text, start, pointer, members, pieces, indent, ls, current + indent);
    LineMembersBodyRead(text, start + 1, pointer, members, pieces, indent, ls, current + indent, trailer);
  }

  /** The object loop of an indented map starts just after its brace:
      its first key, past a line break, is no closing brace. */
  lemma {:induction false} LineMapOpens(text: Text, start: nat, pointer: Text, members: seq<Member>, pieces: seq<Text>,
                                         indent: nat, ls: Text, inner: int)
    requires members != [] && AllSpaces(ls) && pieces == LineMembers(members, indent, ls, inner)
    requires start < |text| && text[start] == OPEN_BRACE && Holds(text, start + 1, Joined(pieces, |members|))
    ensures ValueAt(text, start, pointer) == MembersAt(text, start + 1, pointer, [])
  {
    var p0 := start + 1;
    var ws, first := ls + Spaces(inner), LineEntry(members[0], indent, inner, ls);
    LineMemberPiece(members, 0, indent, ls, inner);
    JoinedPlaced(text, p0, pieces, 1, |members|);
    PiecePlaced(text, p0, pieces, 0);
    HoldsConcat(text, p0, ws, first);
    LineBreakSpaces(ls, inner);
    assert first[0] == QUOTE;
    assert text[p0 + |ws|] == Piece(first, 0);
    SkipsTo(text, p0, ws);
    ObjectOpensBefore(text, start, pointer);
  }

  /** A non-empty indented map body whose keys are new one after the
      other, followed by whitespace and `}`, is read by the object loop,
      from its start on, as the whole map. */
  lemma {:induction false} LineMembersBodyRead(text: Text, p0: nat, pointer: Text, members: seq<Member>, pieces: seq<Text>,
                                                indent: nat, ls: Text, inner: int, trailer: Text)
    requires members != [] && WellFormedMembers(members)
    requires AllSpaces(ls) && AllSpaces(trailer) && pieces == LineMembers(members, indent, ls, inner)
    requires var body := Joined(pieces, |pieces|);
      Holds(text, p0, body) && Holds(text, p0 + |body|, trailer)
      && p0 + |body| + |trailer| < |text| && text[p0 + |body| + |trailer|] == CLOSE_BRACE
    ensures MembersAt(text, p0, pointer, []) == Scanned(Map(members), p0 + |Joined(pieces, |pieces|)| + |trailer| + 1)
    decreases members, 2
  {
    MembersReady(members);
    LineMembersPlaced(text, p0, pointer, members, pieces, indent, ls, inner, trailer);
    MembersInPlaceRead(text, pointer, members, pieces, p0, p0 + |Joined(pieces, |pieces|)| + |trailer|);
  }

  // ---------------------------------------------------------------------
  // Whole documents
  // ---------------------------------------------------------------------

  /** `parse(output)` of what `formatTo` writes for every value the parser
      can return is that value, whatever the indent and the starting
      indent, when the line separator is JSON whitespace. */
  lemma {:induction false} IndentedRoundTrip(v: Value, indent: nat, ls: Text, current: int)
    requires WellFormed(v) && forall k :: 0 <= k < |ls| ==> IsSpaceCharacter(ls[k])
    ensures Document(Indented(ToNode(v), indent, ls, current)) == Success(v)
  {
    var t := Indented(ToNode(v), indent, ls, current);
    HoldsWhole(t);
    IndentedValueRead(t, 0, |t|, ROOT_POINTER, v, indent, ls, current, t);
    assert SkipSpaces(t, |t|) == |t|;
  }
}
