/** What the parser promises, proved about the functions that state what it
 *  computes: the number grammar of RFC 8259 section 6 and the width buckets
 *  of integers, the decoding of strings, the JSON Pointer of every error,
 *  and the shape of every value the parser returns.
 */
module ParserProperties {
  import opened Wrappers
  import opened CodeUnits
  import opened JsonValue
  import opened ParseExceptions
  import opened Parser

  // ---------------------------------------------------------------------
  // Error pointers
  // ---------------------------------------------------------------------

  /** The errors the string decoder raises. */
  predicate IsStringReason(why: Reason)
  {
    why == UnterminatedString || why == IllegalChar || why == IllegalUnicodeSequence || why == IllegalEscapeSequence
  }

  /** The errors raised at an object's own pointer: those of the member
      syntax, and those of reading a key. */
  predicate IsObjectReason(why: Reason)
  {
    why == IllegalKey || why == DuplicateKey || why == MissingColon || why == MissingClosingBrace || IsStringReason(why)
  }

  /** Some member value, under a key not among `members`, fails with `why`
      at `at`. */
  ghost predicate MemberValueFails(text: Text, pointer: Text, members: seq<Member>, why: Reason, at: Text)
  {
    exists q: nat, key: Text :: q <= |text| && key !in Keys(members)
      && ValueAt(text, q, pointer + [SLASH] + key) == Failed(why, at)
  }

  /** Some element, of index `|items|` or more, fails with `why` at `at`. */
  ghost predicate ElementFails(text: Text, pointer: Text, items: seq<Value>, why: Reason, at: Text)
  {
    exists q: nat, i: nat :: q <= |text| && |items| <= i
      && ValueAt(text, q, pointer + [SLASH] + DecimalText(i)) == Failed(why, at)
  }

  /** A string fails at the pointer it is read at, with one of the string
      errors. */
  lemma {:induction false} StringErrorPointer(text: Text, pos: nat, pointer: Text, sb: Text)
    requires pos <= |text|
    ensures StringAt(text, pos, pointer, sb).Failed? ==> StringAt(text, pos, pointer, sb).pointer == pointer
    ensures StringAt(text, pos, pointer, sb).Failed? ==> IsStringReason(StringAt(text, pos, pointer, sb).reason)
    decreases |text| - pos
  {
    if pos < |text| {
      var ch := text[pos];
      if ch == BACKSLASH && pos + 1 < |text| {
        var esc := text[pos + 1];
        if IsShortEscape(esc) {
          StringErrorPointer(text, pos + 2, pointer, sb + [ShortEscapeValue(esc)]);
        } else if esc == LOWER_U && HexAt(text, pos + 2) {
          StringErrorPointer(text, pos + 6, pointer, sb + [HexValue(text, pos + 2)]);
        }
      } else if ch != QUOTE && ch != BACKSLASH && ch >= 0x20 {
        StringErrorPointer(text, pos + 1, pointer, sb + [ch]);
      }
    }
  }

  /** Every error inside an element is reported at a pointer that extends
      the element's own pointer: the path from the root down to the element
      being read when the parse ended. */
  lemma {:induction false} ValueErrorPointer(text: Text, pos: nat, pointer: Text)
    requires pos <= |text|
    ensures ValueAt(text, pos, pointer).Failed? ==> pointer <= ValueAt(text, pos, pointer).pointer
    decreases |text| - pos, 1
  {
    var p := SkipSpaces(text, pos);
    if At(text, p, OPEN_BRACE) {
      ObjectErrorPointer(text, p + 1, pointer);
    } else if At(text, p, OPEN_BRACKET) {
      ArrayErrorPointer(text, p + 1, pointer);
    } else if At(text, p, QUOTE) {
      StringErrorPointer(text, p + 1, pointer, []);
    }
  }

  /** A key not among those of `members + [m]` is not among those of
      `members`. */
  lemma {:induction false} KeysGrow(members: seq<Member>, m: Member, key: Text)
    requires key !in Keys(members + [m])
    ensures key !in Keys(members)
  {
    forall k | 0 <= k < |members|
      ensures Keys(members)[k] != key
    {
      assert Keys(members + [m])[k] == members[k].key;
    }
  }

  /** A failing value read under a new key is a member value failure, at a
      pointer below the object's. */
  lemma {:induction false} ValueFailsUnderKey(text: Text, q: nat, pointer: Text, members: seq<Member>, key: Text)
    requires q <= |text| && key !in Keys(members) && ValueAt(text, q, pointer + [SLASH] + key).Failed?
    requires pointer + [SLASH] + key <= ValueAt(text, q, pointer + [SLASH] + key).pointer
    ensures var r := ValueAt(text, q, pointer + [SLASH] + key);
      pointer <= r.pointer && MemberValueFails(text, pointer, members, r.reason, r.pointer)
  {
    var child := pointer + [SLASH] + key;
    var at := ValueAt(text, q, child).pointer;
    assert child <= at;
    assert at[..|pointer|] == child[..|pointer|] == pointer;
  }

  /** An object fails either at its own pointer, with a member-syntax or
      key error, or inside the value of one of its members, at the pointer
      that value was read with. */
  lemma {:induction false} ObjectErrorPointer(text: Text, start: nat, pointer: Text)
    requires start <= |text|
    ensures ObjectAt(text, start, pointer).Failed? ==> pointer <= ObjectAt(text, start, pointer).pointer
    ensures var r := ObjectAt(text, start, pointer);
      r.Failed? ==> (r.pointer == pointer && IsObjectReason(r.reason)) || MemberValueFails(text, pointer, [], r.reason, r.pointer)
    decreases |text| - start, 4
  {
    if !At(text, SkipSpaces(text, start), CLOSE_BRACE) {
      MembersErrorPointer(text, start, pointer, []);
    }
  }

  /** One member fails at the object's pointer (a missing quote, a bad key
      string, a repeated key or a missing colon), or inside its value, read
      at `pointer/key` for a key not read before. */
  lemma {:induction false} MemberErrorPointer(text: Text, pos: nat, pointer: Text, members: seq<Member>)
    requires pos <= |text|
    ensures MemberAt(text, pos, pointer, members).Failed? ==> pointer <= MemberAt(text, pos, pointer, members).pointer
    ensures var r := MemberAt(text, pos, pointer, members);
      r.Failed? ==> (r.pointer == pointer && IsObjectReason(r.reason)) || MemberValueFails(text, pointer, members, r.reason, r.pointer)
    decreases |text| - pos, 2
  {
    var p := SkipSpaces(text, pos);
    if At(text, p, QUOTE) {
      StringErrorPointer(text, p + 1, pointer, []);
      match StringAt(text, p + 1, pointer, [])
      case Failed(_, _) =>
      case Scanned(key, afterKey) =>
        var colon := SkipSpaces(text, afterKey);
        if key !in Keys(members) && At(text, colon, COLON) {
          ValueErrorPointer(text, colon + 1, pointer + [SLASH] + key);
          if ValueAt(text, colon + 1, pointer + [SLASH] + key).Failed? {
            ValueFailsUnderKey(text, colon + 1, pointer, members, key);
          }
        }
    }
  }

  /** The member loop fails at the object's pointer, or inside the value of
      a member not yet read. */
  lemma {:induction false} MembersErrorPointer(text: Text, pos: nat, pointer: Text, members: seq<Member>)
    requires pos <= |text|
    ensures MembersAt(text, pos, pointer, members).Failed? ==> pointer <= MembersAt(text, pos, pointer, members).pointer
    ensures var r := MembersAt(text, pos, pointer, members);
      r.Failed? ==> (r.pointer == pointer && IsObjectReason(r.reason)) || MemberValueFails(text, pointer, members, r.reason, r.pointer)
    decreases |text| - pos, 3
  {
    MemberErrorPointer(text, pos, pointer, members);
    match MemberAt(text, pos, pointer, members)
    case Failed(_, _) =>
    case Scanned(m, afterValue) =>
      var q := SkipSpaces(text, afterValue);
      if At(text, q, COMMA) {
        var r := MembersAt(text, q + 1, pointer, members + [m]);
        MembersErrorPointer(text, q + 1, pointer, members + [m]);
        if r.Failed? && !(r.pointer == pointer && IsObjectReason(r.reason)) {
          var q': nat, key: Text :| q' <= |text| && key !in Keys(members + [m])
            && ValueAt(text, q', pointer + [SLASH] + key) == Failed(r.reason, r.pointer);
          KeysGrow(members, m, key);
        }
      }
  }

  /** An array fails at its own pointer with a missing `]`, or inside one of
      its elements, at the pointer that element was read with. */
  lemma {:induction false} ArrayErrorPointer(text: Text, start: nat, pointer: Text)
    requires start <= |text|
    ensures ArrayAt(text, start, pointer).Failed? ==> pointer <= ArrayAt(text, start, pointer).pointer
    ensures var r := ArrayAt(text, start, pointer);
      r.Failed? ==> (r.pointer == pointer && r.reason == MissingClosingBracket) || ElementFails(text, pointer, [], r.reason, r.pointer)
    decreases |text| - start, 3
  {
    var q := SkipSpaces(text, start);
    if !At(text, q, CLOSE_BRACKET) {
      ElementsErrorPointer(text, q, pointer, []);
    }
  }

  /** The element loop fails at the array's pointer with a missing `]`, or
      inside an element of index `|items|` or more, read at `pointer/index`. */
  lemma {:induction false} ElementsErrorPointer(text: Text, pos: nat, pointer: Text, items: seq<Value>)
    requires pos <= |text|
    ensures ElementsAt(text, pos, pointer, items).Failed? ==> pointer <= ElementsAt(text, pos, pointer, items).pointer
    ensures var r := ElementsAt(text, pos, pointer, items);
      r.Failed? ==> (r.pointer == pointer && r.reason == MissingClosingBracket) || ElementFails(text, pointer, items, r.reason, r.pointer)
    decreases |text| - pos, 2
  {
    var child := pointer + [SLASH] + DecimalText(|items|);
    ValueErrorPointer(text, pos, child);
    match ValueAt(text, pos, child)
    case Failed(why, at) =>
      assert ValueAt(text, pos, pointer + [SLASH] + DecimalText(|items|)) == Failed(why, at);
    case Scanned(v, afterValue) =>
      var q := SkipSpaces(text, afterValue);
      if At(text, q, COMMA) {
        var r := ElementsAt(text, q + 1, pointer, items + [v]);
        ElementsErrorPointer(text, q + 1, pointer, items + [v]);
        if r.Failed? && !(r.pointer == pointer && r.reason == MissingClosingBracket) {
          var q': nat, i: nat :| q' <= |text| && |items + [v]| <= i
            && ValueAt(text, q', pointer + [SLASH] + DecimalText(i)) == Failed(r.reason, r.pointer);
          assert |items| <= i;
        }
      }
  }

  // ---------------------------------------------------------------------
  // One turn of the array and object loops
  // ---------------------------------------------------------------------

  /** `[]` is the empty list. */
  lemma {:induction false} EmptyArrayAt(text: Text, pos: nat, pointer: Text)
    requires pos + 1 < |text| && text[pos] == OPEN_BRACKET && text[pos + 1] == CLOSE_BRACKET
    ensures ValueAt(text, pos, pointer) == Scanned(List([]), pos + 2)
  {
    assert SkipSpaces(text, pos) == pos && SkipSpaces(text, pos + 1) == pos + 1;
  }

  /** `[` followed by something that is neither a space nor `]`: the
      array loop starts there. */
  lemma {:induction false} ArrayOpensAt(text: Text, pos: nat, pointer: Text)
    requires pos + 1 < |text| && text[pos] == OPEN_BRACKET
    requires text[pos + 1] != CLOSE_BRACKET && !IsSpaceCharacter(text[pos + 1])
    ensures ValueAt(text, pos, pointer) == ElementsAt(text, pos + 1, pointer, [])
  {
    assert SkipSpaces(text, pos) == pos && SkipSpaces(text, pos + 1) == pos + 1;
  }

  /** `{}` is the empty map. */
  lemma {:induction false} EmptyObjectAt(text: Text, pos: nat, pointer: Text)
    requires pos + 1 < |text| && text[pos] == OPEN_BRACE && text[pos + 1] == CLOSE_BRACE
    ensures ValueAt(text, pos, pointer) == Scanned(Map([]), pos + 2)
  {
    assert SkipSpaces(text, pos) == pos && SkipSpaces(text, pos + 1) == pos + 1;
  }

  /** `{` followed by something that is neither a space nor `}`: the
      object loop starts there. */
  lemma {:induction false} ObjectOpensAt(text: Text, pos: nat, pointer: Text)
    requires pos + 1 < |text| && text[pos] == OPEN_BRACE
    requires text[pos + 1] != CLOSE_BRACE && !IsSpaceCharacter(text[pos + 1])
    ensures ValueAt(text, pos, pointer) == MembersAt(text, pos + 1, pointer, [])
  {
    assert SkipSpaces(text, pos) == pos && SkipSpaces(text, pos + 1) == pos + 1;
  }

  /** An element followed by a comma: the loop goes on with it appended. */
  lemma {:induction false} ElementThenComma(text: Text, pos: nat, pointer: Text, items: seq<Value>, v: Value, e: nat, grown: seq<Value>)
    requires pos <= |text| && e < |text| && text[e] == COMMA && grown == items + [v]
    requires ValueAt(text, pos, pointer + [SLASH] + DecimalText(|items|)) == Scanned(v, e)
    ensures ElementsAt(text, pos, pointer, items) == ElementsAt(text, e + 1, pointer, grown)
  {
    assert SkipSpaces(text, e) == e;
  }

  /** An element followed by whitespace, if any, and `]` at `c`: the array
      ends with it. */
  lemma {:induction false} ElementThenClose(text: Text, pos: nat, pointer: Text, items: seq<Value>, v: Value, e: nat, c: nat)
    requires pos <= |text| && e <= |text| && SkipSpaces(text, e) == c && c < |text| && text[c] == CLOSE_BRACKET
    requires ValueAt(text, pos, pointer + [SLASH] + DecimalText(|items|)) == Scanned(v, e)
    ensures ElementsAt(text, pos, pointer, items) == Scanned(List(items + [v]), c + 1)
  {
  }

  /** A member followed by a comma: the loop goes on with it appended. */
  lemma {:induction false} MemberThenComma(text: Text, pos: nat, pointer: Text, members: seq<Member>, m: Member, e: nat, grown: seq<Member>)
    requires pos <= |text| && e < |text| && text[e] == COMMA && grown == members + [m]
    requires MemberAt(text, pos, pointer, members) == Scanned(m, e)
    ensures MembersAt(text, pos, pointer, members) == MembersAt(text, e + 1, pointer, grown)
  {
    assert SkipSpaces(text, e) == e;
  }

  /** A member followed by whitespace, if any, and `}` at `c`: the object
      ends with it. */
  lemma {:induction false} MemberThenClose(text: Text, pos: nat, pointer: Text, members: seq<Member>, m: Member, e: nat, c: nat)
    requires pos <= |text| && e <= |text| && SkipSpaces(text, e) == c && c < |text| && text[c] == CLOSE_BRACE
    requires MemberAt(text, pos, pointer, members) == Scanned(m, e)
    ensures MembersAt(text, pos, pointer, members) == Scanned(Map(members + [m]), c + 1)
  {
  }

  /** A member whose quoted key, colon and value stand at `pos`, the key
      being new: it is read whole. */
  lemma {:induction false} MemberParts(text: Text, pos: nat, pointer: Text, members: seq<Member>, key: Text, colon: nat, v: Value, e: nat)
    requires pos < |text| && text[pos] == QUOTE
    requires StringAt(text, pos + 1, pointer, []) == Scanned(key, colon)
    requires key !in Keys(members) && colon < |text| && text[colon] == COLON
    requires ValueAt(text, colon + 1, pointer + [SLASH] + key) == Scanned(v, e)
    ensures MemberAt(text, pos, pointer, members) == Scanned(Member(key, v), e)
  {
    assert SkipSpaces(text, pos) == pos && SkipSpaces(text, colon) == colon;
  }

  // ---------------------------------------------------------------------
  // Numbers (section 6 of RFC 8259)
  // ---------------------------------------------------------------------

  /** A number literal split as the grammar of RFC 8259 section 6 splits it:
      `[ minus ] int [ frac ] [ exp ]`, an absent part being empty. */
  datatype NumberParts = NumberParts(negative: bool, intPart: Text, frac: Text, exp: Text)

  /** `int = zero / ( digit1-9 *DIGIT )` */
  predicate IsIntPart(s: Text)
  {
    |s| >= 1 && AllDigits(s) && (|s| > 1 ==> s[0] != DIGIT_ZERO)
  }

  /** `frac = decimal-point 1*DIGIT`, or absent. */
  predicate IsFracPart(s: Text)
  {
    s == [] || (|s| >= 2 && s[0] == DOT && AllDigits(s[1..]))
  }

  /** `exp = e [ minus / plus ] 1*DIGIT`, or absent. */
  predicate IsExpPart(s: Text)
  {
    s == [] ||
    (|s| >= 2 && (s[0] == LOWER_E || s[0] == UPPER_E) &&
     if s[1] == MINUS || s[1] == PLUS then |s| >= 3 && AllDigits(s[2..]) else AllDigits(s[1..]))
  }

  predicate ValidNumber(n: NumberParts)
  {
    IsIntPart(n.intPart) && IsFracPart(n.frac) && IsExpPart(n.exp)
  }

  function NumberText(n: NumberParts): Text
  {
    if n.negative then [MINUS] + n.intPart + n.frac + n.exp else n.intPart + n.frac + n.exp
  }

  /** The value the source promises for a literal: an integer (no fraction,
      no exponent) goes by its mathematical value into the narrowest of
      `Integer` and `Long` that holds it, and everything else, including an
      integer too wide for a `long`, is a `BigDecimal` of the exact text. */
  function NumberValue(n: NumberParts): (v: Value)
    requires ValidNumber(n)
  {
    if n.frac == [] && n.exp == [] then
      var magnitude: int := DigitsValue(n.intPart);
      var m := if n.negative then -magnitude else magnitude;
      if IsInt32(m) then Integer(m) else if IsInt64(m) then Long(m) else BigDecimal(NumberText(n))
    else BigDecimal(NumberText(n))
  }

  /** A code unit that would extend a number literal if it followed it. */
  predicate ContinuesNumber(ch: CodeUnit)
  {
    IsDigit(ch) || ch == DOT || ch == LOWER_E || ch == UPPER_E
  }

  /** The fraction `FractionEnd` measures is one the grammar allows. */
  lemma {:induction false} FractionEndIsFrac(text: Text, intEnd: nat)
    requires intEnd <= |text| && FractionEnd(text, intEnd).Some?
    ensures IsFracPart(text[intEnd..FractionEnd(text, intEnd).value])
  {
    var fracEnd := FractionEnd(text, intEnd).value;
    if fracEnd != intEnd {
      DigitRunIsLongest(text, intEnd + 1);
      assert text[intEnd..fracEnd][1..] == text[intEnd + 1..fracEnd];
    }
  }

  /** The exponent `ExponentEnd` measures is one the grammar allows. */
  lemma {:induction false} ExponentEndIsExp(text: Text, fracEnd: nat)
    requires fracEnd <= |text| && ExponentEnd(text, fracEnd).Some?
    ensures IsExpPart(text[fracEnd..ExponentEnd(text, fracEnd).value])
  {
    var end := ExponentEnd(text, fracEnd).value;
    if end != fracEnd {
      var digits := ExponentDigits(text, fracEnd);
      DigitRunIsLongest(text, digits);
      var e := text[fracEnd..end];
      if digits == fracEnd + 2 {
        assert e[2..] == text[digits..end];
      } else {
        assert e[1..] == text[digits..end];
      }
    }
  }

  /** Everything the number branch accepts is a literal of the grammar, and
      the value it returns is the one that literal denotes. */
  lemma {:induction false} NumberAtFollowsGrammar(text: Text, start: nat, pointer: Text)
    requires start <= |text|
    requires NumberAt(text, start, pointer).Scanned?
    ensures var r := NumberAt(text, start, pointer);
      exists n :: ValidNumber(n) && NumberText(n) == text[start..r.next] && NumberValue(n) == r.value
  {
    var negative := At(text, start, MINUS);
    var intStart := if negative then start + 1 else start;
    var intEnd := DigitRun(text, intStart);
    DigitRunIsLongest(text, intStart);
    var fracEnd := FractionEnd(text, intEnd).value;
    FractionEndIsFrac(text, intEnd);
    var end := ExponentEnd(text, fracEnd).value;
    ExponentEndIsExp(text, fracEnd);
    var n := NumberParts(negative, text[intStart..intEnd], text[intEnd..fracEnd], text[fracEnd..end]);
    JoinNumberSlices(text, start, intStart, intEnd, fracEnd, end, n);
    NumberAtBoundaries(text, start, pointer, intEnd, fracEnd, end);
    LiteralValueDenotes(text, start, intStart, intEnd, fracEnd, end, n);
  }

  /** The slices between the ends of the parts of a literal make up its text. */
  lemma {:induction false} JoinNumberSlices(text: Text, start: nat, intStart: nat, intEnd: nat, fracEnd: nat, end: nat, n: NumberParts)
    requires start <= intStart <= intEnd <= fracEnd <= end <= |text|
    requires intStart == (if n.negative then start + 1 else start)
    requires n.negative ==> text[start] == MINUS
    requires n == NumberParts(n.negative, text[intStart..intEnd], text[intEnd..fracEnd], text[fracEnd..end])
    ensures text[start..end] == NumberText(n)
  {
    assert text[intStart..end] == text[intStart..intEnd] + text[intEnd..fracEnd] + text[fracEnd..end];
    if n.negative {
      assert text[start..end] == [MINUS] + text[intStart..end];
    }
  }

  /** The text of a literal, found at `start`, splits into its parts. */
  lemma {:induction false} SplitNumberSlices(text: Text, start: nat, intStart: nat, intEnd: nat, fracEnd: nat, end: nat, n: NumberParts)
    requires intStart == (if n.negative then start + 1 else start)
    requires intEnd == intStart + |n.intPart| && fracEnd == intEnd + |n.frac| && end == fracEnd + |n.exp|
    requires end <= |text| && text[start..end] == NumberText(n)
    ensures n.negative ==> text[start] == MINUS
    ensures text[intStart..intEnd] == n.intPart && text[intEnd..fracEnd] == n.frac && text[fracEnd..end] == n.exp
  {
    var tail := n.frac + n.exp;
    var rest := n.intPart + tail;
    if n.negative {
      assert NumberText(n) == [MINUS] + rest;
      SplitSlice(text, start, intStart, end, [MINUS], rest);
      assert text[start] == text[start..intStart][0];
    } else {
      assert NumberText(n) == rest;
    }
    SplitSlice(text, intStart, intEnd, end, n.intPart, tail);
    SplitSlice(text, intEnd, fracEnd, end, n.frac, n.exp);
  }

  /** A digit run between `a` and `b` that no digit follows is exactly what
      `DigitRun` finds at `a`. */
  lemma {:induction false} DigitRunReaches(text: Text, a: nat, b: nat)
    requires a <= b <= |text| && AllDigits(text[a..b])
    requires b == |text| || !IsDigit(text[b])
    ensures DigitRun(text, a) == b
    decreases b - a
  {
    if a < b {
      assert IsDigit(text[a..b][0]);
      assert text[a + 1..b] == text[a..b][1..];
      DigitRunReaches(text, a + 1, b);
    }
  }

  /** A fraction of the grammar placed at `intEnd` is what `FractionEnd`
      measures there. */
  lemma {:induction false} FractionEndReaches(text: Text, intEnd: nat, fracEnd: nat, frac: Text)
    requires intEnd <= fracEnd <= |text| && text[intEnd..fracEnd] == frac && IsFracPart(frac)
    requires fracEnd == |text| || !IsDigit(text[fracEnd])
    requires frac == [] ==> !At(text, intEnd, DOT)
    ensures FractionEnd(text, intEnd) == Some(fracEnd)
  {
    if frac != [] {
      assert text[intEnd] == frac[0];
      assert text[intEnd + 1..fracEnd] == frac[1..];
      DigitRunReaches(text, intEnd + 1, fracEnd);
    }
  }

  /** An exponent of the grammar placed at `fracEnd` is what `ExponentEnd`
      measures there. */
  lemma {:induction false} ExponentEndReaches(text: Text, fracEnd: nat, end: nat, exp: Text)
    requires fracEnd <= end <= |text| && text[fracEnd..end] == exp && IsExpPart(exp)
    requires end == |text| || !IsDigit(text[end])
    requires exp == [] ==> !(At(text, fracEnd, LOWER_E) || At(text, fracEnd, UPPER_E))
    ensures ExponentEnd(text, fracEnd) == Some(end)
  {
    if exp != [] {
      assert text[fracEnd] == exp[0] && text[fracEnd + 1] == exp[1];
      var digits := ExponentDigits(text, fracEnd);
      assert text[digits..end] == exp[digits - fracEnd..];
      DigitRunReaches(text, digits, end);
    }
  }

  /** Splitting a slice that is a concatenation. */
  lemma {:induction false} SplitSlice(text: Text, a: nat, b: nat, c: nat, x: Text, y: Text)
    requires a <= b <= c <= |text| && text[a..c] == x + y && |x| == b - a
    ensures text[a..b] == x && text[b..c] == y
  {
    assert text[a..b] == text[a..c][..|x|];
    assert text[b..c] == text[a..c][|x|..];
  }

  /** Every literal of the grammar is accepted, up to its last unit, when
      what follows it cannot extend it, and its value is the one it denotes.
      With `NumberAtFollowsGrammar` this makes the grammar the exact
      description of the number branch. */
  lemma {:induction false} NumberGrammarAccepted(text: Text, start: nat, pointer: Text, n: NumberParts)
    requires ValidNumber(n)
    requires start + |NumberText(n)| <= |text| && text[start..start + |NumberText(n)|] == NumberText(n)
    requires start + |NumberText(n)| == |text| || !ContinuesNumber(text[start + |NumberText(n)|])
    ensures NumberAt(text, start, pointer) == Scanned(NumberValue(n), start + |NumberText(n)|)
  {
    var intStart := if n.negative then start + 1 else start;
    var intEnd := intStart + |n.intPart|;
    var fracEnd := intEnd + |n.frac|;
    var end := fracEnd + |n.exp|;
    assert |NumberText(n)| == end - start;
    assert end <= |text| && text[start..end] == NumberText(n);
    SplitNumberSlices(text, start, intStart, intEnd, fracEnd, end, n);
    NumberPartsPlaced(text, start, intStart, intEnd, fracEnd, end, n);
    NumberAtBoundaries(text, start, pointer, intEnd, fracEnd, end);
    LiteralValueDenotes(text, start, intStart, intEnd, fracEnd, end, n);
  }

  /** Where the scanning functions stop on a literal of the grammar whose
      parts lie at the given positions. */
  lemma {:induction false} NumberPartsPlaced(text: Text, start: nat, intStart: nat, intEnd: nat, fracEnd: nat, end: nat, n: NumberParts)
    requires ValidNumber(n)
    requires intStart == (if n.negative then start + 1 else start)
    requires intStart <= intEnd <= fracEnd <= end <= |text|
    requires n.negative ==> text[start..intStart] == [MINUS]
    requires text[intStart..intEnd] == n.intPart && text[intEnd..fracEnd] == n.frac && text[fracEnd..end] == n.exp
    requires end == |text| || !ContinuesNumber(text[end])
    ensures At(text, start, MINUS) == n.negative
    ensures DigitRun(text, intStart) == intEnd
    ensures FractionEnd(text, intEnd) == Some(fracEnd)
    ensures ExponentEnd(text, fracEnd) == Some(end)
  {
    SignPlaced(text, start, intStart, intEnd, n.negative, n.intPart);
    NumberTailBoundaries(text, intEnd, fracEnd, end, n.frac, n.exp);
    DigitRunReaches(text, intStart, intEnd);
    FractionEndReaches(text, intEnd, fracEnd, n.frac);
    ExponentEndReaches(text, fracEnd, end, n.exp);
  }

  /** The `-` of a literal is there exactly when the literal is negative. */
  lemma {:induction false} SignPlaced(text: Text, start: nat, intStart: nat, intEnd: nat, negative: bool, intPart: Text)
    requires intStart == (if negative then start + 1 else start)
    requires intStart < intEnd <= |text| && text[intStart..intEnd] == intPart && IsIntPart(intPart)
    requires negative ==> text[start..intStart] == [MINUS]
    ensures At(text, start, MINUS) == negative
  {
    if negative {
      assert text[start] == text[start..intStart][0];
    } else {
      assert text[start] == intPart[0];
    }
  }

  /** What follows each part of a literal of the grammar, when what follows
      the literal cannot extend it. */
  lemma {:induction false} NumberTailBoundaries(text: Text, intEnd: nat, fracEnd: nat, end: nat, frac: Text, exp: Text)
    requires intEnd <= fracEnd <= end <= |text|
    requires text[intEnd..fracEnd] == frac && text[fracEnd..end] == exp
    requires IsFracPart(frac) && IsExpPart(exp)
    requires end == |text| || !ContinuesNumber(text[end])
    ensures intEnd == |text| || !IsDigit(text[intEnd])
    ensures frac == [] ==> !At(text, intEnd, DOT)
    ensures fracEnd == |text| || !IsDigit(text[fracEnd])
    ensures exp == [] ==> !(At(text, fracEnd, LOWER_E) || At(text, fracEnd, UPPER_E))
    ensures end == |text| || !IsDigit(text[end])
  {
    if exp != [] {
      assert text[fracEnd] == exp[0];
    }
    if frac != [] {
      assert text[intEnd] == frac[0];
    } else if exp != [] {
      assert text[intEnd] == exp[0];
    }
  }

  /** `NumberAt` once the ends of the integer digits, the fraction and the
      exponent are known. */
  lemma {:induction false} NumberAtBoundaries(text: Text, start: nat, pointer: Text, intEnd: nat, fracEnd: nat, end: nat)
    requires start <= |text|
    requires var intStart := if At(text, start, MINUS) then start + 1 else start;
      && DigitRun(text, intStart) == intEnd && intEnd > intStart
      && !(intEnd - intStart > 1 && text[intStart] == DIGIT_ZERO) && AllDigits(text[intStart..intEnd])
    requires FractionEnd(text, intEnd) == Some(fracEnd) && ExponentEnd(text, fracEnd) == Some(end)
    ensures var intStart := if At(text, start, MINUS) then start + 1 else start;
      NumberAt(text, start, pointer) == Scanned(LiteralValue(text, start, end, At(text, start, MINUS), intStart, intEnd), end)
  {
  }

  /** The object `LiteralValue` builds for a literal of the grammar is the
      one the literal denotes. */
  lemma {:induction false} LiteralValueDenotes(text: Text, start: nat, intStart: nat, intEnd: nat, fracEnd: nat, end: nat, n: NumberParts)
    requires ValidNumber(n)
    requires start <= intStart <= intEnd <= fracEnd <= end <= |text|
    requires text[intStart..intEnd] == n.intPart && text[start..end] == NumberText(n)
    requires fracEnd - intEnd == |n.frac| && end - fracEnd == |n.exp|
    ensures LiteralValue(text, start, end, n.negative, intStart, intEnd) == NumberValue(n)
  {
  }

  /** `NumberAt` yields the value the grammar assigns to every literal. */
  lemma {:induction false} NumberValueWellFormed(n: NumberParts)
    requires ValidNumber(n)
    ensures WellFormed(NumberValue(n))
  {
    if NumberValue(n).BigDecimal? {
      assert NumberText(n) == NumberValue(n).literal;
    }
  }

  /** An element that starts with `-` or a digit is read by the number
      branch. */
  lemma {:induction false} ValueAtNumber(text: Text, pos: nat, pointer: Text)
    requires pos < |text| && (text[pos] == MINUS || IsDigit(text[pos]))
    ensures ValueAt(text, pos, pointer) == NumberAt(text, pos, pointer)
  {
    assert SkipSpaces(text, pos) == pos;
    assert !StartsWithAt(text, pos, TRUE) && !StartsWithAt(text, pos, FALSE) && !StartsWithAt(text, pos, NULL);
  }

  /** A document that is just a literal of the grammar parses to the value
      the literal denotes. */
  lemma {:induction false} DocumentOfNumber(n: NumberParts)
    requires ValidNumber(n)
    ensures Document(NumberText(n)) == Success(NumberValue(n))
  {
    var t := NumberText(n);
    assert t[0] == MINUS || IsDigit(t[0]) by {
      if !n.negative {
        assert t[0] == n.intPart[0];
      }
    }
    ValueAtNumber(t, 0, ROOT_POINTER);
    assert t[0..|t|] == t;
    NumberGrammarAccepted(t, 0, ROOT_POINTER, n);
  }

  /** The decimal form of any integer parses to an `Integer` when it fits
      in 32 bits, to a `Long` when it fits in 64 bits, and otherwise to a
      `BigDecimal` of its text; `-2147483648` is therefore an `Integer` and
      `2147483648` a `Long`. */
  lemma {:induction false} IntegerLiteralParses(m: int)
    ensures Document(SignedDecimalText(m)) == Success(
      if IsInt32(m) then Integer(m) else if IsInt64(m) then Long(m) else BigDecimal(SignedDecimalText(m)))
  {
    var magnitude: nat := if m < 0 then -m else m;
    DecimalTextIsStandard(magnitude);
    var n := NumberParts(m < 0, DecimalText(magnitude), [], []);
    assert NumberText(n) == SignedDecimalText(m);
    DocumentOfNumber(n);
  }

  // ---------------------------------------------------------------------
  // Strings (section 7 of RFC 8259)
  // ---------------------------------------------------------------------

  /** A code unit a string may hold without an escape. */
  predicate IsPlainUnit(ch: CodeUnit)
  {
    ch != QUOTE && ch != BACKSLASH && ch >= 0x20
  }

  /** A run of units that need no escape is copied into the string as it
      stands. */
  lemma {:induction false} PlainRunCopied(text: Text, pos: nat, end: nat, pointer: Text, sb: Text)
    requires pos <= end <= |text|
    requires forall k :: pos <= k < end ==> IsPlainUnit(text[k])
    ensures StringAt(text, pos, pointer, sb) == StringAt(text, end, pointer, sb + text[pos..end])
    decreases end - pos
  {
    if pos < end {
      PlainRunCopied(text, pos + 1, end, pointer, sb + [text[pos]]);
      assert sb + [text[pos]] + text[pos + 1..end] == sb + text[pos..end];
    } else {
      assert sb + text[pos..end] == sb;
    }
  }

  /** A string without escapes ends at the first quote, and decodes to
      exactly the units between the quotes. */
  lemma {:induction false} PlainStringDecodes(text: Text, pos: nat, end: nat, pointer: Text)
    requires pos <= end < |text| && text[end] == QUOTE
    requires forall k :: pos <= k < end ==> IsPlainUnit(text[k])
    ensures StringAt(text, pos, pointer, []) == Scanned(text[pos..end], end + 1)
  {
    PlainRunCopied(text, pos, end, pointer, []);
    assert [] + text[pos..end] == text[pos..end];
  }

  /** A string whose closing quote never comes is unterminated. */
  lemma {:induction false} PlainStringUnterminated(text: Text, pos: nat, pointer: Text)
    requires pos <= |text|
    requires forall k :: pos <= k < |text| ==> IsPlainUnit(text[k])
    ensures StringAt(text, pos, pointer, []) == Failed(UnterminatedString, pointer)
  {
    PlainRunCopied(text, pos, |text|, pointer, []);
  }

  // ---------------------------------------------------------------------
  // The values the parser returns
  // ---------------------------------------------------------------------

  /** A `BigDecimal` the parser can produce: a literal of the grammar that
      has a fraction or an exponent, or is an integer too wide for a `long`. */
  ghost predicate IsDecimalLiteral(literal: Text)
  {
    exists n :: ValidNumber(n) && NumberText(n) == literal && NumberValue(n) == BigDecimal(literal)
  }

  /** The shape of every value the parser returns: a `Long` never fits in
      an `Integer`, a `BigDecimal` is one the grammar yields, and the keys of
      every `Map` are distinct. */
  ghost predicate WellFormed(v: Value)
  {
    match v
    case Long(l) => !IsInt32(l)
    case BigDecimal(literal) => IsDecimalLiteral(literal)
    case List(items) => forall k :: 0 <= k < |items| ==> WellFormed(items[k])
    case Map(members) => DistinctKeys(members) && forall k :: 0 <= k < |members| ==> WellFormed(members[k].value)
    case _ => true
  }

  /** The members read so far have distinct keys and well-formed values. */
  ghost predicate WellFormedMembers(members: seq<Member>)
  {
    DistinctKeys(members) && forall k :: 0 <= k < |members| ==> WellFormed(members[k].value)
  }

  lemma {:induction false} ValueWellFormed(text: Text, pos: nat, pointer: Text)
    requires pos <= |text|
    ensures ValueAt(text, pos, pointer).Scanned? ==> WellFormed(ValueAt(text, pos, pointer).value)
    decreases |text| - pos, 1
  {
    var p := SkipSpaces(text, pos);
    if At(text, p, OPEN_BRACE) {
      ObjectWellFormed(text, p + 1, pointer);
    } else if At(text, p, OPEN_BRACKET) {
      ArrayWellFormed(text, p + 1, pointer);
    } else if At(text, p, QUOTE) || StartsWithAt(text, p, TRUE) || StartsWithAt(text, p, FALSE) || StartsWithAt(text, p, NULL) {
    } else if NumberAt(text, p, pointer).Scanned? {
      NumberAtFollowsGrammar(text, p, pointer);
      var n :| ValidNumber(n) && NumberValue(n) == NumberAt(text, p, pointer).value;
      NumberValueWellFormed(n);
    }
  }

  lemma {:induction false} ObjectWellFormed(text: Text, start: nat, pointer: Text)
    requires start <= |text|
    ensures ObjectAt(text, start, pointer).Scanned? ==> WellFormed(ObjectAt(text, start, pointer).value)
    decreases |text| - start, 4
  {
    if !At(text, SkipSpaces(text, start), CLOSE_BRACE) {
      MembersWellFormed(text, start, pointer, []);
    }
  }

  lemma {:induction false} MemberWellFormed(text: Text, pos: nat, pointer: Text, members: seq<Member>)
    requires pos <= |text|
    ensures var r := MemberAt(text, pos, pointer, members);
      r.Scanned? ==> r.value.key !in Keys(members) && WellFormed(r.value.value)
    decreases |text| - pos, 2
  {
    var p := SkipSpaces(text, pos);
    if At(text, p, QUOTE) {
      match StringAt(text, p + 1, pointer, [])
      case Failed(_, _) =>
      case Scanned(key, afterKey) =>
        var colon := SkipSpaces(text, afterKey);
        if key !in Keys(members) && At(text, colon, COLON) {
          ValueWellFormed(text, colon + 1, pointer + [SLASH] + key);
        }
    }
  }

  lemma {:induction false} MembersWellFormed(text: Text, pos: nat, pointer: Text, members: seq<Member>)
    requires pos <= |text|
    requires WellFormedMembers(members)
    ensures MembersAt(text, pos, pointer, members).Scanned? ==> WellFormed(MembersAt(text, pos, pointer, members).value)
    decreases |text| - pos, 3
  {
    MemberWellFormed(text, pos, pointer, members);
    match MemberAt(text, pos, pointer, members)
    case Failed(_, _) =>
    case Scanned(m, afterValue) =>
      AddMember(members, m);
      var q := SkipSpaces(text, afterValue);
      if At(text, q, COMMA) {
        MembersWellFormed(text, q + 1, pointer, members + [m]);
      }
  }

  /** A member whose key is new keeps the members well formed. */
  lemma {:induction false} AddMember(members: seq<Member>, m: Member)
    requires WellFormedMembers(members) && m.key !in Keys(members) && WellFormed(m.value)
    ensures WellFormedMembers(members + [m])
  {
    forall j | 0 <= j < |members|
      ensures members[j].key != m.key
    {
      assert Keys(members)[j] == members[j].key;
    }
  }

  lemma {:induction false} ArrayWellFormed(text: Text, start: nat, pointer: Text)
    requires start <= |text|
    ensures ArrayAt(text, start, pointer).Scanned? ==> WellFormed(ArrayAt(text, start, pointer).value)
    decreases |text| - start, 3
  {
    var q := SkipSpaces(text, start);
    if !At(text, q, CLOSE_BRACKET) {
      ElementsWellFormed(text, q, pointer, []);
    }
  }

  lemma {:induction false} ElementsWellFormed(text: Text, pos: nat, pointer: Text, items: seq<Value>)
    requires pos <= |text|
    requires forall k :: 0 <= k < |items| ==> WellFormed(items[k])
    ensures ElementsAt(text, pos, pointer, items).Scanned? ==> WellFormed(ElementsAt(text, pos, pointer, items).value)
    decreases |text| - pos, 2
  {
    var child := pointer + [SLASH] + DecimalText(|items|);
    ValueWellFormed(text, pos, child);
    match ValueAt(text, pos, child)
    case Failed(_, _) =>
    case Scanned(v, afterValue) =>
      var q := SkipSpaces(text, afterValue);
      if At(text, q, COMMA) {
        ElementsWellFormed(text, q + 1, pointer, items + [v]);
      }
  }

  /** Every value `parse` returns is well formed. */
  lemma {:induction false} DocumentWellFormed(json: Text)
    ensures Document(json).Success? ==> WellFormed(Document(json).value)
  {
    ValueWellFormed(json, 0, ROOT_POINTER);
  }
}
