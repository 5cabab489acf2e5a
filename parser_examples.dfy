/** The behaviour the parser's own tests check, on their inputs. */
module ParserExamples {
  import opened Wrappers
  import opened CodeUnits
  import opened JsonValue
  import opened ParseExceptions
  import opened Parser
  import opened ParserProperties

  /** `[1,]`: the element after the comma is missing, and the error is
      reported at the pointer of that element, `/1`. */
  lemma {:induction false} TrailingCommaInArray()
    ensures Document([OPEN_BRACKET, 0x31, COMMA, CLOSE_BRACKET])
         == Failure(WithPointer(ILLEGAL_SYNTAX, [SLASH, 0x31]))
  {
    var t: Text := [OPEN_BRACKET, 0x31, COMMA, CLOSE_BRACKET];
    assert SkipSpaces(t, 0) == 0;
    assert ValueAt(t, 0, []) == ElementsAt(t, 1, [], []) by {
      assert SkipSpaces(t, 1) == 1;
    }
    assert ValueAt(t, 1, [SLASH, 0x30]) == Scanned(Integer(1), 2) by {
      assert SkipSpaces(t, 1) == 1;
      assert DigitRun(t, 2) == 2;
      assert DigitRun(t, 1) == 2;
      assert t[1..2] == [0x31];
      assert DigitsValue([0x31]) == 1 by {
        assert [0x31][..0] == [];
      }
    }
    assert DecimalText(0) == [0x30] && DecimalText(1) == [0x31];
    assert SkipSpaces(t, 2) == 2;
    assert ElementsAt(t, 1, [], []) == ElementsAt(t, 3, [], [Integer(1)]) by {
      assert [] + [SLASH] + DecimalText(0) == [SLASH, 0x30];
    }
    assert ValueAt(t, 3, [SLASH, 0x31]) == Failed(IllegalSyntax, [SLASH, 0x31]) by {
      assert SkipSpaces(t, 3) == 3;
      assert DigitRun(t, 3) == 3;
    }
    assert ElementsAt(t, 3, [], [Integer(1)]) == Failed(IllegalSyntax, [SLASH, 0x31]) by {
      assert [] + [SLASH] + DecimalText(|[Integer(1)]|) == [SLASH, 0x31];
    }
  }

  /** `00`: a multi-digit integer part may not start with `0`. */
  lemma {:induction false} LeadingZero()
    ensures Document(Lit("00")) == Failure(WithPointer(ILLEGAL_NUMBER, []))
  {
    var t := Lit("00");
    assert t == [DIGIT_ZERO, DIGIT_ZERO];
    ValueAtNumber(t, 0, []);
    assert DigitRun(t, 0) == 2 by {
      assert DigitRun(t, 1) == 2;
    }
  }

  /** `-` with no digit after it is not a number at all. */
  lemma {:induction false} LoneMinus()
    ensures Document(Lit("-")) == Failure(WithPointer(ILLEGAL_SYNTAX, []))
  {
    var t := Lit("-");
    assert t == [MINUS];
    ValueAtNumber(t, 0, []);
  }

  /** `1.` and `1e+`: a fraction and an exponent each need a digit. */
  lemma {:induction false} EmptyFractionAndExponent()
    ensures Document(Lit("1.")) == Failure(WithPointer(ILLEGAL_NUMBER, []))
    ensures Document(Lit("1e+")) == Failure(WithPointer(ILLEGAL_NUMBER, []))
  {
    var t := Lit("1.");
    assert t == [0x31, DOT];
    ValueAtNumber(t, 0, []);
    assert DigitRun(t, 0) == 1;
    var u := Lit("1e+");
    assert u == [0x31, LOWER_E, PLUS];
    ValueAtNumber(u, 0, []);
    assert DigitRun(u, 0) == 1;
  }

  /** `123a`: a complete number followed by anything but whitespace. */
  lemma {:induction false} ExcessAfterNumber()
    ensures Document(Lit("123a")) == Failure(AtRoot(EXCESS_CHARS))
  {
    var t := Lit("123a");
    assert t == [0x31, 0x32, 0x33, 0x61];
    var n := NumberParts(false, t[..3], [], []);
    assert NumberText(n) == t[..3];
    ValueAtNumber(t, 0, []);
    NumberGrammarAccepted(t, 0, [], n);
  }

  /** The integer width buckets at their boundaries. */
  lemma {:induction false} IntegerBuckets()
    ensures Document(SignedDecimalText(0)) == Success(Integer(0))
    ensures Document(SignedDecimalText(2147483647)) == Success(Integer(2147483647))
    ensures Document(SignedDecimalText(-2147483648)) == Success(Integer(-2147483648))
    ensures Document(SignedDecimalText(2147483648)) == Success(Long(2147483648))
    ensures Document(SignedDecimalText(-2147483649)) == Success(Long(-2147483649))
    ensures Document(SignedDecimalText(9223372036854775807)) == Success(Long(9223372036854775807))
    ensures Document(SignedDecimalText(-9223372036854775808)) == Success(Long(-9223372036854775808))
    ensures Document(SignedDecimalText(9223372036854775808))
         == Success(BigDecimal(SignedDecimalText(9223372036854775808)))
    ensures Document(SignedDecimalText(-9223372036854775809))
         == Success(BigDecimal(SignedDecimalText(-9223372036854775809)))
  {
    IntegerLiteralParses(0);
    IntegerLiteralParses(2147483647);
    IntegerLiteralParses(-2147483648);
    IntegerLiteralParses(2147483648);
    IntegerLiteralParses(-2147483649);
    IntegerLiteralParses(9223372036854775807);
    IntegerLiteralParses(-9223372036854775808);
    IntegerLiteralParses(9223372036854775808);
    IntegerLiteralParses(-9223372036854775809);
  }

  /** `"abc`: the input ends inside the string. */
  lemma {:induction false} StringNeverClosed()
    ensures Document(Lit("\"abc")) == Failure(WithPointer(UNTERMINATED_STRING, []))
  {
    var t := Lit("\"abc");
    assert t == [QUOTE, 0x61, 0x62, 0x63];
    assert SkipSpaces(t, 0) == 0;
    PlainStringUnterminated(t, 1, []);
  }

  /** `"ab\c"`: `\c` is not an escape of JSON. */
  lemma {:induction false} BadEscape()
    ensures Document(Lit("\"ab\\c\"")) == Failure(WithPointer(ILLEGAL_ESCAPE_SEQUENCE, []))
  {
    var t := Lit("\"ab\\c\"");
    assert t == [QUOTE, 0x61, 0x62, BACKSLASH, 0x63, QUOTE];
    assert SkipSpaces(t, 0) == 0;
    PlainRunCopied(t, 1, 3, [], []);
  }

  /** `"ab\uxxxx"`: `\u` must be followed by four hexadecimal digits. */
  lemma {:induction false} BadUnicodeEscape()
    ensures Document(Lit("\"ab\\uxxxx\"")) == Failure(WithPointer(ILLEGAL_UNICODE_SEQUENCE, []))
  {
    var t := Lit("\"ab\\uxxxx\"");
    assert t == [QUOTE, 0x61, 0x62, BACKSLASH, LOWER_U, 0x78, 0x78, 0x78, 0x78, QUOTE];
    assert SkipSpaces(t, 0) == 0;
    PlainRunCopied(t, 1, 3, [], []);
    assert !HexAt(t, 5) by {
      assert !IsHexDigit(t[5]);
    }
  }

  /** A raw control character inside a string. */
  lemma {:induction false} ControlCharacterInString()
    ensures Document([QUOTE, 0x61, 0x62, 0x01, QUOTE]) == Failure(WithPointer(ILLEGAL_CHAR, []))
  {
    var t: Text := [QUOTE, 0x61, 0x62, 0x01, QUOTE];
    assert SkipSpaces(t, 0) == 0;
    PlainRunCopied(t, 1, 3, [], []);
  }

  /** `"mdash \u2014"`: a Unicode escape decodes to the one code unit it
      names. */
  lemma {:induction false} UnicodeEscape()
    ensures Document(Lit("\"mdash \\u2014\"")) == Success(Str(Lit("mdash ") + [0x2014]))
  {
    var mdash: Text := [0x6D, 0x64, 0x61, 0x73, 0x68, SPACE];
    assert Lit("mdash ") == mdash;
    var t: Text := [QUOTE] + mdash + [BACKSLASH, LOWER_U, 0x32, 0x30, 0x31, 0x34, QUOTE];
    assert Lit("\"mdash \\u2014\"") == t;
    EscapedCodeUnit(t, mdash);
  }

  lemma {:induction false} EscapedCodeUnit(t: Text, mdash: Text)
    requires mdash == [0x6D, 0x64, 0x61, 0x73, 0x68, SPACE]
    requires t == [QUOTE] + mdash + [BACKSLASH, LOWER_U, 0x32, 0x30, 0x31, 0x34, QUOTE]
    ensures Document(t) == Success(Str(mdash + [0x2014]))
  {
    assert SkipSpaces(t, 0) == 0;
    PlainRunCopied(t, 1, 7, [], []);
    assert [] + t[1..7] == mdash;
    assert HexAt(t, 9) by {
      assert IsHexDigit(t[9]) && IsHexDigit(t[10]) && IsHexDigit(t[11]) && IsHexDigit(t[12]);
    }
    assert HexValue(t, 9) == 0x2014 by {
      assert HexRunValue(t, 9, 4) == 16 * HexRunValue(t, 9, 3) + 4;
      assert HexRunValue(t, 9, 3) == 16 * HexRunValue(t, 9, 2) + 1;
      assert HexRunValue(t, 9, 2) == 16 * HexRunValue(t, 9, 1) + 0;
      assert HexRunValue(t, 9, 1) == 2;
    }
    assert StringAt(t, 7, [], mdash) == Scanned(mdash + [0x2014], 14);
    assert SkipSpaces(t, 14) == 14;
  }

  /** The key of the object tests. */
  const FIRST: Text := [0x66, 0x69, 0x72, 0x73, 0x74]

  /** `123` as a literal of the grammar. */
  const ONE_TWO_THREE: NumberParts := NumberParts(false, [0x31, 0x32, 0x33], [], [])

  lemma {:induction false} OneTwoThree()
    ensures ValidNumber(ONE_TWO_THREE) && NumberText(ONE_TWO_THREE) == [0x31, 0x32, 0x33]
    ensures NumberValue(ONE_TWO_THREE) == Integer(123)
  {
    assert DigitsValue([0x31, 0x32, 0x33]) == 123 by {
      assert [0x31, 0x32, 0x33][..2] == [0x31, 0x32];
      assert [0x31, 0x32][..1] == [0x31];
      assert [0x31][..0] == [];
    }
  }

  /** The units of `{"first":123` at the head of a text, and a next unit
      that cannot extend the number. */
  predicate FirstMemberLayout(t: Text)
  {
    |t| >= 12 && t[0] == OPEN_BRACE && t[1] == QUOTE && t[2..7] == FIRST && t[7] == QUOTE
    && t[8] == COLON && t[9..12] == [0x31, 0x32, 0x33] && (|t| == 12 || !ContinuesNumber(t[12]))
  }

  lemma {:induction false} FirstKey(t: Text, at: nat, pointer: Text)
    requires at + 6 < |t| && t[at + 1..at + 6] == FIRST && t[at + 6] == QUOTE
    ensures StringAt(t, at + 1, pointer, []) == Scanned(FIRST, at + 7)
  {
    assert forall k :: at + 1 <= k < at + 6 ==> IsPlainUnit(t[k]) by {
      forall k | at + 1 <= k < at + 6
        ensures IsPlainUnit(t[k])
      {
        assert t[k] == FIRST[k - at - 1];
      }
    }
    PlainStringDecodes(t, at + 1, at + 6, pointer);
  }

  lemma {:induction false} FirstValue(t: Text, pointer: Text)
    requires FirstMemberLayout(t)
    ensures ValueAt(t, 9, pointer) == Scanned(Integer(123), 12)
  {
    OneTwoThree();
    assert t[9] == t[9..12][0];
    ValueAtNumber(t, 9, pointer);
    NumberGrammarAccepted(t, 9, pointer, ONE_TWO_THREE);
  }

  /** `{"first":123` read up to the end of its first member. */
  lemma {:induction false} FirstMember(t: Text)
    requires FirstMemberLayout(t)
    ensures ValueAt(t, 0, []) == MembersAt(t, 1, [], [])
    ensures MemberAt(t, 1, [], []) == Scanned(Member(FIRST, Integer(123)), 12)
  {
    assert SkipSpaces(t, 0) == 0 && SkipSpaces(t, 1) == 1 && SkipSpaces(t, 8) == 8;
    FirstKey(t, 1, []);
    FirstValue(t, [] + [SLASH] + FIRST);
  }

  /** `{"first":123`: the object is never closed. */
  lemma {:induction false} ObjectNeverClosed()
    ensures Document(Lit("{\"first\":123")) == Failure(WithPointer(MISSING_CLOSING_BRACE, []))
  {
    var t: Text := [OPEN_BRACE, QUOTE] + FIRST + [QUOTE, COLON, 0x31, 0x32, 0x33];
    assert Lit("{\"first\":123") == t;
    assert t[2..7] == FIRST && t[9..12] == [0x31, 0x32, 0x33];
    UnclosedObjectDocument(t);
  }

  lemma {:induction false} UnclosedObjectDocument(t: Text)
    requires FirstMemberLayout(t) && |t| == 12
    ensures Document(t) == Failure(WithPointer(MISSING_CLOSING_BRACE, []))
  {
    FirstMember(t);
    assert SkipSpaces(t, 12) == 12;
  }

  /** The second member of `{"first":123,"first":456}` repeats the key. */
  lemma {:induction false} SecondKeyRepeated(t: Text)
    requires |t| > 19 && t[13] == QUOTE && t[14..19] == FIRST && t[19] == QUOTE
    ensures MemberAt(t, 13, [], [Member(FIRST, Integer(123))]) == Failed(DuplicateKey, [])
  {
    assert SkipSpaces(t, 13) == 13;
    FirstKey(t, 13, []);
    assert Keys([Member(FIRST, Integer(123))]) == [FIRST];
  }

  /** `{"first":123,"first":456}`: the repeated key is refused before its
      colon is looked for, at the object's pointer. */
  lemma {:induction false} DuplicateKeyInObject()
    ensures Document(Lit("{\"first\":123,\"first\":456}")) == Failure(WithPointer(DUPLICATE_KEY, []))
  {
    var t: Text := [OPEN_BRACE, QUOTE] + FIRST + [QUOTE, COLON, 0x31, 0x32, 0x33, COMMA, QUOTE] + FIRST
      + [QUOTE, COLON, 0x34, 0x35, 0x36, CLOSE_BRACE];
    assert Lit("{\"first\":123,\"first\":456}") == t;
    RepeatedKeyLayout(t);
    RepeatedKey(t);
  }

  lemma {:induction false} RepeatedKeyLayout(t: Text)
    requires t == [OPEN_BRACE, QUOTE] + FIRST + [QUOTE, COLON, 0x31, 0x32, 0x33, COMMA, QUOTE] + FIRST
      + [QUOTE, COLON, 0x34, 0x35, 0x36, CLOSE_BRACE]
    ensures FirstMemberLayout(t) && |t| > 19 && t[12] == COMMA
    ensures t[13] == QUOTE && t[14..19] == FIRST && t[19] == QUOTE
  {
    assert t[2..7] == FIRST && t[9..12] == [0x31, 0x32, 0x33] && t[14..19] == FIRST;
  }

  lemma {:induction false} RepeatedKey(t: Text)
    requires FirstMemberLayout(t) && |t| > 19 && t[12] == COMMA
    requires t[13] == QUOTE && t[14..19] == FIRST && t[19] == QUOTE
    ensures Document(t) == Failure(WithPointer(DUPLICATE_KEY, []))
  {
    FirstMember(t);
    assert SkipSpaces(t, 12) == 12;
    SecondKeyRepeated(t);
    assert [] + [Member(FIRST, Integer(123))] == [Member(FIRST, Integer(123))];
  }

  /** `{"first"123}`: no colon after the key. */
  lemma {:induction false} ColonMissing()
    ensures Document(Lit("{\"first\"123}")) == Failure(WithPointer(MISSING_COLON, []))
  {
    var t: Text := [OPEN_BRACE, QUOTE] + FIRST + [QUOTE, 0x31, 0x32, 0x33, CLOSE_BRACE];
    assert Lit("{\"first\"123}") == t;
    assert t[0] == OPEN_BRACE && t[1] == QUOTE && t[2..7] == FIRST && t[7] == QUOTE && t[8] == 0x31;
    KeyWithoutColon(t);
  }

  lemma {:induction false} KeyWithoutColon(t: Text)
    requires |t| > 8 && t[0] == OPEN_BRACE && t[1] == QUOTE && t[2..7] == FIRST && t[7] == QUOTE
    requires t[8] != COLON && !IsSpaceCharacter(t[8])
    ensures Document(t) == Failure(WithPointer(MISSING_COLON, []))
  {
    assert SkipSpaces(t, 0) == 0 && SkipSpaces(t, 1) == 1 && SkipSpaces(t, 8) == 8;
    FirstKey(t, 1, []);
    assert MemberAt(t, 1, [], []) == Failed(MissingColon, []);
    assert MembersAt(t, 1, [], []) == Failed(MissingColon, []);
    assert ValueAt(t, 0, []) == ObjectAt(t, 1, []) == MembersAt(t, 1, [], []);
  }

  /** `{first:123}`: a key must be a string. */
  lemma {:induction false} UnquotedKey()
    ensures Document(Lit("{first:123}")) == Failure(WithPointer(ILLEGAL_KEY, []))
  {
    var t: Text := [OPEN_BRACE] + FIRST + [COLON, 0x31, 0x32, 0x33, CLOSE_BRACE];
    assert Lit("{first:123}") == t;
    KeyWithoutQuote(t);
  }

  lemma {:induction false} KeyWithoutQuote(t: Text)
    requires |t| > 1 && t[0] == OPEN_BRACE && t[1] != QUOTE && t[1] != CLOSE_BRACE && !IsSpaceCharacter(t[1])
    ensures Document(t) == Failure(WithPointer(ILLEGAL_KEY, []))
  {
    assert SkipSpaces(t, 0) == 0 && SkipSpaces(t, 1) == 1;
    assert MemberAt(t, 1, [], []) == Failed(IllegalKey, []);
    assert MembersAt(t, 1, [], []) == Failed(IllegalKey, []);
    assert ValueAt(t, 0, []) == ObjectAt(t, 1, []) == MembersAt(t, 1, [], []);
  }

  /** `["simple"`: the array is never closed. */
  lemma {:induction false} ArrayNeverClosed()
    ensures Document(Lit("[\"simple\"")) == Failure(WithPointer(MISSING_CLOSING_BRACKET, []))
  {
    var simple: Text := [0x73, 0x69, 0x6D, 0x70, 0x6C, 0x65];
    var t: Text := [OPEN_BRACKET, QUOTE] + simple + [QUOTE];
    assert Lit("[\"simple\"") == t;
    assert t[0] == OPEN_BRACKET && t[1] == QUOTE && t[8] == QUOTE && |t| == 9;
    assert forall k :: 2 <= k < 8 ==> IsPlainUnit(t[k]);
    UnclosedArrayDocument(t);
  }

  lemma {:induction false} UnclosedArrayDocument(t: Text)
    requires |t| == 9 && t[0] == OPEN_BRACKET && t[1] == QUOTE && t[8] == QUOTE
    requires forall k :: 2 <= k < 8 ==> IsPlainUnit(t[k])
    ensures Document(t) == Failure(WithPointer(MISSING_CLOSING_BRACKET, []))
  {
    assert SkipSpaces(t, 0) == 0 && SkipSpaces(t, 1) == 1 && SkipSpaces(t, 9) == 9;
    var pointer := [] + [SLASH] + DecimalText(0);
    PlainStringDecodes(t, 2, 8, pointer);
    assert ValueAt(t, 1, pointer) == Scanned(Str(t[2..8]), 9);
    assert ElementsAt(t, 1, [], []) == Failed(MissingClosingBracket, []);
    assert ValueAt(t, 0, []) == ArrayAt(t, 1, []) == ElementsAt(t, 1, [], []);
  }
}
