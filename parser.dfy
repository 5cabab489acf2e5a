/** The recursive-descent JSON parser (RFC 8259).
 *
 *  The first half states what the parser computes as functions over the
 *  input text and a position in it (the position stands for the state of the
 *  source's text-matching cursor).  The second half is the parser as the
 *  source writes it, with a cursor that advances step by step, loops that
 *  accumulate the members of an object or array, and a string decoder that
 *  copies into a buffer, each method proved to compute its function.
 */
module Parser {
  import opened Wrappers
  import opened CodeUnits
  import opened JsonValue
  import opened ParseExceptions

  const ROOT_POINTER: Text := []
  const MAX_INTEGER_DIGITS_LENGTH: nat := 10

  const EXCESS_CHARS: Text := Lit("Excess characters following JSON")
  const ILLEGAL_NUMBER: Text := Lit("Illegal JSON number")
  const ILLEGAL_SYNTAX: Text := Lit("Illegal JSON syntax")
  const ILLEGAL_KEY: Text := Lit("Illegal key in JSON object")
  const DUPLICATE_KEY: Text := Lit("Duplicate key in JSON object")
  const MISSING_COLON: Text := Lit("Missing colon in JSON object")
  const MISSING_CLOSING_BRACE: Text := Lit("Missing closing brace in JSON object")
  const MISSING_CLOSING_BRACKET: Text := Lit("Missing closing bracket in JSON array")
  const UNTERMINATED_STRING: Text := Lit("Unterminated JSON string")
  const ILLEGAL_CHAR: Text := Lit("Illegal character in JSON string")
  const ILLEGAL_UNICODE_SEQUENCE: Text := Lit("Illegal Unicode sequence in JSON string")
  const ILLEGAL_ESCAPE_SEQUENCE: Text := Lit("Illegal escape sequence in JSON string")

  /** Why a parse fails: one constructor per error text. */
  datatype Reason =
    | ExcessChars | IllegalNumber | IllegalSyntax | IllegalKey | DuplicateKey | MissingColon
    | MissingClosingBrace | MissingClosingBracket | UnterminatedString | IllegalChar
    | IllegalUnicodeSequence | IllegalEscapeSequence

  function ReasonText(why: Reason): Text
  {
    match why
    case ExcessChars => EXCESS_CHARS
    case IllegalNumber => ILLEGAL_NUMBER
    case IllegalSyntax => ILLEGAL_SYNTAX
    case IllegalKey => ILLEGAL_KEY
    case DuplicateKey => DUPLICATE_KEY
    case MissingColon => MISSING_COLON
    case MissingClosingBrace => MISSING_CLOSING_BRACE
    case MissingClosingBracket => MISSING_CLOSING_BRACKET
    case UnterminatedString => UNTERMINATED_STRING
    case IllegalChar => ILLEGAL_CHAR
    case IllegalUnicodeSequence => ILLEGAL_UNICODE_SEQUENCE
    case IllegalEscapeSequence => ILLEGAL_ESCAPE_SEQUENCE
  }

  /** The outcome of reading one element: the element and the position just
      after it, or the reason the parse ends and the JSON Pointer of the
      element being read when it ended.  The exception itself is built from
      these two when it leaves the parser (see `Document`). */
  datatype Scan<+T> = Scanned(value: T, next: nat) | Failed(reason: Reason, pointer: Text)

  // ---------------------------------------------------------------------
  // The text-matching cursor
  // ---------------------------------------------------------------------

  predicate IsSpaceCharacter(ch: CodeUnit)
  {
    ch == SPACE || ch == LF || ch == TAB || ch == CR
  }

  /** The cursor at `i` is on `ch` (the test behind `match(ch)`). */
  predicate At(text: Text, i: int, ch: CodeUnit)
  {
    0 <= i < |text| && text[i] == ch
  }

  /** The text at `i` starts with `lit` (the test behind `match(String)`). */
  predicate StartsWithAt(text: Text, i: nat, lit: Text)
    ensures StartsWithAt(text, i, lit) ==> i + |lit| <= |text|
    decreases |lit|
  {
    if lit == [] then i <= |text| else i < |text| && text[i] == lit[0] && StartsWithAt(text, i + 1, lit[1..])
  }

  /** Where `skip(isSpaceCharacter)` leaves the cursor: the first position at
      or after `pos` that is not JSON whitespace. */
  function SkipSpaces(text: Text, pos: nat): (p: nat)
    requires pos <= |text|
    ensures pos <= p <= |text|
    decreases |text| - pos
  {
    if pos < |text| && IsSpaceCharacter(text[pos]) then SkipSpaces(text, pos + 1) else pos
  }

  /** `SkipSpaces` stops at the first character at or after `pos` that is
      not whitespace, or at the end. */
  lemma {:induction false} SkipSpacesStopsAtFirstNonSpace(text: Text, pos: nat)
    requires pos <= |text|
    ensures forall k :: pos <= k < SkipSpaces(text, pos) ==> IsSpaceCharacter(text[k])
    ensures SkipSpaces(text, pos) < |text| ==> !IsSpaceCharacter(text[SkipSpaces(text, pos)])
    decreases |text| - pos
  {
    if pos < |text| && IsSpaceCharacter(text[pos]) {
      SkipSpacesStopsAtFirstNonSpace(text, pos + 1);
    }
  }

  /** The end of the longest run of decimal digits starting at `pos` (where
      `matchDec` leaves the cursor). */
  function DigitRun(text: Text, pos: nat): (p: nat)
    requires pos <= |text|
    ensures pos <= p <= |text|
    decreases |text| - pos
  {
    if pos < |text| && IsDigit(text[pos]) then DigitRun(text, pos + 1) else pos
  }

  /** `DigitRun` covers digits only, and every digit that follows `pos`. */
  lemma {:induction false} DigitRunIsLongest(text: Text, pos: nat)
    requires pos <= |text|
    ensures AllDigits(text[pos..DigitRun(text, pos)])
    ensures DigitRun(text, pos) < |text| ==> !IsDigit(text[DigitRun(text, pos)])
    decreases |text| - pos
  {
    if pos < |text| && IsDigit(text[pos]) {
      DigitRunIsLongest(text, pos + 1);
      assert text[pos..DigitRun(text, pos)] == [text[pos]] + text[pos + 1..DigitRun(text, pos)];
    }
  }

  predicate IsHexDigit(ch: CodeUnit)
  {
    IsDigit(ch) || 0x41 <= ch <= 0x46 || 0x61 <= ch <= 0x66
  }

  function HexDigitValue(ch: CodeUnit): (v: nat)
    requires IsHexDigit(ch)
    ensures v < 16
  {
    if IsDigit(ch) then ch - 0x30 else if ch <= 0x46 then ch - 0x41 + 10 else ch - 0x61 + 10
  }

  /** Four hexadecimal digits start at `pos` (`matchHex(4, 4)` succeeds). */
  predicate HexAt(text: Text, pos: nat)
  {
    pos + 4 <= |text| && forall k :: pos <= k < pos + 4 ==> IsHexDigit(text[k])
  }

  function Pow16(k: nat): (p: nat)
    ensures p >= 1
  {
    if k == 0 then 1 else 16 * Pow16(k - 1)
  }

  /** The number the `n` hexadecimal digits at `pos` denote, most
      significant digit first. */
  function HexRunValue(text: Text, pos: nat, n: nat): (v: nat)
    requires pos + n <= |text| && forall k :: pos <= k < pos + n ==> IsHexDigit(text[k])
    ensures v < Pow16(n)
  {
    if n == 0 then 0 else 16 * HexRunValue(text, pos, n - 1) + HexDigitValue(text[pos + n - 1])
  }

  /** The code unit the four hexadecimal digits at `pos` denote. */
  function HexValue(text: Text, pos: nat): CodeUnit
    requires HexAt(text, pos)
  {
    assert Pow16(4) == 0x1_0000;
    HexRunValue(text, pos, 4)
  }

  // ---------------------------------------------------------------------
  // What the parser computes
  // ---------------------------------------------------------------------

  /** The characters that may follow a backslash on their own. */
  predicate IsShortEscape(ch: CodeUnit)
  {
    ch == QUOTE || ch == BACKSLASH || ch == SLASH || ch == LOWER_B || ch == LOWER_F
      || ch == LOWER_N || ch == LOWER_R || ch == LOWER_T
  }

  /** The code unit a short escape sequence stands for. */
  function ShortEscapeValue(ch: CodeUnit): CodeUnit
    requires IsShortEscape(ch)
  {
    if ch == LOWER_B then BACKSPACE
    else if ch == LOWER_F then FORM_FEED
    else if ch == LOWER_N then LF
    else if ch == LOWER_R then CR
    else if ch == LOWER_T then TAB
    else ch
  }

  /** The rest of a string whose opening quote is before `pos`: `sb` is what
      has been decoded so far. */
  function StringAt(text: Text, pos: nat, pointer: Text, sb: Text): (r: Scan<Text>)
    requires pos <= |text|
    ensures r.Scanned? ==> pos < r.next <= |text|
    decreases |text| - pos
  {
    if pos == |text| then Failed(UnterminatedString, pointer)
    else
      var ch := text[pos];
      if ch == QUOTE then Scanned(sb, pos + 1)
      else if ch == BACKSLASH then
        if pos + 1 == |text| then Failed(UnterminatedString, pointer)
        else
          var esc := text[pos + 1];
          if IsShortEscape(esc) then StringAt(text, pos + 2, pointer, sb + [ShortEscapeValue(esc)])
          else if esc == LOWER_U then
            if HexAt(text, pos + 2) then StringAt(text, pos + 6, pointer, sb + [HexValue(text, pos + 2)])
            else Failed(IllegalUnicodeSequence, pointer)
          else Failed(IllegalEscapeSequence, pointer)
      else if ch < 0x20 then Failed(IllegalChar, pointer)
      else StringAt(text, pos + 1, pointer, sb + [ch])
  }

  /** A run of fewer than `MAX_INTEGER_DIGITS_LENGTH` digits always fits in
      an `int`, which is why the source converts such runs without asking. */
  lemma {:induction false} ShortDigitRunFits(digits: Text)
    requires AllDigits(digits) && |digits| < MAX_INTEGER_DIGITS_LENGTH
    ensures DigitsValue(digits) < 1_000_000_000
  {
    DigitsValueBound(digits);
    Pow10Monotone(|digits|, 9);
    assert Pow10(9) == 1_000_000_000;
  }

  /** The object an integer literal with value `n` becomes: an `Integer`
      when it fits in 32 bits, a `Long` when it fits in 64 bits, and
      otherwise a `BigDecimal` of the literal's text. */
  function IntegerValue(n: int, literal: Text): Value
  {
    if IsInt32(n) then Integer(n) else if IsInt64(n) then Long(n) else BigDecimal(literal)
  }

  /** Where the fraction of a number whose integer part ends at `intEnd`
      ends: `intEnd` itself when there is no `.`, `None` when the `.` is not
      followed by a digit. */
  function FractionEnd(text: Text, intEnd: nat): (e: Option<nat>)
    requires intEnd <= |text|
    ensures e.Some? ==> intEnd <= e.value <= |text|
  {
    if !At(text, intEnd, DOT) then Some(intEnd)
    else
      var fracEnd := DigitRun(text, intEnd + 1);
      if fracEnd == intEnd + 1 then None else Some(fracEnd)
  }

  /** Where the exponent of a number whose fraction ends at `fracEnd` ends:
      `fracEnd` itself when there is no `e` or `E`, `None` when the exponent
      (after an optional sign) has no digit. */
  function ExponentEnd(text: Text, fracEnd: nat): (e: Option<nat>)
    requires fracEnd <= |text|
    ensures e.Some? ==> fracEnd <= e.value <= |text|
  {
    if !(At(text, fracEnd, LOWER_E) || At(text, fracEnd, UPPER_E)) then Some(fracEnd)
    else
      var expDigits := ExponentDigits(text, fracEnd);
      var expEnd := DigitRun(text, expDigits);
      if expEnd == expDigits then None else Some(expEnd)
  }

  /** Where the digits of an exponent whose `e` is at `fracEnd` start: after
      the `e` and an optional sign. */
  function ExponentDigits(text: Text, fracEnd: nat): nat
  {
    if At(text, fracEnd + 1, MINUS) || At(text, fracEnd + 1, PLUS) then fracEnd + 2 else fracEnd + 1
  }

  /** A number starting at `start`: an optional `-`, a digit run without a
      leading zero, an optional fraction and an optional exponent. */
  function NumberAt(text: Text, start: nat, pointer: Text): (r: Scan<Value>)
    requires start <= |text|
    ensures r.Scanned? ==> start < r.next <= |text|
  {
    var negative := At(text, start, MINUS);
    var intStart := if negative then start + 1 else start;
    var intEnd := DigitRun(text, intStart);
    if intEnd == intStart then Failed(IllegalSyntax, pointer)
    else if intEnd - intStart > 1 && text[intStart] == DIGIT_ZERO then Failed(IllegalNumber, pointer)
    else
      match FractionEnd(text, intEnd)
      case None => Failed(IllegalNumber, pointer)
      case Some(fracEnd) =>
        match ExponentEnd(text, fracEnd)
        case None => Failed(IllegalNumber, pointer)
        case Some(end) =>
          DigitRunIsLongest(text, intStart);
          Scanned(LiteralValue(text, start, end, negative, intStart, intEnd), end)
  }

  /** The object the literal `text[start..end]` becomes, its integer digits
      lying at `intStart..intEnd`: without fraction and exponent it is an
      integer (see `IntegerValue`); otherwise it is a `BigDecimal` of its
      text. */
  function LiteralValue(text: Text, start: nat, end: nat, negative: bool, intStart: nat, intEnd: nat): Value
    requires start <= intStart <= intEnd <= end <= |text| && AllDigits(text[intStart..intEnd])
  {
    if end == intEnd then
      var magnitude: int := DigitsValue(text[intStart..intEnd]);
      IntegerValue(if negative then -magnitude else magnitude, text[start..end])
    else BigDecimal(text[start..end])
  }

  /** The element starting at `pos` (after optional whitespace), at the
      JSON Pointer `pointer`. */
  function ValueAt(text: Text, pos: nat, pointer: Text): (r: Scan<Value>)
    requires pos <= |text|
    ensures r.Scanned? ==> pos < r.next <= |text|
    decreases |text| - pos, 1
  {
    var p := SkipSpaces(text, pos);
    if At(text, p, OPEN_BRACE) then ObjectAt(text, p + 1, pointer)
    else if At(text, p, OPEN_BRACKET) then ArrayAt(text, p + 1, pointer)
    else if At(text, p, QUOTE) then
      match StringAt(text, p + 1, pointer, [])
      case Scanned(s, next) => Scanned(Str(s), next)
      case Failed(why, at) => Failed(why, at)
    else if StartsWithAt(text, p, TRUE) then Scanned(Boolean(true), p + |TRUE|)
    else if StartsWithAt(text, p, FALSE) then Scanned(Boolean(false), p + |FALSE|)
    else if StartsWithAt(text, p, NULL) then Scanned(Null, p + |NULL|)
    else NumberAt(text, p, pointer)
  }

  /** An object whose `{` is just before `start`. */
  function ObjectAt(text: Text, start: nat, pointer: Text): (r: Scan<Value>)
    requires start <= |text|
    ensures r.Scanned? ==> start < r.next <= |text|
    decreases |text| - start, 4
  {
    var q := SkipSpaces(text, start);
    if At(text, q, CLOSE_BRACE) then Scanned(Map([]), q + 1)
    else MembersAt(text, start, pointer, [])
  }

  /** An array whose `[` is just before `start`. */
  function ArrayAt(text: Text, start: nat, pointer: Text): (r: Scan<Value>)
    requires start <= |text|
    ensures r.Scanned? ==> start < r.next <= |text|
    decreases |text| - start, 3
  {
    var q := SkipSpaces(text, start);
    if At(text, q, CLOSE_BRACKET) then Scanned(List([]), q + 1)
    else ElementsAt(text, q, pointer, [])
  }

  /** One member of an object, its key expected at `pos`: the key, the
      colon and the value (read at `pointer/key`), `members` being those
      already read.  Every error here but the value's own is raised at the
      object's pointer, and a repeated key is refused before its colon. */
  function MemberAt(text: Text, pos: nat, pointer: Text, members: seq<Member>): (r: Scan<Member>)
    requires pos <= |text|
    ensures r.Scanned? ==> pos < r.next <= |text|
    decreases |text| - pos, 2
  {
    var p := SkipSpaces(text, pos);
    if !At(text, p, QUOTE) then Failed(IllegalKey, pointer)
    else
      match StringAt(text, p + 1, pointer, [])
      case Failed(why, at) => Failed(why, at)
      case Scanned(key, afterKey) =>
        if key in Keys(members) then Failed(DuplicateKey, pointer)
        else
          var colon := SkipSpaces(text, afterKey);
          if !At(text, colon, COLON) then Failed(MissingColon, pointer)
          else
            match ValueAt(text, colon + 1, pointer + [SLASH] + key)
            case Failed(why, at) => Failed(why, at)
            case Scanned(v, afterValue) => Scanned(Member(key, v), afterValue)
  }

  /** The members of an object from the key expected at `pos` on, `members`
      being those already read. */
  function MembersAt(text: Text, pos: nat, pointer: Text, members: seq<Member>): (r: Scan<Value>)
    requires pos <= |text|
    ensures r.Scanned? ==> pos < r.next <= |text|
    decreases |text| - pos, 3
  {
    match MemberAt(text, pos, pointer, members)
    case Failed(why, at) => Failed(why, at)
    case Scanned(m, afterValue) =>
      var members' := members + [m];
      var q := SkipSpaces(text, afterValue);
      if At(text, q, COMMA) then MembersAt(text, q + 1, pointer, members')
      else if At(text, q, CLOSE_BRACE) then Scanned(Map(members'), q + 1)
      else Failed(MissingClosingBrace, pointer)
  }

  /** The elements of an array from the element starting at `pos` on, `items`
      being those already read.  Element `k` is read at `pointer/k`. */
  function ElementsAt(text: Text, pos: nat, pointer: Text, items: seq<Value>): (r: Scan<Value>)
    requires pos <= |text|
    ensures r.Scanned? ==> pos < r.next <= |text|
    decreases |text| - pos, 2
  {
    match ValueAt(text, pos, pointer + [SLASH] + DecimalText(|items|))
    case Failed(why, at) => Failed(why, at)
    case Scanned(v, afterValue) =>
      var items' := items + [v];
      var q := SkipSpaces(text, afterValue);
      if At(text, q, COMMA) then ElementsAt(text, q + 1, pointer, items')
      else if At(text, q, CLOSE_BRACKET) then Scanned(List(items'), q + 1)
      else Failed(MissingClosingBracket, pointer)
  }

  /** A whole JSON text: one element, then nothing but whitespace. */
  function Document(json: Text): Result<Value, ParseException>
  {
    match ValueAt(json, 0, ROOT_POINTER)
    case Failed(why, at) => Failure(WithPointer(ReasonText(why), at))
    case Scanned(v, next) =>
      if SkipSpaces(json, next) < |json| then Failure(AtRoot(EXCESS_CHARS)) else Success(v)
  }

  // ---------------------------------------------------------------------
  // The parser as the source writes it
  // ---------------------------------------------------------------------

  /** `parse(String)`. */
  method Parse(json: Text) returns (r: Result<Value, ParseException>)
    ensures r == Document(json)
  {
    var result := ParseValue(json, 0, ROOT_POINTER);
    if result.Failed? {
      return Failure(WithPointer(ReasonText(result.reason), result.pointer));
    }
    var i := SkipSpaces(json, result.next);
    if i < |json| {
      return Failure(AtRoot(EXCESS_CHARS));
    }
    return Success(result.value);
  }

  /** `parse(TextMatcher, pointer)`: dispatch on the first significant
      character (objects, arrays and numbers are split out below). */
  method ParseValue(text: Text, pos: nat, pointer: Text) returns (r: Scan<Value>)
    requires pos <= |text|
    ensures r == ValueAt(text, pos, pointer)
    decreases |text| - pos, 1
  {
    var i := SkipSpaces(text, pos);
    if At(text, i, OPEN_BRACE) {
      r := ParseObject(text, i + 1, pointer);
    } else if At(text, i, OPEN_BRACKET) {
      r := ParseArray(text, i + 1, pointer);
    } else if At(text, i, QUOTE) {
      var s := ParseString(text, i + 1, pointer);
      if s.Failed? {
        return Failed(s.reason, s.pointer);
      }
      r := Scanned(Str(s.value), s.next);
    } else if StartsWithAt(text, i, TRUE) {
      r := Scanned(Boolean(true), i + 4);
    } else if StartsWithAt(text, i, FALSE) {
      r := Scanned(Boolean(false), i + 5);
    } else if StartsWithAt(text, i, NULL) {
      r := Scanned(Null, i + 4);
    } else {
      r := ParseNumber(text, i, pointer);
    }
  }

  /** The object branch: `start` is just after the `{`.  Each member skips
      the whitespace before its key itself, so `i` stays where that
      whitespace starts. */
  method ParseObject(text: Text, start: nat, pointer: Text) returns (r: Scan<Value>)
    requires start <= |text|
    ensures r == ObjectAt(text, start, pointer)
    decreases |text| - start, 4
  {
    var q := SkipSpaces(text, start);
    if At(text, q, CLOSE_BRACE) {
      return Scanned(Map([]), q + 1);
    }
    var members: seq<Member> := [];
    var i := start;
    while true
      invariant start <= i <= |text|
      invariant MembersAt(text, i, pointer, members) == ObjectAt(text, start, pointer)
      decreases |text| - i
    {
      var member := ParseMember(text, i, pointer, members);
      if member.Failed? {
        return Failed(member.reason, member.pointer);
      }
      members := members + [member.value];
      i := SkipSpaces(text, member.next);
      if !At(text, i, COMMA) {
        break;
      }
      i := i + 1;
    }
    if !At(text, i, CLOSE_BRACE) {
      return Failed(MissingClosingBrace, pointer);
    }
    return Scanned(Map(members), i + 1);
  }

  /** One member of an object: whitespace, its key, the colon and its
      value. */
  method ParseMember(text: Text, pos: nat, pointer: Text, members: seq<Member>) returns (r: Scan<Member>)
    requires pos <= |text|
    ensures r == MemberAt(text, pos, pointer, members)
    decreases |text| - pos, 2
  {
    var i := SkipSpaces(text, pos);
    if !At(text, i, QUOTE) {
      return Failed(IllegalKey, pointer);
    }
    var key := ParseString(text, i + 1, pointer);
    if key.Failed? {
      return Failed(key.reason, key.pointer);
    }
    if key.value in Keys(members) {
      return Failed(DuplicateKey, pointer);
    }
    var colon := SkipSpaces(text, key.next);
    if !At(text, colon, COLON) {
      return Failed(MissingColon, pointer);
    }
    var value := ParseValue(text, colon + 1, pointer + [SLASH] + key.value);
    if value.Failed? {
      return Failed(value.reason, value.pointer);
    }
    return Scanned(Member(key.value, value.value), value.next);
  }

  /** The array branch: `start` is just after the `[`. */
  method ParseArray(text: Text, start: nat, pointer: Text) returns (r: Scan<Value>)
    requires start <= |text|
    ensures r == ArrayAt(text, start, pointer)
    decreases |text| - start, 3
  {
    var items: seq<Value> := [];
    var i := SkipSpaces(text, start);
    if At(text, i, CLOSE_BRACKET) {
      return Scanned(List(items), i + 1);
    }
    while true
      invariant start <= i <= |text|
      invariant ElementsAt(text, i, pointer, items) == ArrayAt(text, start, pointer)
      decreases |text| - i
    {
      var item := ParseValue(text, i, pointer + [SLASH] + DecimalText(|items|));
      if item.Failed? {
        return Failed(item.reason, item.pointer);
      }
      items := items + [item.value];
      i := SkipSpaces(text, item.next);
      if !At(text, i, COMMA) {
        break;
      }
      i := i + 1;
    }
    if !At(text, i, CLOSE_BRACKET) {
      return Failed(MissingClosingBracket, pointer);
    }
    return Scanned(List(items), i + 1);
  }

  /** The number branch, reached when no other kind of element matched at
      `start`. */
  method ParseNumber(text: Text, start: nat, pointer: Text) returns (r: Scan<Value>)
    requires start <= |text|
    ensures r == NumberAt(text, start, pointer)
  {
    var i := start;
    var negative := At(text, i, MINUS);
    if negative {
      i := i + 1;
    }
    var digitsStart := i;
    i := DigitRun(text, i);
    if i == digitsStart {
      return Failed(IllegalSyntax, pointer);
    }
    var integerLength := i - digitsStart;
    if integerLength > 1 && text[digitsStart] == DIGIT_ZERO {
      return Failed(IllegalNumber, pointer);
    }
    var fraction := ScanFraction(text, i);
    if fraction.None? {
      return Failed(IllegalNumber, pointer);
    }
    var exponent := ScanExponent(text, fraction.value);
    if exponent.None? {
      return Failed(IllegalNumber, pointer);
    }
    var floating := exponent.value != i;
    i := exponent.value;
    if !floating {
      DigitRunIsLongest(text, digitsStart);
      var magnitude: int := DigitsValue(text[digitsStart..i]);
      var result: int := if negative then -magnitude else magnitude;
      if integerLength < MAX_INTEGER_DIGITS_LENGTH {
        ShortDigitRunFits(text[digitsStart..i]);
        return Scanned(Integer(result), i);
      }
      if LONG_MIN <= result <= LONG_MAX {
        if INT_MIN <= result <= INT_MAX {
          return Scanned(Integer(result), i);
        }
        return Scanned(Long(result), i);
      }
    }
    return Scanned(BigDecimal(text[start..i]), i);
  }

  /** The optional fraction of a number whose integer digits end at `i`. */
  method ScanFraction(text: Text, i: nat) returns (e: Option<nat>)
    requires i <= |text|
    ensures e == FractionEnd(text, i)
  {
    if !At(text, i, DOT) {
      return Some(i);
    }
    var j := DigitRun(text, i + 1);
    if j == i + 1 {
      return None;
    }
    return Some(j);
  }

  /** The optional exponent of a number whose fraction ends at `i`. */
  method ScanExponent(text: Text, i: nat) returns (e: Option<nat>)
    requires i <= |text|
    ensures e == ExponentEnd(text, i)
  {
    if !(At(text, i, LOWER_E) || At(text, i, UPPER_E)) {
      return Some(i);
    }
    var j := i + 1;
    if At(text, j, MINUS) || At(text, j, PLUS) {
      j := j + 1;
    }
    var digitsStart := j;
    j := DigitRun(text, digitsStart);
    if j == digitsStart {
      return None;
    }
    return Some(j);
  }

  /** `parseString`: `pos` is just after the opening quote.  The first loop
      looks for the closing quote; only when it meets a backslash does the
      second loop decode into a buffer, copying the text read so far. */
  method ParseString(text: Text, pos: nat, pointer: Text) returns (r: Scan<Text>)
    requires pos <= |text|
    ensures r == StringAt(text, pos, pointer, [])
  {
    var start := pos;
    var i := pos;
    assert text[start..i] == [];
    while true
      invariant start <= i <= |text|
      invariant StringAt(text, i, pointer, text[start..i]) == StringAt(text, start, pointer, [])
      decreases |text| - i
    {
      if i == |text| {
        return Failed(UnterminatedString, pointer);
      }
      var ch := text[i];
      i := i + 1;
      if ch == QUOTE {
        return Scanned(text[start..i - 1], i);
      }
      if ch == BACKSLASH {
        break;
      }
      if ch < 0x20 {
        return Failed(IllegalChar, pointer);
      }
      assert text[start..i] == text[start..i - 1] + [ch];
    }
    var sb := text[start..i - 1];
    while true
      invariant 0 < i <= |text| && text[i - 1] == BACKSLASH
      invariant StringAt(text, i - 1, pointer, sb) == StringAt(text, start, pointer, [])
      decreases |text| - i
    {
      if i == |text| {
        return Failed(UnterminatedString, pointer);
      }
      var ch := text[i];
      i := i + 1;
      if ch == QUOTE {
        sb := sb + [QUOTE];
      } else if ch == BACKSLASH {
        sb := sb + [BACKSLASH];
      } else if ch == SLASH {
        sb := sb + [SLASH];
      } else if ch == LOWER_B {
        sb := sb + [BACKSPACE];
      } else if ch == LOWER_F {
        sb := sb + [FORM_FEED];
      } else if ch == LOWER_N {
        sb := sb + [LF];
      } else if ch == LOWER_R {
        sb := sb + [CR];
      } else if ch == LOWER_T {
        sb := sb + [TAB];
      } else if ch == LOWER_U {
        if !HexAt(text, i) {
          return Failed(IllegalUnicodeSequence, pointer);
        }
        sb := sb + [HexValue(text, i)];
        i := i + 4;
      } else {
        return Failed(IllegalEscapeSequence, pointer);
      }
      while true
        invariant 0 < i <= |text|
        invariant StringAt(text, i, pointer, sb) == StringAt(text, start, pointer, [])
        decreases |text| - i
      {
        if i == |text| {
          return Failed(UnterminatedString, pointer);
        }
        ch := text[i];
        i := i + 1;
        if ch == QUOTE {
          return Scanned(sb, i);
        }
        if ch == BACKSLASH {
          break;
        }
        if ch < 0x20 {
          return Failed(IllegalChar, pointer);
        }
        sb := sb + [ch];
      }
    }
  }
}
