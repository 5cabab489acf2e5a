# json-simple: parser, parse errors, parse options and formatters in Dafny

This project models the core of the Java library json-simple:

- the recursive-descent JSON parser `net.pwall.json.parser.Parser`;
- its error value, `ParseException`;
- the options record `ParseOptions`;
- the two JSON serialisers `Formatter`, in the `net.pwall` and `io.jstuff` packages.

Text is a sequence of UTF-16 code units (`CodeUnits.Text`), as a Java `String` is. A `\uD800` escape therefore yields a lone surrogate, as it does in Java.

**Parser** (`parser.dfy`)

- The grammar is written as total functions over a text and a position: `ValueAt`, `ObjectAt`, `MembersAt`, `MemberAt`, `ArrayAt`, `ElementsAt`, `StringAt`, `NumberAt` and `Document`.
- Each returns either the value read and the position after it, or the error reason and the JSON Pointer at which the source throws.
- The methods `Parse`, `ParseValue`, `ParseObject`, `ParseMember`, `ParseArray`, `ParseNumber` and `ParseString` follow the Java code loop for loop. Each is proved to return exactly what the grammar functions return.
- The `TextMatcher` cursor becomes a position threaded through the loops.
- `Document` builds the `ParseException` from the reason's message text.

**Parser properties** (`parser_properties.dfy`, `parser_examples.dfy`)

- The number grammar is characterised in both directions: every accepted number is a valid RFC 8259 number, and every valid number is accepted.
- The integer width buckets are proved.
- Errors are reported at the pointer of the value that failed. Member-syntax errors are at the container's own pointer, and a member's or element's errors are at `pointer + "/" + key` or `pointer + "/" + i`.
- Strings without escapes decode to exactly their raw text.
- Every parsed value is well formed: the keys of every object are distinct, and every `Long` is outside the `int` range.
- `parser_examples.dfy` restates the parser's unit tests as lemmas on the same inputs.

**ParseException and ParseOptions** (`parse_exception.dfy`, `parse_options.dfy`)

- Both are immutable values. The constructors become functions.
- Construction of `ParseOptions` returns a `Result` that fails outside the nesting-depth range 1..1200.

**Formatters** (`formatter.dfy`, `layout.dfy`, `net_formatter.dfy`, `io_formatter.dfy`, `formatter_examples.dfy`)

- The output sink `java.lang.Appendable` is a class whose `contents` only ever grows (`appendable.dfy`).
- The layout of the output is given by functions:
  - `Compact` for `outputTo`;
  - `Indented` for `formatTo`;
  - `Quoted` for `appendString`;
  - `PrimitiveText` for `appendPrimitive`.
- Every formatter method is proved to append exactly its layout to the sink. This holds for any starting indent, negative ones included: a count that is not positive writes no spaces, as `appendSpaces` does.
- The two `formatTo` loops differ: `net.pwall` writes the separator after each comma, while `io.jstuff` writes it before each member. They are proved to append the same text.
- Java's runtime type dispatch becomes the closed datatype `Layout.Node`, with one constructor per branch of the source.

**Round trip** (`round_trip.dfy`, `indented_round_trip.dfy`)

- The parser reads back what the compact formatter writes: `Document(Compact(ToNode(v))) == Success(v)` for every value the parser can return.
- In particular, `appendString` output parses back to the string it was given.
- The parser also reads back what `formatTo` writes: `Document(Indented(ToNode(v), indent, ls, current)) == Success(v)`. This holds for every indent and starting indent, and for every line separator made of JSON whitespace (space, tab, `\n`, `\r`).

## Model

| member | source | states |
|---|---|---|
| Parser.SkipSpaces | src/main/java/net/pwall/json/parser/Parser.java:282-284 | Skipping spaces never moves backwards and stays within the text. |
| Parser.DigitRun | src/main/java/net/pwall/json/parser/Parser.java:176 | The digit scan never moves backwards and stays within the text. |
| Parser.FractionEnd | src/main/java/net/pwall/json/parser/Parser.java:181-185 | When a fraction is accepted, it ends between the integer part's end and the end of the text. |
| Parser.ExponentEnd | src/main/java/net/pwall/json/parser/Parser.java:186-191 | When an exponent is accepted, it ends between the fraction's end and the end of the text. |
| Parser.HexRunValue | src/main/java/net/pwall/json/parser/Parser.java:254-258 | The value of `n` hex digits is below `16^n`, so four digits always make one code unit. |
| Parser.ObjectAt | src/main/java/net/pwall/json/parser/Parser.java:109-139 | An object that is read ends strictly after its `{` and within the text. |
| Parser.MemberAt | src/main/java/net/pwall/json/parser/Parser.java:114-129 | A member that is read ends strictly after where it started and within the text. |
| Parser.MembersAt | src/main/java/net/pwall/json/parser/Parser.java:114-138 | The member loop, when it succeeds, ends after its `}` and within the text. |
| Parser.ArrayAt | src/main/java/net/pwall/json/parser/Parser.java:141-160 | An array that is read ends strictly after its `[` and within the text. |
| Parser.ElementsAt | src/main/java/net/pwall/json/parser/Parser.java:146-159 | The element loop, when it succeeds, ends after its `]` and within the text. |
| Parser.Parse | src/main/java/net/pwall/json/parser/Parser.java:87-94 | The parse of a whole text is exactly `Document`. That is the value at position 0 with root pointer "", or the first error. Non-space text after the value and its trailing spaces fails with "Excess characters following JSON" at the root. |
| Parser.ParseValue | src/main/java/net/pwall/json/parser/Parser.java:106-208 | Dispatching on the first non-space unit (object, array, string, keyword, number, else "Illegal JSON syntax") returns exactly the grammar's `ValueAt` result. |
| Parser.ValueAt | src/main/java/net/pwall/json/parser/Parser.java:106-208 | A value that is read ends strictly after where reading started and within the text. |
| Parser.ParseObject | src/main/java/net/pwall/json/parser/Parser.java:109-139 | The member loop returns exactly `ObjectAt`. `{` then optional spaces and `}` is the empty map. Members are kept in input order. Anything but `,` or `}` after a member is "Missing closing brace" at the object's pointer. |
| Parser.ParseMember | src/main/java/net/pwall/json/parser/Parser.java:114-129 | One member is read exactly as `MemberAt` reads it: key quote ("Illegal key"), key string, duplicate check before the colon ("Duplicate key"), colon ("Missing colon"), then the value at `pointer + "/" + key`. |
| Parser.ParseArray | src/main/java/net/pwall/json/parser/Parser.java:141-160 | The element loop returns exactly `ElementsAt`. The element with index `i` is read at `pointer + "/" + i`. Anything but `,` or `]` after an element is "Missing closing bracket". |
| Parser.ParseNumber | src/main/java/net/pwall/json/parser/Parser.java:174-205 | Returns exactly `NumberAt`. A leading zero in a multi-digit integer part, or an empty fraction or exponent, is "Illegal JSON number". The integer buckets are `Integer` below 10 digits, then `Integer`/`Long` by range, then `BigDecimal` of the literal text. |
| Parser.NumberAt | src/main/java/net/pwall/json/parser/Parser.java:174-205 | A number that is read ends strictly after its start and within the text. |
| Parser.ScanFraction | src/main/java/net/pwall/json/parser/Parser.java:181-185 | Returns exactly `FractionEnd`. A `.` must be followed by at least one digit, otherwise there is no end. |
| Parser.ScanExponent | src/main/java/net/pwall/json/parser/Parser.java:186-191 | Returns exactly `ExponentEnd`. `e`/`E` and an optional sign must be followed by at least one digit. |
| Parser.ParseString | src/main/java/net/pwall/json/parser/Parser.java:220-274 | Its three loops (plain run, escape, tail) return exactly `StringAt`: the decoded units up to the first unescaped quote, or the first error met. |
| Parser.StringAt | src/main/java/net/pwall/json/parser/Parser.java:220-274 | A string that is read ends after its opening position and within the text. |
| Parser.SkipSpacesStopsAtFirstNonSpace | src/main/java/net/pwall/json/parser/Parser.java:282-284 | Skipping passes exactly the run of space, LF, TAB and CR, and stops at the first other unit. |
| Parser.DigitRunIsLongest | src/main/java/net/pwall/json/parser/Parser.java:176-177 | The digit run matched is all digits and is not followed by a digit. |
| Parser.ShortDigitRunFits | src/main/java/net/pwall/json/parser/Parser.java:192-194 | Fewer than `MAX_INTEGER_DIGITS_LENGTH` (10) digits always denote a number that fits an `int`. |
| ParserProperties.StringErrorPointer | src/main/java/net/pwall/json/parser/Parser.java:220-274 | Every string error is reported at the pointer the string was read with, and is one of the four string errors (unterminated, illegal character, illegal Unicode sequence, illegal escape). |
| ParserProperties.ValueErrorPointer | src/main/java/net/pwall/json/parser/Parser.java:106-208 | The pointer of any error extends the pointer of the value being read. |
| ParserProperties.ObjectErrorPointer | src/main/java/net/pwall/json/parser/Parser.java:109-139 | An object fails in one of two ways. Either the error is at the object's own pointer and is a member-syntax error (illegal key, duplicate key, missing colon, missing closing brace) or a key-string error. Or it is exactly the failure of some member value read at `pointer + "/" + key`. Either way the error pointer extends the object's. |
| ParserProperties.MemberErrorPointer | src/main/java/net/pwall/json/parser/Parser.java:114-129 | A member fails either at the object's own pointer, with a missing quote, a key-string error, a duplicate key or a missing colon, or with exactly the failure of its value, read at `pointer + "/" + key` for a key not among those already read. |
| ParserProperties.MembersErrorPointer | src/main/java/net/pwall/json/parser/Parser.java:114-136 | The member loop fails either at the object's own pointer, with a member-syntax or key-string error such as "Missing closing brace", or with exactly the failure of a later member's value at `pointer + "/" + key`. |
| ParserProperties.ArrayErrorPointer | src/main/java/net/pwall/json/parser/Parser.java:141-160 | An array fails either at its own pointer with "Missing closing bracket", or with exactly the failure of one of its elements, read at `pointer + "/" + i`. |
| ParserProperties.ElementsErrorPointer | src/main/java/net/pwall/json/parser/Parser.java:146-157 | The element loop fails either at the array's own pointer with "Missing closing bracket", or with exactly the failure of an element of index `i >= |items|`, read at `pointer + "/" + i`. |
| ParserProperties.EmptyArrayAt | src/main/java/net/pwall/json/parser/Parser.java:141-145 | `[]` is read as the empty list. |
| ParserProperties.ArrayOpensAt | src/main/java/net/pwall/json/parser/Parser.java:141-146 | `[` followed by something other than `]` starts the element loop with no elements read. |
| ParserProperties.EmptyObjectAt | src/main/java/net/pwall/json/parser/Parser.java:109-113 | `{}` is read as the empty map. |
| ParserProperties.ObjectOpensAt | src/main/java/net/pwall/json/parser/Parser.java:109-114 | `{` followed by something other than `}` starts the member loop with no members read. |
| ParserProperties.ElementThenComma | src/main/java/net/pwall/json/parser/Parser.java:152-155 | An element read at `pointer/i` and followed by `,` is appended, and the loop goes on after the comma. |
| ParserProperties.ElementThenClose | src/main/java/net/pwall/json/parser/Parser.java:152-159 | An element followed by optional whitespace and `]` ends the list, which holds the elements read so far and this one, in order. |
| ParserProperties.MemberThenComma | src/main/java/net/pwall/json/parser/Parser.java:129-133 | A member followed by `,` is appended, and the loop goes on after the comma. |
| ParserProperties.MemberThenClose | src/main/java/net/pwall/json/parser/Parser.java:129-138 | A member followed by optional whitespace and `}` ends the map, which holds the members read so far and this one, in order. |
| ParserProperties.MemberParts | src/main/java/net/pwall/json/parser/Parser.java:115-129 | A quoted key that is new, a colon and a value read at `pointer/key` make exactly that member. |
| ParserProperties.FractionEndIsFrac | src/main/java/net/pwall/json/parser/Parser.java:181-185 | What the fraction scan passes over is empty, or `.` and one or more digits. |
| ParserProperties.ExponentEndIsExp | src/main/java/net/pwall/json/parser/Parser.java:186-191 | What the exponent scan passes over is empty, or `e`/`E`, an optional sign and one or more digits. |
| ParserProperties.NumberAtFollowsGrammar | src/main/java/net/pwall/json/parser/Parser.java:174-205 | Every number the parser accepts is the text of a valid number of the grammar in section 6 of RFC 8259, and its value is that number's value. |
| ParserProperties.NumberGrammarAccepted | src/main/java/net/pwall/json/parser/Parser.java:174-205 | Conversely, every valid number not followed by a digit, `.`, `e` or `E` is accepted, with its value, and reading ends after it. |
| ParserProperties.DigitRunReaches | src/main/java/net/pwall/json/parser/Parser.java:176 | A run of digits that ends at a non-digit is exactly what the digit scan matches. |
| ParserProperties.FractionEndReaches | src/main/java/net/pwall/json/parser/Parser.java:181-185 | A valid fraction followed by a non-digit is exactly what the fraction scan passes over. |
| ParserProperties.ExponentEndReaches | src/main/java/net/pwall/json/parser/Parser.java:186-191 | A valid exponent followed by a non-digit is exactly what the exponent scan passes over. |
| ParserProperties.NumberValueWellFormed | src/main/java/net/pwall/json/parser/Parser.java:192-204 | The value of a valid number is never a `Long` within the `int` range. A `BigDecimal` is always one the grammar yields. |
| ParserProperties.ValueAtNumber | src/main/java/net/pwall/json/parser/Parser.java:174-176 | A value starting with `-` or a digit is read as a number. |
| ParserProperties.DocumentOfNumber | src/main/java/net/pwall/json/parser/Parser.java:87-94 | A whole text that is a valid number parses to that number's value. |
| ParserProperties.IntegerLiteralParses | src/main/java/net/pwall/json/parser/Parser.java:192-204 | The decimal text of any integer parses to an `Integer` when it fits 32 bits, else to a `Long` when it fits 64 bits, else to a `BigDecimal` of that same text. |
| ParserProperties.PlainRunCopied | src/main/java/net/pwall/json/parser/Parser.java:222-232 | A run with no quote, backslash or control unit is copied to the result unchanged. |
| ParserProperties.PlainStringDecodes | src/main/java/net/pwall/json/parser/Parser.java:221-227 | A string with no backslash and no control unit decodes to exactly the text between its quotes. |
| ParserProperties.PlainStringUnterminated | src/main/java/net/pwall/json/parser/Parser.java:222-224 | Plain text that runs to the end of the input without a closing quote is "Unterminated JSON string". |
| ParserProperties.ValueWellFormed | src/main/java/net/pwall/json/parser/Parser.java:106-208 | Every value read is well formed: objects have distinct keys, a `Long` lies outside the `int` range, and a `BigDecimal` comes from the grammar. |
| ParserProperties.ObjectWellFormed | src/main/java/net/pwall/json/parser/Parser.java:109-139 | Every object read is well formed. |
| ParserProperties.MemberWellFormed | src/main/java/net/pwall/json/parser/Parser.java:117-129 | A member that is read has a key not among the keys before it, and a well-formed value. |
| ParserProperties.MembersWellFormed | src/main/java/net/pwall/json/parser/Parser.java:114-138 | The member loop keeps the members well formed, so the map it returns is well formed. |
| ParserProperties.AddMember | src/main/java/net/pwall/json/parser/Parser.java:118-129 | Appending a member with a new key and a well-formed value keeps the keys distinct. |
| ParserProperties.ArrayWellFormed | src/main/java/net/pwall/json/parser/Parser.java:141-160 | Every array read is well formed. |
| ParserProperties.ElementsWellFormed | src/main/java/net/pwall/json/parser/Parser.java:146-159 | The element loop keeps every element well formed. |
| ParserProperties.DocumentWellFormed | src/main/java/net/pwall/json/parser/Parser.java:87-94 | The value of a whole text that parses is well formed. |
| ParserExamples.TrailingCommaInArray | src/main/java/net/pwall/json/parser/Parser.java:146-155 | `[1,]` fails with "Illegal JSON syntax" at pointer `/1`. |
| ParserExamples.LeadingZero | src/test/java/net/pwall/json/parser/test/ParserNumberTest.java:48-50 | `00` fails with "Illegal JSON number" at the root. |
| ParserExamples.LoneMinus | src/main/java/net/pwall/json/parser/Parser.java:174-176 | `-` with no digit falls through to "Illegal JSON syntax". |
| ParserExamples.EmptyFractionAndExponent | src/main/java/net/pwall/json/parser/Parser.java:181-191 | `1.` and `1e+` fail with "Illegal JSON number". |
| ParserExamples.ExcessAfterNumber | src/test/java/net/pwall/json/parser/test/ParserNumberTest.java:57-58 | `123a` fails with "Excess characters following JSON", without a pointer. |
| ParserExamples.IntegerBuckets | src/test/java/net/pwall/json/parser/test/ParserNumberTest.java:66-149 | The bucket boundaries: `2147483647` and `-2147483648` are `Integer`; `2147483648`, `-2147483649` and the `long` limits are `Long`; `9223372036854775808` is a `BigDecimal`. |
| ParserExamples.StringNeverClosed | src/test/java/net/pwall/json/parser/test/ParserStringTest.java:53-58 | A string without its closing quote is "Unterminated JSON string". |
| ParserExamples.BadEscape | src/test/java/net/pwall/json/parser/test/ParserStringTest.java:61-66 | `\c` is "Illegal escape sequence in JSON string". |
| ParserExamples.BadUnicodeEscape | src/test/java/net/pwall/json/parser/test/ParserStringTest.java:69-74 | `\uxxxx` is "Illegal Unicode sequence in JSON string". |
| ParserExamples.ControlCharacterInString | src/test/java/net/pwall/json/parser/test/ParserStringTest.java:77-82 | A raw U+0001 inside a string is "Illegal character in JSON string". |
| ParserExamples.UnicodeEscape | src/test/java/net/pwall/json/parser/test/ParserStringTest.java:48-50 | The six-unit escape `\u2014` decodes to the single code unit 0x2014. |
| ParserExamples.ObjectNeverClosed | src/test/java/net/pwall/json/parser/test/ParserObjectTest.java:82-87 | `{"first":123` fails with "Missing closing brace in JSON object". |
| ParserExamples.DuplicateKeyInObject | src/test/java/net/pwall/json/parser/test/ParserObjectTest.java:106-112 | A repeated key fails with "Duplicate key in JSON object" at the object's pointer. |
| ParserExamples.ColonMissing | src/test/java/net/pwall/json/parser/test/ParserObjectTest.java:90-95 | `{"first"123}` fails with "Missing colon in JSON object". |
| ParserExamples.UnquotedKey | src/test/java/net/pwall/json/parser/test/ParserObjectTest.java:98-103 | `{first:123}` fails with "Illegal key in JSON object". |
| ParserExamples.UnclosedArrayDocument | src/test/java/net/pwall/json/parser/test/ParserArrayTest.java:85-90 | Any 9-unit text of `[`, a quoted plain string of six units and nothing else fails with "Missing closing bracket in JSON array" at the root. |
| ParserExamples.KeyWithoutColon | src/test/java/net/pwall/json/parser/test/ParserObjectTest.java:90-95 | Any text that starts `{"first"` followed by a unit that is neither a space nor a colon fails with "Missing colon in JSON object" at the root. |
| ParserExamples.KeyWithoutQuote | src/test/java/net/pwall/json/parser/test/ParserObjectTest.java:98-103 | Any text that starts with `{` followed by a unit that is not a quote, a space or `}` fails with "Illegal key in JSON object" at the root. |
| ParserExamples.UnclosedObjectDocument | src/test/java/net/pwall/json/parser/test/ParserObjectTest.java:82-87 | Any text of exactly `{"first":123` fails with "Missing closing brace in JSON object". |
| ParserExamples.RepeatedKey | src/test/java/net/pwall/json/parser/test/ParserObjectTest.java:106-112 | Any text that starts `{"first":123,"first"` fails with "Duplicate key in JSON object" at the root. |
| ParserExamples.EscapedCodeUnit | src/test/java/net/pwall/json/parser/test/ParserStringTest.java:48-50 | `"mdash \u2014"` decodes to `mdash ` followed by the single code unit 0x2014. |
| ParserExamples.OneTwoThree | src/test/java/net/pwall/json/parser/test/ParserNumberTest.java:65-68 | `123` is a valid number whose value is `Integer` 123. |
| ParserExamples.ArrayNeverClosed | src/test/java/net/pwall/json/parser/test/ParserArrayTest.java:85-90 | `["simple"` fails with "Missing closing bracket in JSON array". |
| ParseOptions.NewParseOptions | src/main/java/net/pwall/json/parser/ParseOptions.java:38-72 | Construction succeeds exactly when the maximum nesting depth is in 1..1200, and fails with the value it was given otherwise. Each getter returns its constructor argument. |
| ParseOptions.DuplicateKeyOptionCases | src/main/java/net/pwall/json/parser/ParseOptions.java:74 | The duplicate-key policy is one of exactly four values. |
| ParseExceptions.WithPointer | src/main/java/io/jstuff/json/parser/ParseException.java:48-52 | The text and pointer are kept unchanged. The message is the text alone when the pointer is empty, and `text + " at " + pointer` otherwise. |
| ParseExceptions.AtRoot | src/main/java/io/jstuff/json/parser/ParseException.java:59-63 | The pointer is empty and the message equals the text. |
| ParseExceptions.RootConstructorsAgree | src/main/java/io/jstuff/json/parser/ParseException.java:48-63 | The one-argument constructor equals the two-argument one with an empty pointer, so a root error's text and message are the same. |
| ParseExceptions.MessageShowsPointer | src/main/java/io/jstuff/json/parser/ParseException.java:49 | With a pointer, the message differs from the text, starts with it, and ends with the pointer. |
| Appendables.Appendable.constructor | src/main/java/net/pwall/json/format/Formatter.java:230 | An empty sink to format into. |
| Appendables.Appendable.Append | src/main/java/net/pwall/json/format/Formatter.java:184-186 | Appending adds the text at the end and changes nothing else. |
| Formatters.CheckIndent | src/main/java/net/pwall/json/format/Formatter.java:564-568 | A negative indent is refused with "indent may not be negative". Any other indent is returned unchanged. The `io.jstuff` counterpart (`Formatter.java` lines 403-407) does the same. |
| Formatters.CheckLineSeparator | src/main/java/net/pwall/json/format/Formatter.java:577-581 | A null separator is refused with "lineSeparator may not be null". Any other separator, the empty one included, is returned unchanged. The `io.jstuff` counterpart (`Formatter.java` lines 416-420) does the same. |
| Formatters.NewFormatter | src/main/java/net/pwall/json/format/Formatter.java:113-116 | Construction succeeds exactly when both checks pass, and the indent check comes first. The `io.jstuff` counterpart (`Formatter.java` lines 87-90) does the same. |
| Formatters.FormatterWithIndent | src/main/java/net/pwall/json/format/Formatter.java:124-127 | Takes the checked indent and the system separator. |
| Formatters.FormatterWithLineSeparator | src/main/java/net/pwall/json/format/Formatter.java:135-138 | Takes the default indent 2 and the checked separator. |
| Formatters.DefaultFormatter | src/main/java/net/pwall/json/format/Formatter.java:143-146 | Indent 2 and the system separator. |
| Formatters.AppendSpaces | src/main/java/net/pwall/json/format/Formatter.java:173-176 | The countdown loop appends `count` spaces, and none for a count that is not positive. The `io.jstuff` counterpart (`Formatter.java` lines 147-150) does the same. |
| Formatters.AppendLineSeparator | src/main/java/net/pwall/json/format/Formatter.java:184-186 | Appends the separator verbatim. |
| Layout.Spaces | src/main/java/net/pwall/json/format/Formatter.java:173-176 | `count` units, every one a space, and none at all for a count that is not positive. |
| Layout.HexDigit | src/main/java/net/pwall/json/format/Formatter.java:96-98 | A hexadecimal digit is `0`-`9` or upper-case `A`-`F`. |
| Layout.EscapedSnoc | src/main/java/net/pwall/json/format/Formatter.java:428-453 | The escape loop works unit by unit: escaping one more unit extends the output by that unit's escape. |
| Layout.EscapeUnitPrintable | src/main/java/net/pwall/json/format/Formatter.java:430-452 | Whatever the unit, its escape is printable ASCII, 0x20..0x7E. |
| Layout.EscapedPrintable | src/main/java/net/pwall/json/format/Formatter.java:428-453 | The escaped form of any string is printable ASCII only. |
| Layout.QuotedPrintable | src/main/java/net/pwall/json/format/Formatter.java:418-455 | Everything `appendString` writes, the quotes included, is printable ASCII. |
| NetFormatter.FormatTo | src/main/java/net/pwall/json/format/Formatter.java:230-303 | Appends exactly `Indented(v, indent, lineSeparator, currentIndent)`. Null is `null`. An empty map or list is `{}` or `[]`. Otherwise the block is: open, separator, members each at the deeper indent joined by `,` and the separator, separator, the current indent, close. |
| NetFormatter.FormatMap | src/main/java/net/pwall/json/format/Formatter.java:234-258 | The map branch appends exactly the map's indented layout. |
| NetFormatter.FormatEntries | src/main/java/net/pwall/json/format/Formatter.java:240-253 | The entry loop appends each `"key": value` line at the deeper indent. Lines are joined by `,` and the separator. |
| NetFormatter.FormatCollection | src/main/java/net/pwall/json/format/Formatter.java:259-278 | The collection branch appends exactly the collection's indented layout. |
| NetFormatter.FormatCollectionItems | src/main/java/net/pwall/json/format/Formatter.java:265-273 | The iterator loop appends each item at the deeper indent. Items are joined by `,` and the separator. |
| NetFormatter.FormatArray | src/main/java/net/pwall/json/format/Formatter.java:279-299 | The `Object[]` branch appends exactly the array's indented layout. |
| NetFormatter.FormatArrayElements | src/main/java/net/pwall/json/format/Formatter.java:286-294 | The index loop appends each element at the deeper indent. Elements are joined by `,` and the separator. |
| NetFormatter.OutputTo | src/main/java/net/pwall/json/format/Formatter.java:331-384 | Appends exactly `Compact(v)`: `{"k":v,...}` and `[a,b,...]` with no whitespace added. The `io.jstuff` counterpart (`Formatter.java` lines 303-356) does the same. |
| NetFormatter.OutputEntries | src/main/java/net/pwall/json/format/Formatter.java:339-348 | The entry loop appends the `"key":value` entries joined by commas. |
| NetFormatter.OutputCollectionItems | src/main/java/net/pwall/json/format/Formatter.java:356-362 | The iterator loop appends the items joined by commas. |
| NetFormatter.OutputArrayElements | src/main/java/net/pwall/json/format/Formatter.java:371-377 | The index loop appends the elements joined by commas. |
| NetFormatter.AppendPrimitive | src/main/java/net/pwall/json/format/Formatter.java:396-416 | `Integer` and `Long` appear in standard decimal form. Another number appears as its text. A character sequence is quoted. Anything else appears bare when its text is `true` or `false`, and quoted otherwise. The `io.jstuff` counterpart (`Formatter.java` lines 368-384) does the same. |
| NetFormatter.AppendString | src/main/java/net/pwall/json/format/Formatter.java:426-455 | Appends `"`, the escape of every unit in order, then `"`. |
| NetFormatter.AppendEscapedUnit | src/main/java/net/pwall/json/format/Formatter.java:429-452 | `"` and `\` are backslashed. `\b \f \n \r \t` use their short escapes. Other units below 0x20 or from 0x7F up become `\u` and four upper-case hex digits. Everything else is copied. |
| NetFormatter.AppendInt | src/main/java/net/pwall/json/format/Formatter.java:465-476 | Appends the standard signed decimal text of any `int`, `MIN_VALUE` included. |
| NetFormatter.AppendPositiveInt | src/main/java/net/pwall/json/format/Formatter.java:486-500 | The two-digits-at-a-time recursion appends the decimal text of a non-negative `int`. |
| NetFormatter.AppendLong | src/main/java/net/pwall/json/format/Formatter.java:510-521 | Appends the standard signed decimal text of any `long`, `MIN_VALUE` included. |
| NetFormatter.AppendPositiveLong | src/main/java/net/pwall/json/format/Formatter.java:531-545 | The two-digits-at-a-time recursion appends the decimal text of a non-negative `long`. |
| NetFormatter.HexTable | src/main/java/net/pwall/json/format/Formatter.java:96-98 | The hex table holds the upper-case digit for every value below 16. |
| NetFormatter.LastTwoDigits | src/main/java/net/pwall/json/format/Formatter.java:487-492 | The tens and units tables at `i % 100` give the last two digits of the decimal text of `i`. |
| NetFormatter.IntMinText | src/main/java/net/pwall/json/format/Formatter.java:467-468 | The literal written for `Integer.MIN_VALUE` is its decimal text. |
| NetFormatter.LongMinText | src/main/java/net/pwall/json/format/Formatter.java:512-513 | The literal written for `Long.MIN_VALUE` is its decimal text. |
| CodeUnits.DecimalTextIsStandard | src/main/java/net/pwall/json/format/Formatter.java:486-500 | The decimal text is a non-empty digit run denoting the number, with a leading `0` only for zero. |
| CodeUnits.DecimalTextInjective | src/main/java/net/pwall/json/format/Formatter.java:486-500 | Different numbers have different decimal texts. |
| CodeUnits.KeywordsSpelling | src/main/java/net/pwall/json/parser/Parser.java:165-172 | The keyword constants spell `true`, `false` and `null`. |
| IoFormatter.FormatTo | src/main/java/io/jstuff/json/format/Formatter.java:204-276 | Writes the separator before each member rather than after each comma, yet appends exactly the same `Indented` layout as the `net.pwall` `formatTo`. |
| IoFormatter.FormatMap | src/main/java/io/jstuff/json/format/Formatter.java:208-231 | The map branch appends exactly the map's indented layout. |
| IoFormatter.FormatEntries | src/main/java/io/jstuff/json/format/Formatter.java:213-226 | The separator-first entry loop appends a separator and then the entries joined by `,` and the separator. |
| IoFormatter.FormatCollection | src/main/java/io/jstuff/json/format/Formatter.java:232-251 | The collection branch appends exactly the collection's indented layout. |
| IoFormatter.FormatCollectionItems | src/main/java/io/jstuff/json/format/Formatter.java:237-246 | The separator-first loop appends a separator and then the items joined by `,` and the separator. |
| IoFormatter.FormatArray | src/main/java/io/jstuff/json/format/Formatter.java:252-272 | The `Object[]` branch appends exactly the array's indented layout. |
| IoFormatter.FormatArrayElements | src/main/java/io/jstuff/json/format/Formatter.java:258-267 | The separator-first index loop appends a separator and then the elements joined by `,` and the separator. |
| FormatterExamples.OneEntryMap | src/test/java/io/jstuff/json/format/test/FormatterTest.java:67-88 | A map of one entry is `{`, a separator, the entry at the deeper indent as `"key": value` with the value laid out at that indent, a separator, the starting indent and `}`. |
| FormatterExamples.NestedMaps | src/test/java/io/jstuff/json/format/test/FormatterTest.java:67-88 | A map inside a map puts each entry one indent further in than its enclosing map's entry. Each closing brace is on its own line at its own map's starting indent. |
| FormatterExamples.FourItems | src/test/java/io/jstuff/json/format/test/FormatterTest.java:98-118 | For any indent, separator and starting indent, the list 123, 456, 789, 222 gives one line per number. Each line is indented by the deeper indent, and the lines are joined by `,` and the separator. |
| FormatterExamples.ThreeDigitTexts | src/test/java/io/jstuff/json/format/test/FormatterTest.java:105-107 | The four numbers of that test print as `123`, `456`, `789` and `222`. |
| FormatterExamples.ArrayLikeCollection | src/test/java/io/jstuff/json/format/test/FormatterTest.java:143-148 | An `Object[]` is laid out exactly like a collection of the same elements, in both modes. |
| FormatterExamples.RefusedArguments | src/test/java/io/jstuff/json/format/test/FormatterTest.java:138-139 | A negative indent and a null separator are refused. |
| RoundTrip.HexDigitDecodes | src/main/java/net/pwall/json/format/Formatter.java:446-449 | The parser's hex scan reads every digit the formatter writes back as its value. |
| RoundTrip.HexEscapeDecodes | src/main/java/net/pwall/json/parser/Parser.java:254-258 | The four digits the formatter writes for a unit decode to that unit. |
| RoundTrip.EscapeUnitDecodes | src/main/java/net/pwall/json/parser/Parser.java:234-260 | The escape written for one unit is read back as that unit. |
| RoundTrip.EscapedDecodes | src/main/java/net/pwall/json/parser/Parser.java:220-274 | The escaped form of any string decodes to that string and stops at its end. |
| RoundTrip.QuotedDecodes | src/main/java/net/pwall/json/parser/Parser.java:220-274 | The string the formatter quotes is read back exactly, and reading ends after the closing quote. |
| RoundTrip.StringRoundTrip | src/main/java/net/pwall/json/format/Formatter.java:56-58 | For every string of code units, parsing the output of `appendString` gives that string back. |
| RoundTrip.CompactOpens | src/main/java/net/pwall/json/format/Formatter.java:331-384 | Compact output of a parsed value is never empty, and starts with a unit the parser dispatches on. |
| RoundTrip.ItemsJoined | src/main/java/net/pwall/json/format/Formatter.java:352-365 | The compact items are the items' compact texts joined by commas. |
| RoundTrip.MembersJoined | src/main/java/net/pwall/json/format/Formatter.java:335-351 | The compact entries are the `"key":value` texts joined by commas. |
| RoundTrip.KeysNew | src/main/java/net/pwall/json/parser/Parser.java:118-119 | With distinct keys, no member's key occurs among the keys before it, so the duplicate check never fires on formatter output. |
| RoundTrip.ItemsRead | src/main/java/net/pwall/json/parser/Parser.java:141-160 | The compact text of a list of well-formed values is read back as that list. |
| RoundTrip.MembersRead | src/main/java/net/pwall/json/parser/Parser.java:109-139 | The compact text of a map with distinct keys and well-formed values is read back as that map, in the same order. |
| RoundTrip.StringParses | src/main/java/net/pwall/json/parser/Parser.java:162-163 | A quoted string anywhere in a text is read as a string value and ends after its closing quote. |
| RoundTrip.KeywordRead | src/main/java/net/pwall/json/parser/Parser.java:165-172 | The compact text of `null`, `true` or `false` is read back as that value. |
| RoundTrip.IntegerParts | src/main/java/net/pwall/json/format/Formatter.java:465-521 | The decimal text of any integer is a valid number. Its value is `Integer`, `Long` or `BigDecimal` by range. |
| RoundTrip.NumberRead | src/main/java/net/pwall/json/parser/Parser.java:174-205 | A valid number that is not followed by a number unit is read back with its value. |
| RoundTrip.IntegerRead | src/main/java/net/pwall/json/parser/Parser.java:192-204 | The decimal text `appendInt`/`appendLong` writes is read back as the parser's bucket for that integer. |
| RoundTrip.LiteralRead | src/main/java/net/pwall/json/parser/Parser.java:204 | The literal text of a `BigDecimal` is read back as the same `BigDecimal`. |
| RoundTrip.ScalarRead | src/main/java/net/pwall/json/parser/Parser.java:162-205 | The compact text of any well-formed scalar value is read back as that value. |
| RoundTrip.ListRead | src/main/java/net/pwall/json/parser/Parser.java:141-160 | The compact text of a list of well-formed values is read back as that list, wherever it stands in a text. |
| RoundTrip.MapRead | src/main/java/net/pwall/json/parser/Parser.java:109-139 | The compact text of a well-formed map is read back as that map, wherever it stands in a text. |
| RoundTrip.ValueRead | src/main/java/net/pwall/json/parser/Parser.java:106-208 | The compact text of any well-formed value is read back as that value, wherever it stands in a text. |
| RoundTrip.KeyIsNew | src/main/java/net/pwall/json/parser/Parser.java:118-119 | In a map with distinct keys, the key of each member is not among the keys of the members before it. |
| RoundTrip.CompactRoundTrip | src/main/java/net/pwall/json/format/Formatter.java:56-58 | For every value the parser can return, parsing its compact output gives the value back. |
| RoundTrip.CompactIdempotent | src/test/java/io/jstuff/json/format/test/FormatterTest.java:61-63 | Compact output of a parsed text parses, and formats again to the same text. |
| RoundTrip.ItemsInPlaceRead | src/main/java/net/pwall/json/parser/Parser.java:146-159 | When every item of a body is read where it stands, each followed by a comma or, after the last, by whitespace and `]`, the element loop returns the whole list and ends after `]`. |
| RoundTrip.MembersInPlaceRead | src/main/java/net/pwall/json/parser/Parser.java:114-138 | When every member of a body is read where it stands, each followed by a comma or, after the last, by whitespace and `}`, the member loop returns the whole map and ends after `}`. |
| IndentedRoundTrip.IndentedRoundTrip | src/main/java/net/pwall/json/format/Formatter.java:230-303 | For every value the parser can return, and for any indent, starting indent and line separator made of JSON whitespace, parsing the `formatTo` output gives the value back. |
| IndentedRoundTrip.IndentedValueRead | src/main/java/net/pwall/json/parser/Parser.java:106-208 | The indented text of any well-formed value is read back as that value wherever it stands in a text. It must be followed by the end of the text or a unit that cannot extend a number. |
| IndentedRoundTrip.LineValueRead | src/main/java/net/pwall/json/parser/Parser.java:106-107 | A value preceded by a run of whitespace is read back as if the whitespace were not there. |
| IndentedRoundTrip.IndentedListRead | src/main/java/net/pwall/json/parser/Parser.java:141-160 | An indented non-empty list is read back as the list. It is laid out as `[`, each item on a line of its own, a line break, the indent and `]`. |
| IndentedRoundTrip.IndentedMapRead | src/main/java/net/pwall/json/parser/Parser.java:109-139 | An indented non-empty map with distinct keys is read back as the map, in the same order. |
| IndentedRoundTrip.LineListOpens | src/main/java/net/pwall/json/parser/Parser.java:141-145 | After the `[` of an indented list, the whitespace is skipped and the element loop starts, since the first item is no `]`. |
| IndentedRoundTrip.LineMapOpens | src/main/java/net/pwall/json/parser/Parser.java:109-113 | After the `{` of an indented map, the whitespace is skipped and the member loop starts, since the first key is no `}`. |
| IndentedRoundTrip.LineItemsBodyRead | src/main/java/net/pwall/json/parser/Parser.java:146-159 | The element loop reads an indented list body as the whole list. It skips the line break and indent after each comma and before `]`, and ends after `]`. |
| IndentedRoundTrip.LineMembersBodyRead | src/main/java/net/pwall/json/parser/Parser.java:114-138 | The member loop reads an indented map body as the whole map, and ends after `}`. |
| IndentedRoundTrip.LineItemsPlaced | src/main/java/net/pwall/json/parser/Parser.java:146-155 | Every item of an indented list body is read where it stands at `pointer + "/" + i`. A comma follows every item but the last, and whitespace then `]` follows the last. |
| IndentedRoundTrip.LineMembersPlaced | src/main/java/net/pwall/json/parser/Parser.java:114-132 | Every member of an indented map body with distinct keys is read where it stands. A comma follows every member but the last, and whitespace then `}` follows the last. |
| IndentedRoundTrip.LineItemAt | src/main/java/net/pwall/json/parser/Parser.java:151 | Item `i` of an indented list body is read where it stands at `pointer + "/" + i`. |
| IndentedRoundTrip.LineEntryAt | src/main/java/net/pwall/json/parser/Parser.java:114-129 | Member `j` of an indented map body is read where it stands, after the members before it, when its key is new. |
| IndentedRoundTrip.LineMemberRead | src/main/java/net/pwall/json/parser/Parser.java:114-129 | A `"key": value` entry after whitespace is read back as that member when its key is new. |
| IndentedRoundTrip.LineEntryRead | src/main/java/net/pwall/json/parser/Parser.java:115-129 | An entry starts with a quote and is read back as that member when its key is new. |
| IndentedRoundTrip.LineEntryValue | src/main/java/net/pwall/json/parser/Parser.java:120-129 | After the key of an indented entry comes `:`, then, past the space, the value, read at `pointer + "/" + key`. |
| IndentedRoundTrip.IndentedListBody | src/main/java/net/pwall/json/format/Formatter.java:259-278 | The indented form of a non-empty list is `[`, then each item after a line separator and the deeper indent, joined by commas. A line separator, the current indent and `]` follow. |
| IndentedRoundTrip.IndentedMapBody | src/main/java/net/pwall/json/format/Formatter.java:234-258 | The indented form of a non-empty map is `{`, then each `"key": value` after a line separator and the deeper indent, joined by commas. A line separator, the current indent and `}` follow. |
| IndentedRoundTrip.ListLayout | src/main/java/net/pwall/json/format/Formatter.java:259-278 | A non-empty collection is `[`, a separator, the items at the deeper indent, a separator, the current indent and `]`. |
| IndentedRoundTrip.MapLayout | src/main/java/net/pwall/json/format/Formatter.java:234-258 | A non-empty map is `{`, a separator, the entries at the deeper indent, a separator, the current indent and `}`. |
| IndentedRoundTrip.LineItemsJoined | src/main/java/net/pwall/json/format/Formatter.java:265-273 | A separator and the indented items are the items, each after a separator and the deeper indent, joined by commas. |
| IndentedRoundTrip.LineMembersJoined | src/main/java/net/pwall/json/format/Formatter.java:240-253 | A separator and the indented entries are the entries, each after a separator and the deeper indent, joined by commas. |
| IndentedRoundTrip.FlatIsCompact | src/main/java/net/pwall/json/format/Formatter.java:230-303 | `null`, booleans, numbers, strings and empty maps and lists are written the same by `formatTo` as by `outputTo`. |
| IndentedRoundTrip.IndentedOpens | src/main/java/net/pwall/json/format/Formatter.java:230-303 | The `formatTo` text of a parsed value is never empty, and starts with a unit the parser dispatches on. |
| IndentedRoundTrip.SkipsRun | src/main/java/net/pwall/json/parser/Parser.java:282-284 | Skipping spaces from the start of a whitespace run ends where skipping from its end does. |
| IndentedRoundTrip.SkipsTo | src/main/java/net/pwall/json/parser/Parser.java:282-284 | Skipping spaces over a whitespace run stops at the first non-space unit after it. |
| IndentedRoundTrip.ValueAtSkips | src/main/java/net/pwall/json/parser/Parser.java:106-107 | Reading a value depends on the start only through where skipping spaces stops. |
| IndentedRoundTrip.MemberAtSkips | src/main/java/net/pwall/json/parser/Parser.java:130-133 | Reading a member depends on the start only through where skipping spaces stops. |
| IndentedRoundTrip.ElementsAtSkips | src/main/java/net/pwall/json/parser/Parser.java:146-155 | The element loop gives the same result whether or not the whitespace before it has been skipped. |
| IndentedRoundTrip.ArrayOpensBefore | src/main/java/net/pwall/json/parser/Parser.java:141-145 | `[`, whitespace and anything but `]` start the element loop just after `[`. |
| IndentedRoundTrip.ObjectOpensBefore | src/main/java/net/pwall/json/parser/Parser.java:109-113 | `{`, whitespace and anything but `}` start the member loop just after `{`. |
| IndentedRoundTrip.SeparatorEnds | src/main/java/net/pwall/json/parser/Parser.java:176-191 | A comma, a closing bracket or brace, or whitespace does not extend a number. |

## Left out

- `TextMatcher` is not part of this model. Its cursor is a position in the text, and its primitives are functions: `SkipSpaces`, `DigitRun`, `HexAt`/`HexValue` and `StartsWithAt`. Its `getResultInt`/`getResultLong` become exact integer conversion with explicit range checks, in place of `NumberFormatException`.
- `ImmutableMap`/`ImmutableList` and the array growth by `min(length, 4096)` in `Parser.java` become sequences that grow by one. Capacity is not observable.
- `BigDecimal` is kept as its literal text. The formatter is taken to print a `BigDecimal` the parser built as that same text, that is, `toString()` returns the literal. Java may print such values in another notation: `1e200` becomes `1E+200`. That case of the round trip therefore holds only under this assumption.
- The `io.jstuff` formatter's `JSONFunctions.appendString` and `IntOutput` are not part of this model. They are taken to write what the `net.pwall` `appendString`, `appendInt` and `appendLong` write, and the model uses those.
- `IOException`, `UncheckedIOException`, `StringBuilder` and the `format`/`output` wrappers are left out, since `Appendable` only collects units here. `System.lineSeparator()` is a parameter (`systemLineSeparator`). `getDefaultFormatter` and the getters `getIndent`/`getLineSeparator` are the `Formatter` datatype's fields.
- Java's runtime type dispatch (`instanceof`) becomes the `Node` constructors. `HashMap` iteration order becomes the order of the entry sequence. A map key's `toString()` is the key text the caller gives.
- The options-aware `io.jstuff` parser is not part of this model. This covers duplicate-key policies, unquoted keys, trailing commas and the nesting-depth limit. `ParseOptions` is modelled as the record it is, but no parse depends on it.
- The `io.jstuff` duplicate-key message, which includes the key, is not modelled. The model uses the shown `DUPLICATE_KEY` text.
- The `net.pwall` parser's own `ParseException` class is not part of this model. The `io.jstuff` one is used for it, with the same two constructors.
- `JSONSimple` is not part of this model. It is a facade whose `reformat` is `format(parse(json))`.
- JSON Pointer keys are not escaped with `~0`/`~1`. The model builds pointers by plain concatenation `pointer + "/" + key`, as the source does.
- NetFormatter.FormatTo: does not model the 32-bit wrap-around of `currentIndent + indent`. Indents are unbounded integers, and a wrapped sum would require indents beyond two billion spaces per line.
- IoFormatter.FormatTo: does not model the 32-bit wrap-around of `currentIndent + indent`, for the same reason.
- IndentedRoundTrip.IndentedRoundTrip: holds only for line separators made of JSON whitespace. `formatTo` accepts any non-null separator (its own tests use `"\n>  "`), and with other units the output is not JSON.
