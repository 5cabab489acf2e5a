/** The configuration both formatters share: an indentation step and a line
 *  separator, fixed at construction.  The two classes declare the same
 *  constants, constructors, checks and whitespace emitters, so they are
 *  modelled once here.
 */
module Formatters {
  import opened Wrappers
  import opened CodeUnits
  import opened Layout
  import opened Appendables

  const DEFAULT_INDENT: nat := 2
  const UNIX_LINE_SEPARATOR: Text := [LF]

  const INDENT_NEGATIVE: Text := Lit("indent may not be negative")
  const SEPARATOR_NULL: Text := Lit("lineSeparator may not be null")

  /** An `IllegalArgumentException`, by its message. */
  datatype IllegalArgument = IllegalArgument(message: Text)

  /** A constructed formatter: the getters are the fields. */
  datatype Formatter = Formatter(indent: nat, lineSeparator: Text)

  /** `checkIndent`. */
  function CheckIndent(indent: int): (r: Result<nat, IllegalArgument>)
    ensures r.Success? <==> indent >= 0
    ensures r.Success? ==> r.value == indent
    ensures r.Failure? ==> r.error == IllegalArgument(INDENT_NEGATIVE)
  {
    if indent < 0 then Failure(IllegalArgument(INDENT_NEGATIVE)) else Success(indent)
  }

  /** `checkLineSeparator`: a Java `null` is `None`; an empty separator is
      accepted. */
  function CheckLineSeparator(lineSeparator: Option<Text>): (r: Result<Text, IllegalArgument>)
    ensures r.Success? <==> lineSeparator.Some?
    ensures r.Success? ==> r.value == lineSeparator.value
    ensures r.Failure? ==> r.error == IllegalArgument(SEPARATOR_NULL)
  {
    match lineSeparator
    case None => Failure(IllegalArgument(SEPARATOR_NULL))
    case Some(ls) => Success(ls)
  }

  /** `new Formatter(indent, lineSeparator)`: the indent is checked first. */
  function NewFormatter(indent: int, lineSeparator: Option<Text>): (r: Result<Formatter, IllegalArgument>)
    ensures r.Success? <==> indent >= 0 && lineSeparator.Some?
    ensures r.Success? ==> r.value == Formatter(indent, lineSeparator.value)
    ensures indent < 0 ==> r == Failure(IllegalArgument(INDENT_NEGATIVE))
    ensures indent >= 0 && lineSeparator.None? ==> r == Failure(IllegalArgument(SEPARATOR_NULL))
  {
    match CheckIndent(indent)
    case Failure(e) => Failure(e)
    case Success(i) =>
      match CheckLineSeparator(lineSeparator)
      case Failure(e) => Failure(e)
      case Success(ls) => Success(Formatter(i, ls))
  }

  /** `new Formatter(indent)`, with the system's line separator. */
  function FormatterWithIndent(indent: int, systemLineSeparator: Text): (r: Result<Formatter, IllegalArgument>)
    ensures r.Success? <==> indent >= 0
    ensures r.Success? ==> r.value == Formatter(indent, systemLineSeparator)
    ensures r.Failure? ==> r.error == IllegalArgument(INDENT_NEGATIVE)
  {
    match CheckIndent(indent)
    case Failure(e) => Failure(e)
    case Success(i) => Success(Formatter(i, systemLineSeparator))
  }

  /** `new Formatter(lineSeparator)`, with the default indent. */
  function FormatterWithLineSeparator(lineSeparator: Option<Text>): (r: Result<Formatter, IllegalArgument>)
    ensures r.Success? <==> lineSeparator.Some?
    ensures r.Success? ==> r.value == Formatter(2, lineSeparator.value)
    ensures r.Failure? ==> r.error == IllegalArgument(SEPARATOR_NULL)
  {
    match CheckLineSeparator(lineSeparator)
    case Failure(e) => Failure(e)
    case Success(ls) => Success(Formatter(DEFAULT_INDENT, ls))
  }

  /** `new Formatter()`: both defaults. */
  function DefaultFormatter(systemLineSeparator: Text): (f: Formatter)
    ensures f.indent == 2 && f.lineSeparator == systemLineSeparator
  {
    Formatter(DEFAULT_INDENT, systemLineSeparator)
  }

  /** `appendSpaces`: a count that is not positive appends nothing. */
  method AppendSpaces(a: Appendable, count: int)
    modifies a
    ensures a.contents == old(a.contents) + Spaces(count)
  {
    var i := count;
    while i > 0
      invariant count > 0 ==> 0 <= i <= count
      invariant count <= 0 ==> i == count
      invariant a.contents == old(a.contents) + Spaces(count - i)
      decreases i
    {
      a.Append([SPACE]);
      i := i - 1;
    }
  }

  /** `appendLineSeparator`. */
  method AppendLineSeparator(f: Formatter, a: Appendable)
    modifies a
    ensures a.contents == old(a.contents) + f.lineSeparator
  {
    a.Append(f.lineSeparator);
  }
}
