/** The immutable parse configuration.  Its getters are the fields of the
    datatype; only the nesting depth is checked, once, when it is built. */
module ParseOptions {
  import opened Wrappers

  const MIN_NESTING_DEPTH: int := 1
  const MAX_NESTING_DEPTH: int := 1200

  datatype DuplicateKeyOption = ERROR | TAKE_FIRST | TAKE_LAST | CHECK_IDENTICAL

  type NestingDepth = d: int | MIN_NESTING_DEPTH <= d <= MAX_NESTING_DEPTH witness MIN_NESTING_DEPTH

  datatype ParseOptions = ParseOptions(
    objectKeyDuplicate: DuplicateKeyOption,
    objectKeyUnquoted: bool,
    objectTrailingComma: bool,
    arrayTrailingComma: bool,
    maximumNestingDepth: NestingDepth)

  /** The `IllegalArgumentException` of the constructor, by the depth it
      reports (its message starts with a constant defined outside this model). */
  datatype OptionsError = NestingDepthOutOfRange(was: int)

  /** `new ParseOptions(...)`. */
  function NewParseOptions(
    objectKeyDuplicate: DuplicateKeyOption,
    objectKeyUnquoted: bool,
    objectTrailingComma: bool,
    arrayTrailingComma: bool,
    maximumNestingDepth: int): (r: Result<ParseOptions, OptionsError>)
    ensures r.Success? <==> 1 <= maximumNestingDepth <= 1200
    ensures r.Failure? ==> r.error == NestingDepthOutOfRange(maximumNestingDepth)
    ensures r.Success? ==>
      && r.value.objectKeyDuplicate == objectKeyDuplicate
      && r.value.objectKeyUnquoted == objectKeyUnquoted
      && r.value.objectTrailingComma == objectTrailingComma
      && r.value.arrayTrailingComma == arrayTrailingComma
      && r.value.maximumNestingDepth == maximumNestingDepth
  {
    if maximumNestingDepth < MIN_NESTING_DEPTH || maximumNestingDepth > MAX_NESTING_DEPTH then
      Failure(NestingDepthOutOfRange(maximumNestingDepth))
    else
      Success(ParseOptions(objectKeyDuplicate, objectKeyUnquoted, objectTrailingComma,
                           arrayTrailingComma, maximumNestingDepth))
  }

  /** The enumeration has exactly the four constants of the source. */
  lemma {:induction false} DuplicateKeyOptionCases(o: DuplicateKeyOption)
    ensures o == ERROR || o == TAKE_FIRST || o == TAKE_LAST || o == CHECK_IDENTICAL
  {
  }
}
