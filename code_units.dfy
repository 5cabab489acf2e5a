/** Java `char` values (UTF-16 code units), the text they make up, the
    characters the JSON grammar names, and decimal digit strings.  A code
    unit is any value in [0, 0xFFFF], so a lone surrogate is an ordinary
    code unit here, as it is in a Java `String`. */
module CodeUnits {

  type CodeUnit = c: int | 0 <= c < 0x1_0000

  type Text = seq<CodeUnit>

  /** The code units of a string literal of this project (all of them ASCII). */
  function Lit(s: string): Text
  {
    seq(|s|, i requires 0 <= i < |s| => if s[i] as int < 0x1_0000 then s[i] as int else 0xFFFD)
  }

  const SPACE: CodeUnit := 0x20
  const TAB: CodeUnit := 0x09
  const LF: CodeUnit := 0x0A
  const CR: CodeUnit := 0x0D
  const BACKSPACE: CodeUnit := 0x08
  const FORM_FEED: CodeUnit := 0x0C
  const QUOTE: CodeUnit := 0x22
  const PLUS: CodeUnit := 0x2B
  const COMMA: CodeUnit := 0x2C
  const MINUS: CodeUnit := 0x2D
  const DOT: CodeUnit := 0x2E
  const SLASH: CodeUnit := 0x2F
  const DIGIT_ZERO: CodeUnit := 0x30
  const COLON: CodeUnit := 0x3A
  const UPPER_E: CodeUnit := 0x45
  const OPEN_BRACKET: CodeUnit := 0x5B
  const BACKSLASH: CodeUnit := 0x5C
  const CLOSE_BRACKET: CodeUnit := 0x5D
  const LOWER_B: CodeUnit := 0x62
  const LOWER_E: CodeUnit := 0x65
  const LOWER_F: CodeUnit := 0x66
  const LOWER_N: CodeUnit := 0x6E
  const LOWER_R: CodeUnit := 0x72
  const LOWER_T: CodeUnit := 0x74
  const LOWER_U: CodeUnit := 0x75
  const OPEN_BRACE: CodeUnit := 0x7B
  const CLOSE_BRACE: CodeUnit := 0x7D

  /** The keywords, spelled out unit by unit (`KeywordsSpelling` checks them
      against their text). */
  const TRUE: Text := [LOWER_T, 0x72, 0x75, LOWER_E]
  const FALSE: Text := [LOWER_F, 0x61, 0x6C, 0x73, LOWER_E]
  const NULL: Text := [LOWER_N, 0x75, 0x6C, 0x6C]

  predicate IsDigit(ch: CodeUnit)
  {
    0x30 <= ch <= 0x39
  }

  predicate AllDigits(s: Text)
  {
    forall k :: 0 <= k < |s| ==> IsDigit(s[k])
  }

  function Pow10(k: nat): (p: nat)
    ensures p >= 1
  {
    if k == 0 then 1 else 10 * Pow10(k - 1)
  }

  /** The number a run of decimal digits denotes, most significant digit first. */
  function DigitsValue(s: Text): nat
    requires AllDigits(s)
  {
    if s == [] then 0 else 10 * DigitsValue(s[..|s| - 1]) + (s[|s| - 1] - 0x30)
  }

  /** The standard decimal form of a natural number: its digits, most
      significant first, with no leading zero (`0` for zero).  This is what
      Java's `Integer.toString` and the formatters' digit emitters produce. */
  function DecimalText(n: nat): Text
  {
    if n < 10 then [0x30 + n] else DecimalText(n / 10) + [0x30 + n % 10]
  }

  /** The standard decimal form of an integer: `-` and the digits of its
      magnitude when it is negative. */
  function SignedDecimalText(n: int): Text
  {
    if n < 0 then [MINUS] + DecimalText(-n) else DecimalText(n)
  }

  /** A run of `k` digits denotes a number below 10^k. */
  lemma {:induction false} DigitsValueBound(s: Text)
    requires AllDigits(s)
    ensures DigitsValue(s) < Pow10(|s|)
  {
    if s != [] {
      DigitsValueBound(s[..|s| - 1]);
    }
  }

  lemma {:induction false} Pow10Monotone(j: nat, k: nat)
    requires j <= k
    ensures Pow10(j) <= Pow10(k)
    decreases k
  {
    if j < k {
      Pow10Monotone(j, k - 1);
    }
  }

  /** DecimalText is a non-empty digit run without a leading zero whose value
      is the number itself, so it is the standard decimal form. */
  lemma {:induction false} DecimalTextIsStandard(n: nat)
    ensures |DecimalText(n)| >= 1 && AllDigits(DecimalText(n))
    ensures DigitsValue(DecimalText(n)) == n
    ensures (DecimalText(n)[0] == DIGIT_ZERO) <==> n == 0
  {
    if n >= 10 {
      DecimalTextIsStandard(n / 10);
      var d := DecimalText(n);
      assert d[..|d| - 1] == DecimalText(n / 10);
    }
  }

  /** Two numbers with the same decimal form are equal. */
  lemma {:induction false} DecimalTextInjective(m: nat, n: nat)
    requires DecimalText(m) == DecimalText(n)
    ensures m == n
  {
    DecimalTextIsStandard(m);
    DecimalTextIsStandard(n);
  }

  lemma {:induction false} KeywordsSpelling()
    ensures TRUE == Lit("true") && FALSE == Lit("false") && NULL == Lit("null")
  {
  }
}
