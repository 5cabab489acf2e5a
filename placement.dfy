/** Where a text stands inside a larger one, and how sequences split
 *  around such a place.
 */
module Placement {
  import opened CodeUnits

  /** The unit of `x` at index `i`.  `Holds` is stated through it so that
      its quantifier fires only where a proof names a unit of a placed
      text, never on the index terms the parser's own definitions make. */
  ghost function Piece(x: Text, i: nat): CodeUnit
    requires i < |x|
  {
    x[i]
  }

  /** Whether a text stands in a larger one at some place. */
  datatype Fit = Fits | Misfits

  /** Whether `x` stands in `text` from `pos` on.  The quantifier sits in a
      function of a datatype, not of `bool`, so that a proof obligation
      `Holds(...)` is discharged by the matching assumption instead of by
      re-proving the quantifier. */
  ghost function FitOf(text: Text, pos: nat, x: Text): Fit
  {
    if pos + |x| <= |text| && forall i :: 0 <= i < |x| ==> text[pos + i] == Piece(x, i) then Fits else Misfits
  }

  /** `x` stands in `text` from `pos` on. */
  ghost predicate Holds(text: Text, pos: nat, x: Text)
  {
    FitOf(text, pos, x) == Fits
  }

  /** `Holds` is the slice of `text` from `pos` being `x`. */
  lemma {:induction false} HoldsSlice(text: Text, pos: nat, x: Text)
    ensures Holds(text, pos, x) <==> pos + |x| <= |text| && text[pos..pos + |x|] == x
  {
    if Holds(text, pos, x) {
      forall i | 0 <= i < |x| ensures text[pos..pos + |x|][i] == x[i] {
        assert text[pos + i] == Piece(x, i);
      }
    }
    if pos + |x| <= |text| && text[pos..pos + |x|] == x {
      forall i | 0 <= i < |x| ensures text[pos + i] == Piece(x, i) {
        assert text[pos..pos + |x|][i] == x[i];
      }
    }
  }

  /** Where a concatenation stands, its two parts stand one after the other. */
  lemma {:induction false} HoldsConcat(text: Text, pos: nat, x: Text, y: Text)
    requires Holds(text, pos, x + y)
    ensures Holds(text, pos, x) && Holds(text, pos + |x|, y)
  {
    forall i | 0 <= i < |x| ensures text[pos + i] == Piece(x, i) {
      assert Piece(x + y, i) == x[i];
    }
    forall i | 0 <= i < |y| ensures text[pos + |x| + i] == Piece(y, i) {
      assert Piece(x + y, |x| + i) == y[i];
    }
  }

  /** A prefix grown by the next element is the next prefix. */
  lemma {:induction false} PrefixGrows<T>(xs: seq<T>, k: nat)
    requires k < |xs|
    ensures |xs[..k]| == k && xs[..k] + [xs[k]] == xs[..k + 1]
    ensures k + 1 == |xs| ==> xs[..k] + [xs[k]] == xs
  {
    assert xs[..k + 1] == xs[..k] + [xs[k]];
  }

  /** Appending the first unit of `s` and then the rest appends `s`. */
  lemma {:induction false} AppendFirst(sb: Text, s: Text)
    requires s != []
    ensures sb + [s[0]] + s[1..] == sb + s
  {
    assert [s[0]] + s[1..] == s;
    assert sb + [s[0]] + s[1..] == sb + ([s[0]] + s[1..]);
  }


  /** A whole text stands in itself from the start. */
  lemma {:induction false} HoldsWhole(text: Text)
    ensures Holds(text, 0, text)
  {
    forall i | 0 <= i < |text| ensures text[i] == Piece(text, i) {
      assert Piece(text, i) == text[i];
    }
  }
}
