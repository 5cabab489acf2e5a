/** The character sink the formatters write to (`java.lang.Appendable`). */
module Appendables {
  import opened CodeUnits

  /** Everything appended so far, in order. */
  class Appendable {
    var contents: Text

    constructor ()
      ensures contents == []
    {
      contents := [];
    }

    /** `append(char)` and `append(CharSequence)`: the units go on the end. */
    method Append(t: Text)
      modifies this
      ensures contents == old(contents) + t
    {
      contents := contents + t;
    }
  }
}
