/** The parse error: the text of the error, the JSON Pointer of the place in
    the structure being built where it was found, and the message the
    exception reports, composed from the two when it is constructed. */
module ParseExceptions {
  import opened CodeUnits

  const AT: Text := Lit(" at ")

  datatype ParseException = ParseException(message: Text, text: Text, pointer: Text)

  /** `new ParseException(text, pointer)`. */
  function WithPointer(text: Text, pointer: Text): (e: ParseException)
    ensures e.text == text && e.pointer == pointer
    ensures pointer == [] ==> e.message == text
    ensures pointer != [] ==> e.message == text + AT + pointer
  {
    ParseException(if pointer == [] then text else text + AT + pointer, text, pointer)
  }

  /** `new ParseException(text)`: no pointer, and the message is the text. */
  function AtRoot(text: Text): (e: ParseException)
    ensures e.text == text && e.pointer == [] && e.message == text
  {
    ParseException(text, text, [])
  }

  /** The one-argument constructor is the two-argument one at the root
      pointer, so every error raised at the root has message == text. */
  lemma {:induction false} RootConstructorsAgree(text: Text)
    ensures AtRoot(text) == WithPointer(text, [])
    ensures WithPointer(text, []).message == WithPointer(text, []).text
  {
  }

  /** Away from the root the message is never just the text, and the text and
      pointer can be read back from it. */
  lemma {:induction false} MessageShowsPointer(text: Text, pointer: Text)
    requires pointer != []
    ensures var m := WithPointer(text, pointer).message;
      m != text && m[..|text|] == text && m[|text| + |AT|..] == pointer
  {
  }
}
