/** The key codes `vs.assignKeys` installs (vs.js:58-79). */
module Keys {
  const ArrowLeft: int := 37
  const ArrowUp: int := 38
  const ArrowRight: int := 39
  const ArrowDown: int := 40
  const Backspace: int := 8
  const DelKey: int := 46
  const End: int := 35
  const Enter: int := 13
  const Home: int := 36
  const LowercaseMin: int := 97
  const LowercaseMax: int := 122
  const NumberMin: int := 48
  const NumberMax: int := 57
  const Space: int := 32
  const UppercaseMin: int := 65
  const UppercaseMax: int := 90

  /** The codes the text box's action-key chain reacts to. */
  predicate IsActionKey(code: int) {
    code == Backspace || code == Enter || code == End || code == Home ||
    code == ArrowLeft || code == ArrowRight || code == DelKey
  }

  /** A code in one of the two letter ranges. */
  predicate IsLetterCode(code: int) {
    (UppercaseMin <= code <= UppercaseMax) || (LowercaseMin <= code <= LowercaseMax)
  }

  /** No letter code is an action key, so typing a letter never also moves
      the caret or deletes. */
  lemma LettersAreNotActions(code: int)
    requires IsLetterCode(code)
    ensures !IsActionKey(code)
  {
  }
}
