/** Terminal key events as the key handlers see them: a key code and the held modifiers. */
module Keys {

  datatype KeyCode =
    | Char(c: char)
    | Left | Right | Up | Down
    | Home | End | PageUp | PageDown
    | Esc | Enter | Backspace | Delete | Tab
    | Function(n: nat)

  datatype Modifier = Shift | Control | Alt | Super | Hyper | Meta

  datatype KeyEvent = KeyEvent(code: KeyCode, modifiers: set<Modifier>)

  /** A key event for a character typed with `held` modifiers. */
  function CharKey(c: char, held: set<Modifier>): (k: KeyEvent)
    ensures k.code == Char(c) && k.modifiers == held
  {
    KeyEvent(Char(c), held)
  }
}
