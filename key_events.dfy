/** Key events as the console's key listener receives them. The three listener
    callbacks (pressed, typed, released) all hand their event to the same
    dispatcher; the event records which of them delivered it. */
module KeyEvents {

  /** Which listener callback delivered the event. */
  datatype EventId = Pressed | Typed | Released

  /** The virtual key codes the dispatcher tells apart. `Function(n)` is the
      key F<n>; `Other` stands for every remaining code, including the
      undefined code that typed events always carry. */
  datatype KeyCode =
    | Enter | Up | Down | Left | Right | BackSpace | Delete | Home
    | U | D | C
    | Alt | CapsLock | Control | Meta | Shift
    | PrintScreen | ScrollLock | Pause | Insert | Escape
    | Function(n: nat)
    | Other

  /** A key event: its code, its listener, the character it carries and the
      modifier keys held down. */
  datatype KeyEvent = KeyEvent(
    code: KeyCode,
    id: EventId,
    keyChar: char,
    shift: bool,
    ctrl: bool,
    alt: bool,
    meta: bool)

  /** The backspace character; an event carrying it describes itself with the
      word "Backspace". */
  const BACKSPACE_CHAR: char := 8 as char

  /** The keys the dispatcher lets through untouched: the modifier keys, a few
      locks and F1 to F12 (F13 and above take the default branch). */
  predicate IsPassThrough(k: KeyCode) {
    match k
    case Alt | CapsLock | Control | Meta | Shift => true
    case PrintScreen | ScrollLock | Pause | Insert | Escape => true
    case Function(n) => 1 <= n <= 12
    case _ => false
  }

  /** The codes that reach the dispatcher's default branch. */
  predicate IsDefault(k: KeyCode) {
    match k
    case Enter | Up | Down | Left | Right | BackSpace | Delete | Home => false
    case U | D | C => false
    case _ => !IsPassThrough(k)
  }

  /** No Ctrl, Alt or Meta modifier: a plain character. */
  predicate Unmodified(e: KeyEvent) {
    !e.ctrl && !e.alt && !e.meta
  }

  /** The event's description mentions "Backspace": it carries the backspace
      character. */
  predicate MentionsBackspace(e: KeyEvent) {
    e.keyChar == BACKSPACE_CHAR
  }
}
