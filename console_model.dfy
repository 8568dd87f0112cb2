/** The console's state as a value, and every operation of the line editor as a
    function from state to state. The class `SwingConsole.JConsole` carries the
    same state in fields and is proved to act exactly as these functions say. */
module ConsoleModel {
  import opened KeyEvents

  /** Sent in place of an empty line. */
  const EMPTY_LINE: string := ";\n"

  /** The reason handed to the interrupt callback. */
  const INTERRUPT_REASON: string := "User pressed Ctrl-C"

  /** Printed once the output pipe reaches end of stream. */
  const INPUT_CLOSED: string := "Console: Input\tclosed..."

  /** The console state.
      - `doc` is the document text; `caret` and `mark` are the two ends of the
        text surface's caret: equal when nothing is selected, otherwise the
        selection runs between them and `caret` is the position reported.
      - `cmdStart` is the commit boundary: text before it is committed, text
        from it on is the line being typed.
      - `history` holds the submitted non-empty lines, oldest first;
        `histLine` counts back from its end (0: not browsing), and
        `startedLine` is the line that was being typed when browsing began.
      - `sent` is every string written to the inbound pipe, in order.
      - `interrupts` and `eofCalls` record the calls made to the interrupt
        and end-of-input callbacks, which are registered when the `has...`
        flags are set. */
  datatype Console = Console(
    doc: string,
    caret: nat,
    mark: nat,
    cmdStart: nat,
    history: seq<string>,
    histLine: nat,
    startedLine: string,
    sent: seq<string>,
    interrupts: seq<string>,
    eofCalls: nat,
    hasInterruptFn: bool,
    hasEofFn: bool)

  /** The outcome of dispatching one key event: the new state, and whether the
      event was consumed (so that the text surface does not act on it). */
  datatype Step = Step(next: Console, consumed: bool)

  /** Both caret ends lie inside the document. */
  predicate CaretInDoc(s: Console) {
    s.caret <= |s.doc| && s.mark <= |s.doc|
  }

  /** The invariant of every state the modelled operations reach. */
  predicate Valid(s: Console) {
    CaretInDoc(s) && s.cmdStart <= |s.doc| && s.histLine <= |s.history|
  }

  /** `r` keeps the records of `s`: the history, what was sent down the
      pipe, the callback calls made and the callbacks registered. */
  predicate KeepsRecords(s: Console, r: Console) {
    && r.history == s.history && r.sent == s.sent
    && r.interrupts == s.interrupts && r.eofCalls == s.eofCalls
    && r.hasInterruptFn == s.hasInterruptFn && r.hasEofFn == s.hasEofFn
  }

  /** `r` differs from `s` at most in the caret ends. */
  predicate OnlyCaretMoved(s: Console, r: Console) {
    && r.doc == s.doc && r.cmdStart == s.cmdStart
    && r.histLine == s.histLine && r.startedLine == s.startedLine
    && KeepsRecords(s, r)
  }

  /** `r` is `s`, field by field: equivalent to `r == s`, spelled out so that
      the history lemmas need not reason about whole-record equality. */
  predicate Same(s: Console, r: Console) {
    && r.doc == s.doc && r.caret == s.caret && r.mark == s.mark
    && r.cmdStart == s.cmdStart && r.histLine == s.histLine
    && r.startedLine == s.startedLine && KeepsRecords(s, r)
  }

  /** The state of a freshly built console: empty document and history. */
  function Initial(): (s: Console)
    ensures Valid(s)
    ensures s.doc == "" && s.cmdStart == 0 && s.history == [] && s.histLine == 0
    ensures s.sent == [] && s.interrupts == [] && s.eofCalls == 0
  {
    Console("", 0, 0, 0, [], 0, "", [], [], 0, false, false)
  }

  /** Some text is selected. */
  predicate HasSelection(s: Console) {
    s.caret != s.mark
  }

  /** Places the caret at `p` and clears the selection. */
  function SetCaretPosition(s: Console, p: nat): (r: Console)
    requires p <= |s.doc|
    ensures OnlyCaretMoved(s, r) && r.caret == r.mark == p
  {
    s.(caret := p, mark := p)
  }

  /** Moves the caret to `p`, keeping the mark: selects between them. */
  function MoveCaretPosition(s: Console, p: nat): (r: Console)
    requires p <= |s.doc|
    ensures OnlyCaretMoved(s, r) && r.caret == p && r.mark == s.mark
  {
    s.(caret := p)
  }

  // ---------------------------------------------------------------------
  // The console's own text operations.
  // ---------------------------------------------------------------------

  /** The line being typed: the text from the commit boundary to the end. A
      boundary past the end is a bad location, for which the line is empty. */
  function GetCmd(s: Console): (line: string)
    ensures s.cmdStart <= |s.doc| ==> s.doc == s.doc[..s.cmdStart] + line
    ensures |s.doc| < s.cmdStart ==> line == ""
  {
    if s.cmdStart <= |s.doc| then s.doc[s.cmdStart..] else ""
  }

  /** Replaces [start, end) of the document by `text`. Nothing before `start`
      changes; the caret ends after the inserted text with nothing selected. */
  function ReplaceRange(s: Console, text: string, start: nat, end: nat): (r: Console)
    requires start <= end <= |s.doc|
    ensures |r.doc| == |s.doc| - (end - start) + |text|
    ensures r.doc[..start] == s.doc[..start]
    ensures r.doc[start..] == text + s.doc[end..]
    ensures r.caret == r.mark == start + |text|
    ensures KeepsRecords(s, r) && r.cmdStart == s.cmdStart
    ensures r.histLine == s.histLine && r.startedLine == s.startedLine
    ensures Valid(s) && s.cmdStart <= start ==> Valid(r)
  {
    var d := s.doc[..start] + text + s.doc[end..];
    assert d[..start] == s.doc[..start] && d[start..] == text + s.doc[end..];
    s.(doc := d, caret := start + |text|, mark := start + |text|)
  }

  /** Appends `text` at the end of the document, caret after it. */
  function Append(s: Console, text: string): (r: Console)
    ensures r.doc == s.doc + text
    ensures r.caret == r.mark == |r.doc|
    ensures r == ReplaceRange(s, text, |s.doc|, |s.doc|)
    ensures Valid(s) ==> Valid(r)
  {
    s.(doc := s.doc + text, caret := |s.doc| + |text|, mark := |s.doc| + |text|)
  }

  /** Moves the commit boundary to the end of the document. Whatever the
      boundary was before, it then lies inside the document. */
  function ResetCommandStart(s: Console): (r: Console)
    ensures r.cmdStart == |r.doc| && r == s.(cmdStart := |s.doc|)
    ensures CaretInDoc(s) && s.histLine <= |s.history| ==> Valid(r)
  {
    s.(cmdStart := |s.doc|)
  }

  /** A caret inside the committed text jumps to the end of the document; a
      caret in the editable tail stays where it is, even when the mark of a
      selection lies before the boundary. Afterwards the caret is never before
      the boundary. */
  function ForceCaretMoveToEnd(s: Console): (r: Console)
    requires Valid(s)
    ensures Valid(r) && r.cmdStart <= r.caret
    ensures s.caret < s.cmdStart ==> r.caret == |s.doc| && !HasSelection(r)
    ensures s.cmdStart <= s.caret ==> r == s
    ensures OnlyCaretMoved(s, r)
  {
    if s.caret < s.cmdStart then SetCaretPosition(s, |s.doc|) else s
  }

  /** Writes `line` to the inbound pipe. */
  function AcceptLine(s: Console, line: string): (r: Console)
    ensures r.sent == s.sent + [line] && r == s.(sent := r.sent)
  {
    s.(sent := s.sent + [line])
  }

  /** Submits the line being typed: a non-empty line is recorded in the
      history and sent with a line feed; an empty line is sent as the
      sentinel ";\n" and not recorded. A line feed is appended to the document
      either way, and history browsing ends. */
  function Enter(s: Console): (r: Console)
    requires Valid(s)
    ensures Valid(r)
    ensures r.doc == s.doc + "\n" && r.cmdStart == s.cmdStart && r.histLine == 0
    ensures GetCmd(s) != "" ==> r.history == s.history + [GetCmd(s)] && r.sent == s.sent + [GetCmd(s) + "\n"]
    ensures GetCmd(s) == "" ==> r.history == s.history && r.sent == s.sent + [EMPTY_LINE]
    ensures r.startedLine == s.startedLine && r.interrupts == s.interrupts && r.eofCalls == s.eofCalls
    ensures r.hasInterruptFn == s.hasInterruptFn && r.hasEofFn == s.hasEofFn
    ensures r.caret == r.mark == |r.doc|
  {
    var cmd := GetCmd(s);
    var s1 := if |cmd| == 0 then s else s.(history := s.history + [cmd]);
    var line := if |cmd| == 0 then EMPTY_LINE else cmd + "\n";
    var s2 := Append(s1, "\n").(histLine := 0);
    AcceptLine(s2, line)
  }

  /** What an Enter key press does: submit the line, then move the boundary
      and the caret to the new end of the document. */
  function Submit(s: Console): (r: Console)
    requires Valid(s)
    ensures Valid(r)
    ensures r.doc == s.doc + "\n" && r.cmdStart == r.caret == r.mark == |r.doc| && r.histLine == 0
    ensures r == Enter(s).(cmdStart := |r.doc|, caret := |r.doc|, mark := |r.doc|)
  {
    var s1 := ResetCommandStart(Enter(s));
    SetCaretPosition(s1, s1.cmdStart)
  }

  /** Replaces the line being typed by the line the history cursor points at
      (the saved line when the cursor is 0) and puts the caret at the end. */
  function ShowHistoryLine(s: Console): (r: Console)
    requires Valid(s)
    ensures Valid(r) && r.cmdStart == s.cmdStart
    ensures r.doc[..s.cmdStart] == s.doc[..s.cmdStart]
    ensures GetCmd(r) == if s.histLine == 0 then s.startedLine else s.history[|s.history| - s.histLine]
    ensures r.caret == r.mark == |r.doc|
    ensures KeepsRecords(s, r) && r.histLine == s.histLine && r.startedLine == s.startedLine
  {
    var line := if s.histLine == 0 then s.startedLine else s.history[|s.history| - s.histLine];
    var d := s.doc[..s.cmdStart] + line;
    assert d[..s.cmdStart] == s.doc[..s.cmdStart] && d[s.cmdStart..] == line;
    s.(doc := d, caret := |d|, mark := |d|)
  }

  /** One step back in the history. Nothing happens with an empty history or
      at the oldest entry; leaving the live line first saves it. */
  function HistoryUp(s: Console): (r: Console)
    requires Valid(s)
    ensures Valid(r)
    ensures r.cmdStart == s.cmdStart && r.doc[..s.cmdStart] == s.doc[..s.cmdStart]
    ensures |s.history| == 0 || s.histLine == |s.history| ==> Same(s, r)
    ensures s.histLine < |s.history| ==>
              && r.histLine == s.histLine + 1
              && GetCmd(r) == s.history[|s.history| - r.histLine]
              && r.caret == r.mark == |r.doc|
    ensures r.startedLine == if s.histLine == 0 && 0 < |s.history| then GetCmd(s) else s.startedLine
    ensures KeepsRecords(s, r)
  {
    if |s.history| == 0 then s
    else
      var s1 := if s.histLine == 0 then s.(startedLine := GetCmd(s)) else s;
      if s1.histLine < |s1.history| then ShowHistoryLine(s1.(histLine := s1.histLine + 1)) else s1
  }

  /** One step forward in the history, back to the saved line at cursor 0.
      Nothing happens when not browsing. */
  function HistoryDown(s: Console): (r: Console)
    requires Valid(s)
    ensures Valid(r)
    ensures r.cmdStart == s.cmdStart && r.doc[..s.cmdStart] == s.doc[..s.cmdStart]
    ensures s.histLine == 0 ==> Same(s, r)
    ensures 0 < s.histLine ==>
              && r.histLine == s.histLine - 1
              && GetCmd(r) == (if r.histLine == 0 then s.startedLine else s.history[|s.history| - r.histLine])
              && r.caret == r.mark == |r.doc|
    ensures KeepsRecords(s, r) && r.startedLine == s.startedLine
  {
    if s.histLine == 0 then s
    else ShowHistoryLine(s.(histLine := s.histLine - 1))
  }

  /** Ctrl-U: empties the line being typed and ends history browsing. */
  function ClearLine(s: Console): (r: Console)
    requires Valid(s)
    ensures Valid(r)
    ensures r.doc == s.doc[..s.cmdStart] && GetCmd(r) == ""
    ensures r.caret == r.mark == s.cmdStart && r.histLine == 0
    ensures r == ReplaceRange(s, "", s.cmdStart, |s.doc|).(histLine := 0)
  {
    s.(doc := s.doc[..s.cmdStart], caret := s.cmdStart, mark := s.cmdStart, histLine := 0)
  }

  /** Output: appends `text`, then moves the boundary and the caret to the new
      end, so that whatever is typed next starts after it. */
  function Print(s: Console, text: string): (r: Console)
    requires Valid(s)
    ensures Valid(r)
    ensures r.doc == s.doc + text && r.cmdStart == r.caret == r.mark == |r.doc|
    ensures KeepsRecords(s, r) && r.histLine == s.histLine && r.startedLine == s.startedLine
  {
    var n := |s.doc| + |text|;
    s.(doc := s.doc + text, caret := n, mark := n, cmdStart := n)
  }

  /** Output of `text` followed by a line feed. */
  function Println(s: Console, text: string): (r: Console)
    requires Valid(s)
    ensures Valid(r)
    ensures r.doc == s.doc + text + "\n" && r.cmdStart == r.caret == r.mark == |r.doc|
    ensures KeepsRecords(s, r) && r.histLine == s.histLine && r.startedLine == s.startedLine
  {
    Print(s, text + "\n")
  }

  /** The chunks joined in order. */
  function Concat(chunks: seq<string>): (r: string)
  {
    if chunks == [] then "" else Concat(chunks[..|chunks| - 1]) + chunks[|chunks| - 1]
  }

  /** Output of every chunk in order, as the pipe watcher prints them. */
  function PrintEach(s: Console, chunks: seq<string>): (r: Console)
    requires Valid(s)
    ensures Valid(r)
    ensures r.doc == s.doc + Concat(chunks)
    ensures chunks != [] ==> r.cmdStart == r.caret == r.mark == |r.doc|
    ensures KeepsRecords(s, r) && r.histLine == s.histLine && r.startedLine == s.startedLine
    decreases |chunks|
  {
    if chunks == [] then s
    else Print(PrintEach(s, chunks[..|chunks| - 1]), chunks[|chunks| - 1])
  }

  /** The pipe watcher's whole run: every chunk read, then the closing notice
      exactly once. */
  function Watch(s: Console, chunks: seq<string>): (r: Console)
    requires Valid(s)
    ensures Valid(r)
    ensures r.doc == s.doc + Concat(chunks) + INPUT_CLOSED + "\n"
    ensures r.cmdStart == r.caret == r.mark == |r.doc|
    ensures KeepsRecords(s, r) && r.histLine == s.histLine && r.startedLine == s.startedLine
  {
    Println(PrintEach(s, chunks), INPUT_CLOSED)
  }

  // ---------------------------------------------------------------------
  // The key dispatcher.
  // ---------------------------------------------------------------------

  /** What the console's own handling of a key event may not do: touch the
      committed text, move the boundary back, or take anything out of the
      history or the pipe. An event that is let through to the text surface
      has its caret changed at most; what the surface then does is not part
      of this. */
  predicate Respects(s: Console, r: Step)
    requires Valid(s)
  {
    && Valid(r.next)
    && s.cmdStart <= r.next.cmdStart && s.doc[..s.cmdStart] <= r.next.doc
    && s.history <= r.next.history && s.sent <= r.next.sent
    && (!r.consumed ==> OnlyCaretMoved(s, r.next))
  }

  /** Enter: a key press submits the line; every Enter event is consumed. */
  function EnterKey(s: Console, e: KeyEvent): (r: Step)
    requires Valid(s) && e.code == KeyCode.Enter
    ensures Respects(s, r) && r.consumed
    ensures e.id == Pressed ==> r.next == Submit(s)
    ensures e.id != Pressed ==> r.next == s
  {
    Step(if e.id == Pressed then Submit(s) else s, true)
  }

  /** Up and Down: a key press moves through the history; every such event is
      consumed. */
  function HistoryKey(s: Console, e: KeyEvent): (r: Step)
    requires Valid(s) && (e.code == Up || e.code == Down)
    ensures Respects(s, r) && r.consumed
    ensures r.next.doc[..s.cmdStart] == s.doc[..s.cmdStart] && r.next.history == s.history
    ensures e.id != Pressed ==> r.next == s
    ensures e.id == Pressed ==> r.next == if e.code == Up then HistoryUp(s) else HistoryDown(s)
  {
    var next := if e.id != Pressed then s else if e.code == Up then HistoryUp(s) else HistoryDown(s);
    Step(next, true)
  }

  /** Left, Backspace, Delete and Right change nothing themselves. Only the
      caret is tested, never the mark: Left is consumed when the caret is at
      or before the boundary; Backspace when it is at or before the boundary
      with nothing selected, and before it with a selection; Delete when it is
      before the boundary. A selection from before the boundary into the tail
      is therefore let through, and the surface deletes committed text. Right
      is never consumed: the helper meant to clamp its caret is empty. */
  function EditKey(s: Console, e: KeyEvent): (r: Step)
    requires Valid(s) && (e.code == Left || e.code == BackSpace || e.code == Delete || e.code == Right)
    ensures Respects(s, r) && r.next == s
    ensures e.code == Left ==> (r.consumed <==> s.caret <= s.cmdStart)
    ensures e.code == BackSpace ==>
              (r.consumed <==> (!HasSelection(s) && s.caret <= s.cmdStart) || (HasSelection(s) && s.caret < s.cmdStart))
    ensures e.code == Delete ==> (r.consumed <==> s.caret < s.cmdStart)
    ensures e.code == Right ==> !r.consumed
  {
    match e.code
    case Left => Step(s, s.caret <= s.cmdStart)
    case BackSpace =>
      if !HasSelection(s) then Step(s, s.caret <= s.cmdStart) else Step(s, s.caret < s.cmdStart)
    case Delete => Step(s, s.caret < s.cmdStart)
    case Right => Step(s, false)
  }

  /** Home: the caret goes to the boundary; with Shift held the mark stays, so
      the selection extends to the boundary. Always consumed. */
  function HomeKey(s: Console, e: KeyEvent): (r: Step)
    requires Valid(s) && e.code == Home
    ensures Respects(s, r) && r.consumed
    ensures r.next.caret == s.cmdStart && r.next.mark == (if e.shift then s.mark else s.cmdStart)
    ensures OnlyCaretMoved(s, r.next)
  {
    Step(if e.shift then MoveCaretPosition(s, s.cmdStart) else SetCaretPosition(s, s.cmdStart), true)
  }

  /** U: with Ctrl held, clears the line being typed and is consumed;
      otherwise nothing happens and the event is let through. */
  function ClearLineKey(s: Console, e: KeyEvent): (r: Step)
    requires Valid(s) && e.code == U
    ensures Respects(s, r)
    ensures r.consumed <==> e.ctrl
    ensures e.ctrl ==> r.next.doc == s.doc[..s.cmdStart] && GetCmd(r.next) == "" && r.next.histLine == 0
    ensures e.ctrl ==> r.next == ClearLine(s)
    ensures !e.ctrl ==> r.next == s
  {
    if e.ctrl then Step(ClearLine(s), true) else Step(s, false)
  }

  /** D: with Ctrl held, calls the end-of-input callback if one is registered
      and is consumed, whatever listener delivered it. */
  function EndOfInputKey(s: Console, e: KeyEvent): (r: Step)
    requires Valid(s) && e.code == D
    ensures Respects(s, r)
    ensures r.consumed <==> e.ctrl
    ensures r.next == if e.ctrl && s.hasEofFn then s.(eofCalls := s.eofCalls + 1) else s
  {
    if e.ctrl then Step(if s.hasEofFn then s.(eofCalls := s.eofCalls + 1) else s, true)
    else Step(s, false)
  }

  /** C: with nothing selected the event is consumed, Ctrl held or not, and a
      Ctrl-C key press calls the interrupt callback if one is registered. With
      a selection the event is let through, so that the surface copies it. */
  function InterruptKey(s: Console, e: KeyEvent): (r: Step)
    requires Valid(s) && e.code == C
    ensures Respects(s, r)
    ensures r.consumed <==> !HasSelection(s)
    ensures r.next == if !HasSelection(s) && e.ctrl && e.id == Pressed && s.hasInterruptFn
                      then s.(interrupts := s.interrupts + [INTERRUPT_REASON]) else s
  {
    if !HasSelection(s) then
      var interrupted := e.ctrl && e.id == Pressed && s.hasInterruptFn;
      Step(if interrupted then s.(interrupts := s.interrupts + [INTERRUPT_REASON]) else s, true)
    else Step(s, false)
  }

  /** Every other key: a plain character first forces a caret in the committed
      text to the end; an event that names Backspace is then consumed when the
      caret is at or before the boundary. */
  function DefaultKey(s: Console, e: KeyEvent): (r: Step)
    requires Valid(s) && IsDefault(e.code)
    ensures Respects(s, r)
    ensures r.next == if Unmodified(e) then ForceCaretMoveToEnd(s) else s
    ensures Unmodified(e) ==> s.cmdStart <= r.next.caret
    ensures r.consumed <==> MentionsBackspace(e) && r.next.caret <= r.next.cmdStart
    ensures Unmodified(e) ==> (r.consumed <==> MentionsBackspace(e) && r.next.caret == s.cmdStart)
  {
    var s1 := if Unmodified(e) then ForceCaretMoveToEnd(s) else s;
    Step(s1, MentionsBackspace(e) && s1.caret <= s1.cmdStart)
  }

  /** Dispatches one key event by its code. Whatever the event, the console's
      own handling leaves the committed text untouched, the boundary only moves forward, the history and the
      pipe only grow, and an event that is let through changes at most the
      caret; the keys that only modify others pass through untouched. */
  function Type(s: Console, e: KeyEvent): (r: Step)
    requires Valid(s)
    ensures Respects(s, r)
    ensures IsPassThrough(e.code) ==> r == Step(s, false)
  {
    match e.code
    case Enter => EnterKey(s, e)
    case Up => HistoryKey(s, e)
    case Down => HistoryKey(s, e)
    case Left => EditKey(s, e)
    case BackSpace => EditKey(s, e)
    case Delete => EditKey(s, e)
    case Right => EditKey(s, e)
    case Home => HomeKey(s, e)
    case U => ClearLineKey(s, e)
    case D => EndOfInputKey(s, e)
    case C => InterruptKey(s, e)
    case Alt | CapsLock | Control | Meta | Shift => Step(s, false)
    case PrintScreen | ScrollLock | Pause | Insert | Escape => Step(s, false)
    case Function(n) => if 1 <= n <= 12 then Step(s, false) else DefaultKey(s, e)
    case Other => DefaultKey(s, e)
  }
}
