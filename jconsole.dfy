/** The console component: its state lives in fields that its methods update in
    place. Every method is proved to change the state exactly as the matching
    function of `ConsoleModel` says, so the properties proved there hold of
    the object. */
module SwingConsole {
  import opened KeyEvents
  import M = ConsoleModel

  /** What a cut request turns into: a caret inside the committed text only
      copies the selection; otherwise the text surface cuts it, committed part
      included when the mark is before the boundary. */
  datatype ClipboardAction = CopySelection | CutSelection

  class JConsole {
    var doc: string
    var caret: nat
    var mark: nat
    var cmdStart: nat
    var history: seq<string>
    var histLine: nat
    var startedLine: string
    var sent: seq<string>
    var interrupts: seq<string>
    var eofCalls: nat
    var hasInterruptFn: bool
    var hasEofFn: bool

    /** The fields as a model state. */
    function State(): (s: M.Console)
      reads this
    {
      M.Console(doc, caret, mark, cmdStart, history, histLine, startedLine,
                sent, interrupts, eofCalls, hasInterruptFn, hasEofFn)
    }

    ghost predicate Valid()
      reads this
    {
      M.Valid(State())
    }

    /** A fresh console: empty document, boundary at 0, empty history, no
        callbacks registered. */
    constructor ()
      ensures Valid() && State() == M.Initial()
    {
      doc, caret, mark, cmdStart := "", 0, 0, 0;
      history, histLine, startedLine := [], 0, "";
      sent, interrupts, eofCalls := [], [], 0;
      hasInterruptFn, hasEofFn := false, false;
    }

    function TextLength(): (n: nat)
      reads this
      ensures n == |State().doc|
      ensures Valid() ==> cmdStart <= n
    {
      |doc|
    }

    predicate HasSelection()
      reads this
    {
      caret != mark
    }

    // -------------------------------------------------------------------
    // Text surface primitives.
    // -------------------------------------------------------------------

    method SetCaretPosition(p: nat)
      requires p <= |doc|
      modifies this
      ensures State() == M.SetCaretPosition(old(State()), p)
    {
      caret, mark := p, p;
    }

    method MoveCaretPosition(p: nat)
      requires p <= |doc|
      modifies this
      ensures State() == M.MoveCaretPosition(old(State()), p)
    {
      caret := p;
    }

    /** Selects [start, end): the mark at `start`, the caret at `end`. */
    method Select(start: nat, end: nat)
      requires start <= end <= |doc|
      modifies this
      ensures State() == old(State()).(mark := start, caret := end)
    {
      SetCaretPosition(start);
      MoveCaretPosition(end);
    }

    /** Replaces the selected text (an empty selection: nothing) by `text`;
        afterwards the caret sits after the inserted text, nothing selected. */
    method ReplaceSelection(text: string)
      requires M.CaretInDoc(State())
      modifies this
      ensures var p0 := if old(caret) <= old(mark) then old(caret) else old(mark);
        var p1 := if old(caret) <= old(mark) then old(mark) else old(caret);
        State() == old(State()).(doc := old(doc)[..p0] + text + old(doc)[p1..],
                                 caret := p0 + |text|, mark := p0 + |text|)
    {
      var p0 := if caret <= mark then caret else mark;
      var p1 := if caret <= mark then mark else caret;
      doc := doc[..p0] + text + doc[p1..];
      caret, mark := p0 + |text|, p0 + |text|;
    }

    // -------------------------------------------------------------------
    // The console's own operations.
    // -------------------------------------------------------------------

    method ReplaceRange(text: string, start: nat, end: nat)
      requires start <= end <= |doc|
      modifies this
      ensures State() == M.ReplaceRange(old(State()), text, start, end)
    {
      Select(start, end);
      ReplaceSelection(text);
    }

    method Append(text: string)
      modifies this
      ensures State() == M.Append(old(State()), text)
    {
      var slen := TextLength();
      Select(slen, slen);
      ReplaceSelection(text);
    }

    method ResetCommandStart()
      modifies this
      ensures State() == M.ResetCommandStart(old(State()))
    {
      cmdStart := TextLength();
    }

    method ForceCaretMoveToEnd()
      requires Valid()
      modifies this
      ensures Valid() && cmdStart <= caret
      ensures State() == M.ForceCaretMoveToEnd(old(State()))
    {
      if caret < cmdStart {
        SetCaretPosition(TextLength());
      }
    }

    /** Chooses between copying and cutting the selection; the document is
        left as it is here (the surface performs the copy or the cut). */
    method Cut() returns (action: ClipboardAction)
      ensures action == CopySelection <==> caret < cmdStart
    {
      if caret < cmdStart {
        action := CopySelection;
      } else {
        action := CutSelection;
      }
    }

    /** Before the surface pastes, a caret before the boundary is moved to
        the end. A caret in the tail stays, so with a selection whose mark is
        before the boundary the surface's paste still replaces committed text. */
    method Paste()
      requires Valid()
      modifies this
      ensures Valid() && cmdStart <= caret
      ensures State() == M.ForceCaretMoveToEnd(old(State()))
    {
      ForceCaretMoveToEnd();
    }

    method SetInterruptFunction(present: bool)
      modifies this
      ensures State() == old(State()).(hasInterruptFn := present)
    {
      hasInterruptFn := present;
    }

    method SetEofFunction(present: bool)
      modifies this
      ensures State() == old(State()).(hasEofFn := present)
    {
      hasEofFn := present;
    }

    /** The line being typed; empty when the boundary is a bad location. */
    method GetCmd() returns (line: string)
      ensures line == M.GetCmd(State())
      ensures cmdStart <= |doc| ==> doc == doc[..cmdStart] + line
    {
      line := "";
      if cmdStart <= TextLength() {
        line := doc[cmdStart..];
      }
    }

    method AcceptLine(line: string)
      modifies this
      ensures State() == M.AcceptLine(old(State()), line)
    {
      sent := sent + [line];
    }

    method Enter()
      requires Valid()
      modifies this
      ensures Valid()
      ensures State() == M.Enter(old(State()))
    {
      var s := GetCmd();
      if |s| == 0 {
        s := M.EMPTY_LINE;
      } else {
        history := history + [s];
        s := s + "\n";
      }
      Append("\n");
      histLine := 0;
      AcceptLine(s);
    }

    method ShowHistoryLine()
      requires Valid()
      modifies this
      ensures Valid()
      ensures State() == M.ShowHistoryLine(old(State()))
    {
      var showline;
      if histLine == 0 {
        showline := startedLine;
      } else {
        showline := history[|history| - histLine];
      }
      ReplaceRange(showline, cmdStart, TextLength());
      SetCaretPosition(TextLength());
    }

    method HistoryUp()
      requires Valid()
      modifies this
      ensures Valid()
      ensures State() == M.HistoryUp(old(State()))
    {
      if |history| == 0 {
        return;
      }
      ghost var s0 := State();
      if histLine == 0 {
        startedLine := GetCmd();
      }
      ghost var s1 := State();
      assert s1 == if s0.histLine == 0 then s0.(startedLine := M.GetCmd(s0)) else s0;
      if histLine < |history| {
        histLine := histLine + 1;
        assert State() == s1.(histLine := s1.histLine + 1);
        ShowHistoryLine();
      }
    }

    method HistoryDown()
      requires Valid()
      modifies this
      ensures Valid()
      ensures State() == M.HistoryDown(old(State()))
    {
      if histLine == 0 {
        return;
      }
      histLine := histLine - 1;
      ShowHistoryLine();
    }

    method Print(text: string)
      requires Valid()
      modifies this
      ensures Valid()
      ensures State() == M.Print(old(State()), text)
    {
      Append(text);
      ResetCommandStart();
      SetCaretPosition(cmdStart);
    }

    method Println(text: string)
      requires Valid()
      modifies this
      ensures Valid()
      ensures State() == M.Println(old(State()), text)
    {
      Print(text + "\n");
    }

    /** The pipe watcher, with the chunks it reads given up front: prints each
        chunk in order, then the closing notice. */
    method InPipeWatcher(chunks: seq<string>)
      requires Valid()
      modifies this
      ensures Valid()
      ensures State() == M.Watch(old(State()), chunks)
    {
      var i := 0;
      while i < |chunks|
        invariant 0 <= i <= |chunks|
        invariant Valid()
        invariant State() == M.PrintEach(old(State()), chunks[..i])
      {
        Print(chunks[i]);
        assert chunks[..i + 1][..i] == chunks[..i];
        i := i + 1;
      }
      assert chunks[..i] == chunks;
      Println(M.INPUT_CLOSED);
    }

    /** Enter: a key press submits the line and starts a new one after it. */
    method EnterKey(e: KeyEvent) returns (consumed: bool)
      requires Valid() && e.code == KeyCode.Enter
      modifies this
      ensures Valid()
      ensures M.EnterKey(old(State()), e) == M.Step(State(), consumed)
    {
      if e.id == Pressed {
        Enter();
        ResetCommandStart();
        SetCaretPosition(cmdStart);
      }
      consumed := true;
    }

    /** Up and Down: a key press moves through the history. */
    method HistoryKey(e: KeyEvent) returns (consumed: bool)
      requires Valid() && (e.code == Up || e.code == Down)
      modifies this
      ensures Valid()
      ensures M.HistoryKey(old(State()), e) == M.Step(State(), consumed)
    {
      if e.id == Pressed {
        if e.code == Up {
          HistoryUp();
        } else {
          HistoryDown();
        }
      }
      consumed := true;
    }

    /** Left, Backspace, Delete and Right: consumed by tests on the caret
        alone (at or before the boundary, or before it), as `M.EditKey` states. */
    method EditKey(e: KeyEvent) returns (consumed: bool)
      requires Valid() && (e.code == Left || e.code == BackSpace || e.code == Delete || e.code == Right)
      ensures M.EditKey(State(), e) == M.Step(State(), consumed)
    {
      consumed := false;
      match e.code {
        case Left =>
          if caret <= cmdStart {
            consumed := true;
          }
        case BackSpace =>
          if !HasSelection() {
            if caret <= cmdStart {
              consumed := true;
            }
          } else {
            if caret < cmdStart {
              consumed := true;
            }
          }
        case Delete =>
          if caret < cmdStart {
            consumed := true;
          }
        case Right =>
          // the helper meant to clamp the caret has an empty body
      }
    }

    /** Home: the caret goes to the boundary, extending the selection with
        Shift. */
    method HomeKey(e: KeyEvent) returns (consumed: bool)
      requires Valid() && e.code == Home
      modifies this
      ensures Valid()
      ensures M.HomeKey(old(State()), e) == M.Step(State(), consumed)
    {
      if e.shift {
        MoveCaretPosition(cmdStart);
      } else {
        SetCaretPosition(cmdStart);
      }
      consumed := true;
    }

    /** Ctrl-U: clears the line being typed. */
    method ClearLineKey(e: KeyEvent) returns (consumed: bool)
      requires Valid() && e.code == U
      modifies this
      ensures Valid()
      ensures M.ClearLineKey(old(State()), e) == M.Step(State(), consumed)
    {
      consumed := false;
      if e.ctrl {
        ReplaceRange("", cmdStart, TextLength());
        histLine := 0;
        consumed := true;
      }
    }

    /** Ctrl-D: calls the end-of-input callback, if there is one. */
    method EndOfInputKey(e: KeyEvent) returns (consumed: bool)
      requires Valid() && e.code == D
      modifies this
      ensures Valid()
      ensures M.EndOfInputKey(old(State()), e) == M.Step(State(), consumed)
    {
      consumed := false;
      if e.ctrl {
        consumed := true;
        if hasEofFn {
          eofCalls := eofCalls + 1;
        }
      }
    }

    /** C: consumed unless text is selected; a Ctrl-C key press calls the
        interrupt callback, if there is one. */
    method InterruptKey(e: KeyEvent) returns (consumed: bool)
      requires Valid() && e.code == C
      modifies this
      ensures Valid()
      ensures M.InterruptKey(old(State()), e) == M.Step(State(), consumed)
    {
      consumed := false;
      if !HasSelection() {
        if e.ctrl && e.id == Pressed {
          if hasInterruptFn {
            interrupts := interrupts + [M.INTERRUPT_REASON];
          }
        }
        consumed := true;
      }
    }

    /** The default branch of the dispatcher. */
    method DefaultKey(e: KeyEvent) returns (consumed: bool)
      requires Valid() && IsDefault(e.code)
      modifies this
      ensures Valid()
      ensures M.DefaultKey(old(State()), e) == M.Step(State(), consumed)
    {
      if !e.ctrl && !e.alt && !e.meta {
        ForceCaretMoveToEnd();
      }
      consumed := false;
      if e.keyChar == BACKSPACE_CHAR {
        if caret <= cmdStart {
          consumed := true;
        }
      }
    }

    /** The key dispatcher: applies the console's effect of `e` and reports
        whether `e` was consumed. */
    method Type(e: KeyEvent) returns (consumed: bool)
      requires Valid()
      modifies this
      ensures Valid()
      ensures M.Type(old(State()), e) == M.Step(State(), consumed)
    {
      match e.code {
        case Enter =>
          consumed := EnterKey(e);
        case Up | Down =>
          consumed := HistoryKey(e);
        case Left | BackSpace | Delete | Right =>
          consumed := EditKey(e);
        case Home =>
          consumed := HomeKey(e);
        case U =>
          consumed := ClearLineKey(e);
        case D =>
          consumed := EndOfInputKey(e);
        case C =>
          consumed := InterruptKey(e);
        case Alt | CapsLock | Control | Meta | Shift =>
          consumed := false;
        case PrintScreen | ScrollLock | Pause | Insert | Escape =>
          consumed := false;
        case Function(n) =>
          if 1 <= n <= 12 {
            consumed := false;
          } else {
            consumed := DefaultKey(e);
          }
        case Other =>
          consumed := DefaultKey(e);
      }
    }
  }

  // -------------------------------------------------------------------
  // A session: "1+1" typed and submitted, recalled with Up, Up again at
  // the oldest entry, and Down back to the empty line.
  // -------------------------------------------------------------------

  const ENTER_PRESS := KeyEvent(KeyCode.Enter, Pressed, '\n', false, false, false, false)
  const UP_PRESS := KeyEvent(Up, Pressed, ' ', false, false, false, false)
  const DOWN_PRESS := KeyEvent(Down, Pressed, ' ', false, false, false, false)

  /** "1+1" typed on a fresh console. */
  const TYPED := M.Console("1+1", 3, 3, 0, [], 0, "", [], [], 0, false, false)
  /** ... submitted: history and pipe hold it, the boundary follows the text. */
  const SUBMITTED := M.Console("1+1\n", 4, 4, 4, ["1+1"], 0, "", ["1+1\n"], [], 0, false, false)
  /** ... recalled: the entry is shown after the boundary, the empty line saved. */
  const RECALLED := M.Console("1+1\n1+1", 7, 7, 4, ["1+1"], 1, "", ["1+1\n"], [], 0, false, false)

  lemma SessionTyped()
    ensures M.Append(M.Initial(), "1+1") == TYPED
  {
  }

  lemma SessionSubmit()
    ensures M.Type(TYPED, ENTER_PRESS) == M.Step(SUBMITTED, true)
  {
    assert M.GetCmd(TYPED) == "1+1";
    assert "1+1" + "\n" == "1+1\n";
  }

  lemma SessionRecall()
    ensures M.Type(SUBMITTED, UP_PRESS) == M.Step(RECALLED, true)
  {
    assert M.GetCmd(SUBMITTED) == "";
    assert SUBMITTED.doc[..4] + "1+1" == "1+1\n1+1";
  }

  lemma SessionOldest()
    ensures M.Type(RECALLED, UP_PRESS) == M.Step(RECALLED, true)
  {
  }

  lemma SessionBack()
    ensures M.Type(RECALLED, DOWN_PRESS) == M.Step(SUBMITTED, true)
  {
    assert RECALLED.doc[..4] + "" == "1+1\n";
  }

  /** The session run on the object: each key event moves the fields through
      the states above, and Down gives back exactly the submitted state. */
  method SubmitAndRecall()
  {
    var c := new JConsole();
    c.Append("1+1");  // the text surface inserts the typed characters
    SessionTyped();
    assert c.State() == TYPED;
    var consumed := c.Type(ENTER_PRESS);
    SessionSubmit();
    assert consumed && c.State() == SUBMITTED;
    consumed := c.Type(UP_PRESS);
    SessionRecall();
    assert consumed && c.State() == RECALLED;
    consumed := c.Type(UP_PRESS);
    SessionOldest();
    assert c.State() == RECALLED;
    consumed := c.Type(DOWN_PRESS);
    SessionBack();
    assert c.State() == SUBMITTED;
  }
}
