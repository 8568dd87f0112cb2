/** Properties of the console that relate several operations: history
    navigation and its round trip, and the invariants every sequence of key
    events and output keeps. */
module ConsoleProperties {
  import opened KeyEvents
  import opened ConsoleModel

  /** `k` presses of Up. */
  function UpN(s: Console, k: nat): (r: Console)
    requires Valid(s)
    ensures Valid(r)
    decreases k
  {
    if k == 0 then s else UpN(HistoryUp(s), k - 1)
  }

  /** `k` presses of Down. */
  function DownN(s: Console, k: nat): (r: Console)
    requires Valid(s)
    ensures Valid(r)
    decreases k
  {
    if k == 0 then s else DownN(HistoryDown(s), k - 1)
  }

  /** The line shown is the history entry the cursor points at (the saved
      line when the cursor is 0), with the caret at the end. */
  predicate ShowsCursorLine(u: Console)
    requires Valid(u)
  {
    && u.caret == |u.doc|
    && GetCmd(u) == if u.histLine == 0 then u.startedLine else u.history[|u.history| - u.histLine]
  }

  /** One press of Up: the cursor moves one entry back unless it is at the
      oldest; when it moves, the entry it reaches is shown. The history, the
      boundary and the committed text stay as they are. */
  lemma OneUpStep(v: Console)
    requires Valid(v)
    ensures var u := HistoryUp(v);
      && u.histLine == (if v.histLine < |v.history| then v.histLine + 1 else v.histLine)
      && u.history == v.history && u.cmdStart == v.cmdStart
      && u.doc[..v.cmdStart] == v.doc[..v.cmdStart]
      && u.startedLine == (if v.histLine == 0 && 0 < |v.history| then GetCmd(v) else v.startedLine)
      && (v.histLine < |v.history| ==> ShowsCursorLine(u))
  {
  }

  /** One press of Down: the cursor moves one entry forward unless it is at
      0; when it moves, the entry it reaches is shown. The history, the
      saved line, the boundary and the committed text stay as they are. */
  lemma OneDownStep(v: Console)
    requires Valid(v)
    ensures var u := HistoryDown(v);
      && u.histLine == (if 0 < v.histLine then v.histLine - 1 else 0)
      && u.history == v.history && u.startedLine == v.startedLine
      && u.cmdStart == v.cmdStart && u.doc[..v.cmdStart] == v.doc[..v.cmdStart]
      && (0 < v.histLine ==> ShowsCursorLine(u))
  {
  }

  /** The history cursor saturates going back: after `k` presses of Up it is
      the old cursor plus `k`, capped at the history size. The history is
      unchanged. */
  lemma {:induction false} UpCursorAfterSteps(s: Console, k: nat, t: Console)
    requires Valid(s) && t == UpN(s, k)
    ensures t.histLine == if s.histLine + k <= |s.history| then s.histLine + k else |s.history|
    ensures t.history == s.history
    decreases k
  {
    if k > 0 {
      OneUpStep(s);
      UpCursorAfterSteps(HistoryUp(s), k - 1, t);
    }
  }

  /** ... and going forward: after `k` presses of Down it is the old cursor
      minus `k`, floored at 0. */
  lemma {:induction false} DownCursorAfterSteps(s: Console, k: nat, t: Console)
    requires Valid(s) && t == DownN(s, k)
    ensures t.histLine == if k <= s.histLine then s.histLine - k else 0
    ensures t.history == s.history
    decreases k
  {
    if k > 0 {
      OneDownStep(s);
      DownCursorAfterSteps(HistoryDown(s), k - 1, t);
    }
  }

  /** Browsing back: after `j` presses of Up (no more than the entries
      left) the cursor is `j` larger and the line shown is the entry it
      points at, with the caret at the end; the line being typed when
      browsing began is saved, and the history, the boundary and the
      committed text are untouched. */
  lemma {:induction false} UpStepsShowHistory(s: Console, j: nat, t: Console)
    requires Valid(s) && s.histLine + j <= |s.history| && t == UpN(s, j)
    ensures t.histLine == s.histLine + j && t.history == s.history && t.cmdStart == s.cmdStart
    ensures t.doc[..s.cmdStart] == s.doc[..s.cmdStart]
    ensures j == 0 ==> t == s
    ensures 0 < j ==> t.startedLine == (if s.histLine == 0 then GetCmd(s) else s.startedLine)
    ensures 0 < j ==> ShowsCursorLine(t)
    decreases j
  {
    if j > 0 {
      OneUpStep(s);
      UpStepsShowHistory(HistoryUp(s), j - 1, t);
    }
  }

  /** Browsing forward: after `i` presses of Down (no more than the cursor)
      the cursor is `i` smaller, and the history, the saved line, the boundary
      and the committed text are as before; after at least one press the line
      shown is the one the cursor points at. */
  lemma {:induction false} DownStepsShowHistory(t: Console, i: nat, u: Console)
    requires Valid(t) && i <= t.histLine && u == DownN(t, i)
    ensures u.histLine == t.histLine - i && u.history == t.history
    ensures u.startedLine == t.startedLine && u.cmdStart == t.cmdStart
    ensures u.doc[..t.cmdStart] == t.doc[..t.cmdStart]
    ensures 0 < i ==> ShowsCursorLine(u)
    decreases i
  {
    if i > 0 {
      OneDownStep(t);
      DownStepsShowHistory(HistoryDown(t), i - 1, u);
    }
  }

  /** The navigation round trip: from the live line, `k` presses of Up (at most
      the history size) followed by `k` presses of Down give back exactly the
      document that was there before, with the cursor at 0. */
  lemma NavigationRoundTrip(s: Console, k: nat)
    requires Valid(s) && s.histLine == 0 && k <= |s.history|
    ensures var u := DownN(UpN(s, k), k);
      u.doc == s.doc && GetCmd(u) == GetCmd(s) && u.histLine == 0
      && u.history == s.history && u.cmdStart == s.cmdStart
  {
    var t := UpN(s, k);
    UpStepsShowHistory(s, k, t);
    var u := DownN(t, k);
    DownStepsShowHistory(t, k, u);
    if k > 0 {
      calc {
        u.doc;
        u.doc[..u.cmdStart] + GetCmd(u);
        s.doc[..s.cmdStart] + GetCmd(s);
        s.doc;
      }
    }
  }

  /** Once the oldest entry is shown, further presses of Up change nothing. */
  lemma {:induction false} UpStopsAtOldest(s: Console, k: nat)
    requires Valid(s) && |s.history| <= k
    ensures UpN(s, k).histLine == |s.history|
    ensures HistoryUp(UpN(s, k)) == UpN(s, k)
  {
    UpCursorAfterSteps(s, k, UpN(s, k));
  }

  /** A submitted non-empty line is the first one Up brings back. */
  lemma SubmittedLineIsRecalled(s: Console)
    requires Valid(s) && GetCmd(s) != ""
    ensures GetCmd(HistoryUp(Submit(s))) == GetCmd(s)
    ensures Submit(s).sent == s.sent + [GetCmd(s) + "\n"]
  {
  }

  /** What the console can be asked to do: a key event, output from the
      consumer, or a paste (of which only the caret move is the console's). */
  datatype Action = Key(e: KeyEvent) | Output(text: string) | PasteCaret

  /** The console's own effect of one action. What the text surface then does
      with a key event that is let through is not part of it. */
  function Apply(s: Console, a: Action): (r: Console)
    requires Valid(s)
    ensures Valid(r)
  {
    match a
    case Key(e) => Type(s, e).next
    case Output(text) => Print(s, text)
    case PasteCaret => ForceCaretMoveToEnd(s)
  }

  /** The console's own effects of the actions, in order. */
  function Run(s: Console, actions: seq<Action>): (r: Console)
    requires Valid(s)
    ensures Valid(r)
    decreases |actions|
  {
    if actions == [] then s else Run(Apply(s, actions[0]), actions[1..])
  }

  /** One action keeps the committed text and only grows the history and the
      pipe. */
  lemma ApplyKeepsCommitted(s: Console, a: Action)
    requires Valid(s)
    ensures var r := Apply(s, a);
      s.cmdStart <= r.cmdStart && s.doc[..s.cmdStart] <= r.doc
      && s.history <= r.history && s.sent <= r.sent
  {
    match a
    case Key(e) =>
    case Output(text) =>
    case PasteCaret =>
  }

  /** By the console's own effects, any run of key events, output and pastes
      never changes committed text,
      never moves the boundary back and never removes a submitted line from
      the history or the pipe. */
  lemma {:induction false} RunKeepsCommitted(s: Console, actions: seq<Action>)
    requires Valid(s)
    ensures var r := Run(s, actions);
      s.cmdStart <= r.cmdStart && s.doc[..s.cmdStart] <= r.doc
      && s.history <= r.history && s.sent <= r.sent
    decreases |actions|
  {
    if actions != [] {
      var s1 := Apply(s, actions[0]);
      ApplyKeepsCommitted(s, actions[0]);
      RunKeepsCommitted(s1, actions[1..]);
      var r := Run(s1, actions[1..]);
      assert s.doc[..s.cmdStart] == s1.doc[..s.cmdStart];
      assert s1.doc[..s1.cmdStart][..s.cmdStart] == s1.doc[..s.cmdStart];
    }
  }
}
