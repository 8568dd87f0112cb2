# JConsole line editor, modelled in Dafny

This project models the line-editing core of `JConsole`, the Swing console of
the lab editor (derived from the BeanShell console). The console shows one
document. Everything before the commit boundary `cmdStart` is committed output
and earlier input. The text from `cmdStart` to the end is the line being typed.
Key events go through one dispatcher, `type`, which decides whether the event
is consumed (hidden from the text component's own handling) and applies the
console's own effect:

- Enter submits the line and sends it to the inbound pipe.
- Up and Down browse the history of submitted lines.
- Ctrl-U clears the line.
- Ctrl-D and Ctrl-C call the end-of-input and interrupt callbacks.
- The remaining keys guard the caret and the plain keys. The guard tests only
  the caret, so it has a hole: with a selection that starts before the
  boundary and ends in the tail, Backspace, Delete, cut and paste are let
  through (see "## Left out").

Output (`print`, `println`, the pipe watcher) appends to the document. It then
moves the boundary and the caret to the new end.

## Layout

- `key_events.dfy` (module `KeyEvents`): key codes, the listener that
  delivered an event, modifiers, and the character an event carries.
- `console_model.dfy` (module `ConsoleModel`): the console state as a value
  (`Console`) and every operation as a function with its contract. Each
  function states the operation's effect directly on the state; the class
  reaches the same effect through the text component's primitives (`select`,
  `replaceSelection`, `setCaretPosition`), and the proofs connect the two. The text
  component's caret is modelled as a dot (`caret`) and a `mark`. A selection
  exists exactly when they differ, which is when `getSelectedText()` is
  non-null. The inbound pipe is the log `sent`. The callbacks are presence
  flags plus a record of the calls made (`interrupts` keeps the reason string,
  `eofCalls` counts).
- `console_properties.dfy` (module `ConsoleProperties`): properties that span
  several operations. These are history cursor bounds, the navigation round
  trip, and the facts that any run of key events, output and pastes keeps the
  invariant and never alters committed text by the console's own effects. The
  text component's handling of let-through events is left out.
- `jconsole.dfy` (module `SwingConsole`): class `JConsole`. Its fields are
  updated in place by methods that follow the Java code statement by statement.
  Each method is proved to produce `ConsoleModel`'s function of the old state,
  written `State() == ConsoleModel.F(old(State()))`. A short client method,
  `SubmitAndRecall`, walks a session through the class, each state verified
  against those contracts. The states it
  passes through are written out as constants, one lemma per key event.

Some of the code's behaviour is not what the key names suggest; the model follows the code:

- Left is consumed when the caret is at or before the boundary (`<=`), not only
  when it is exactly at the boundary.
- Right does nothing, because `forceCaretMoveToStart` has an empty body.
- A `C` key event with nothing selected is consumed whether or not Ctrl is
  held. Only a Ctrl-C key press calls the interrupt callback.
- Backspace with a selection tests the caret, not the start of the selection.
- Ctrl-D and Ctrl-U act on both the press and the release event, because the
  release event is tested through its modifiers too. With a callback
  registered, one Ctrl-D keystroke calls it twice if Ctrl is still held when D
  is released.
- `u` and `d` key presses without Ctrl are not consumed. A `c` press without
  Ctrl is let through only when text is selected; with nothing selected it is
  consumed. None of them takes the default branch, so they do not move the
  caret to the end. Only the typed event that follows does.

## Model

| member | source | states |
|---|---|---|
| `ConsoleModel.Initial` | src/java/lab/ui/swing/JConsole.java:86-89 | A fresh console has an empty document, boundary 0, empty history, cursor 0 and nothing sent, and it satisfies the invariant. |
| `ConsoleModel.GetCmd` | src/java/lab/ui/swing/JConsole.java:392-401 | The result is the text after the boundary: the committed prefix followed by the result is the whole document. A boundary past the end (a bad location) gives the empty line. |
| `ConsoleModel.ReplaceRange` | src/java/lab/ui/swing/JConsole.java:352-357 | Text before `start` is unchanged. From `start` on, the document is the new text followed by the old text from `end`. The caret ends after the inserted text with no selection, and nothing else changes. The invariant is kept when `start` is not before the boundary. |
| `ConsoleModel.Append` | src/java/lab/ui/swing/JConsole.java:346-350 | The document becomes the old one plus the text, with the caret at the end and no selection. Nothing else changes and the invariant is kept. |
| `ConsoleModel.ResetCommandStart` | src/java/lab/ui/swing/JConsole.java:342-344 | The boundary becomes the document length and nothing else changes. Afterwards the boundary lies in the document whatever it was before. |
| `ConsoleModel.ForceCaretMoveToEnd` | src/java/lab/ui/swing/JConsole.java:359-365 | Afterwards the caret is never before the boundary. A caret that was before it goes to the end of the document with no selection. A caret already in the tail is left alone. The document is unchanged. |
| `ConsoleModel.AcceptLine` | src/java/lab/ui/swing/JConsole.java:441-456 | The line is appended to the inbound pipe log and nothing else changes. |
| `ConsoleModel.Enter` | src/java/lab/ui/swing/JConsole.java:375-390 | With a non-empty line L, the history becomes old + [L] and L + "\n" is sent. With an empty line, the history is unchanged and ";\n" is sent. Either way "\n" is appended to the document, the cursor becomes 0, the boundary is kept, the caret ends at the new end with nothing selected, and the invariant holds. |
| `ConsoleModel.Submit` | src/java/lab/ui/swing/JConsole.java:195-203 | After an Enter press, the document is the old one plus "\n", and the boundary, caret and mark all equal the document length. The cursor is 0, and the history and the sent lines are those of `Enter`. |
| `ConsoleModel.ShowHistoryLine` | src/java/lab/ui/swing/JConsole.java:426-437 | The committed prefix and the boundary are unchanged. The tail becomes the entry `history[size - cursor]`, or the saved line when the cursor is 0. The caret ends at the end of the document. The history, the cursor, the saved line, the sent log and the callback records are unchanged. |
| `ConsoleModel.HistoryUp` | src/java/lab/ui/swing/JConsole.java:403-415 | The invariant is kept, so the cursor stays within 0..size. It is a no-op on an empty history and at the oldest entry. Otherwise the cursor increases by one and the tail shows the matching entry. Leaving cursor 0 saves the typed line. The committed prefix is unchanged. |
| `ConsoleModel.HistoryDown` | src/java/lab/ui/swing/JConsole.java:417-424 | It is a no-op at cursor 0. Otherwise the cursor decreases by one and the tail shows the matching entry, or the saved line at 0, with the caret at the end. The committed prefix is unchanged. |
| `ConsoleModel.ClearLine` | src/java/lab/ui/swing/JConsole.java:261-267 | The document becomes exactly the committed prefix and the tail is empty. The caret sits at the boundary and the cursor is 0. |
| `ConsoleModel.Print` | src/java/lab/ui/swing/JConsole.java:463-471 | The document is the old one plus the text. Boundary, caret and mark equal the new length. History, cursor and sent lines are unchanged. |
| `ConsoleModel.Println` | src/java/lab/ui/swing/JConsole.java:458-461 | The document is the old one plus the text plus "\n", with boundary and caret at the new end. |
| `ConsoleModel.PrintEach` | src/java/lab/ui/swing/JConsole.java:635-637 | After printing every chunk in order, the document is the old one plus the concatenation of the chunks. When there was at least one chunk, boundary and caret are at the end. |
| `ConsoleModel.Watch` | src/java/lab/ui/swing/JConsole.java:632-640 | After the watcher, the document is the old one plus all chunks plus the closing notice and "\n", exactly once. Boundary and caret are at the end. |
| `ConsoleModel.EnterKey` | src/java/lab/ui/swing/JConsole.java:195-203 | Every Enter event is consumed. A press performs `Submit`. Other event kinds change nothing. |
| `ConsoleModel.HistoryKey` | src/java/lab/ui/swing/JConsole.java:205-217 | Up and Down events are always consumed. A press navigates the history. Other event kinds change nothing. The committed prefix and the history are unchanged. |
| `ConsoleModel.EditKey` | src/java/lab/ui/swing/JConsole.java:219-250 | Left, Backspace, Delete and Right change nothing. Left is consumed iff caret <= boundary. Backspace is consumed iff (no selection and caret <= boundary) or (selection and caret < boundary). Delete is consumed iff caret < boundary. Right is never consumed. |
| `ConsoleModel.HomeKey` | src/java/lab/ui/swing/JConsole.java:252-259 | Home is consumed and the caret goes to the boundary. With Shift the mark is kept, which extends the selection. Without Shift the selection is cleared. |
| `ConsoleModel.ClearLineKey` | src/java/lab/ui/swing/JConsole.java:261-267 | U is consumed iff Ctrl is held. Ctrl-U leaves exactly the committed prefix, an empty tail and cursor 0. Without Ctrl nothing changes. |
| `ConsoleModel.EndOfInputKey` | src/java/lab/ui/swing/JConsole.java:269-276 | D is consumed iff Ctrl is held. Ctrl-D records one end-of-input call when a callback is registered, and changes nothing else. |
| `ConsoleModel.InterruptKey` | src/java/lab/ui/swing/JConsole.java:304-316 | C is consumed iff nothing is selected. A Ctrl-C press with nothing selected and a callback registered records one interrupt with the reason "User pressed Ctrl-C". Every other C event changes nothing. |
| `ConsoleModel.DefaultKey` | src/java/lab/ui/swing/JConsole.java:318-338 | An event without Ctrl, Alt or Meta moves a caret that is before the boundary to the end of the document. An event with a modifier changes nothing. A Backspace-carrying event is consumed iff the resulting caret <= boundary, which for plain keys means it is exactly at the boundary. |
| `ConsoleModel.Type` | src/java/lab/ui/swing/JConsole.java:193-340 | For every event, the invariant is kept and the committed prefix of the document is unchanged. The boundary never moves back, and the history and the sent lines only grow. An event the console does not consume changes at most the caret. Modifier, lock and F1-F12 keys are let through untouched. |
| `ConsoleProperties.UpCursorAfterSteps` | src/java/lab/ui/swing/JConsole.java:403-415 | After k Up presses the cursor is min(cursor + k, size). The history is unchanged. |
| `ConsoleProperties.DownCursorAfterSteps` | src/java/lab/ui/swing/JConsole.java:417-424 | After k Down presses the cursor is max(cursor - k, 0). The history is unchanged. |
| `ConsoleProperties.UpStepsShowHistory` | src/java/lab/ui/swing/JConsole.java:403-437 | After j Up presses, with j no more than the entries left, the cursor is j larger and the tail is the entry it points at, `history[size - cursor]`, with the caret at the end. The line typed when browsing began (at cursor 0) is saved. The history, the boundary and the committed prefix are unchanged, and zero presses change nothing. |
| `ConsoleProperties.DownStepsShowHistory` | src/java/lab/ui/swing/JConsole.java:417-437 | After i Down presses (i <= cursor) the cursor is i smaller. After at least one press, the tail is the entry it points at, or the saved line at 0, with the caret at the end. The committed prefix, the boundary, the history and the saved line are unchanged. |
| `ConsoleProperties.NavigationRoundTrip` | src/java/lab/ui/swing/JConsole.java:403-437 | From cursor 0, k <= size Up presses followed by k Down presses restore the document exactly, including the typed line. The cursor returns to 0, and history and boundary are unchanged. |
| `ConsoleProperties.UpStopsAtOldest` | src/java/lab/ui/swing/JConsole.java:411-414 | After at least size Up presses the cursor equals the size, and one more Up is a no-op. |
| `ConsoleProperties.SubmittedLineIsRecalled` | src/java/lab/ui/swing/JConsole.java:375-415 | After a non-empty line is submitted it is sent with "\n", and the first Up brings it back. |
| `ConsoleProperties.Run` | src/java/lab/ui/swing/JConsole.java:193-340 | Every state reached by any sequence of key events, output and pastes from a valid state satisfies the invariant by the console's own effects. Boundary, caret and mark stay in the document, and the cursor stays within the history. The text component's handling of let-through events is left out. |
| `ConsoleProperties.ApplyKeepsCommitted` | src/java/lab/ui/swing/JConsole.java:193-340 | A single key event, output or paste keeps the committed prefix, does not move the boundary back, and only grows the history and the sent lines. |
| `ConsoleProperties.RunKeepsCommitted` | src/java/lab/ui/swing/JConsole.java:193-340 | The same holds for any sequence of key events, output and pastes: committed text is never altered or removed by the console's own effects. The text component's handling of let-through events is left out. |
| `SwingConsole.JConsole.constructor` | src/java/lab/ui/swing/JConsole.java:113-156 | The fields start as `ConsoleModel.Initial()`. |
| `SwingConsole.JConsole.ReplaceRange` | src/java/lab/ui/swing/JConsole.java:352-357 | Selecting and then replacing the selection changes the fields as `ConsoleModel.ReplaceRange`. |
| `SwingConsole.JConsole.Append` | src/java/lab/ui/swing/JConsole.java:346-350 | Selecting the end and then replacing it changes the fields as `ConsoleModel.Append`. |
| `SwingConsole.JConsole.ResetCommandStart` | src/java/lab/ui/swing/JConsole.java:342-344 | The fields change as `ConsoleModel.ResetCommandStart`. |
| `SwingConsole.JConsole.ForceCaretMoveToEnd` | src/java/lab/ui/swing/JConsole.java:359-365 | The invariant is kept, the caret ends at or after the boundary, and the fields change as `ConsoleModel.ForceCaretMoveToEnd`. |
| `SwingConsole.JConsole.TextLength` | src/java/lab/ui/swing/JConsole.java:722-724 | The length of the document text; under the invariant the boundary never exceeds it. |
| `SwingConsole.JConsole.Cut` | src/java/lab/ui/swing/JConsole.java:158-164 | The request only copies iff the caret is before the boundary. Otherwise it cuts. The document is not changed by the console itself. |
| `SwingConsole.JConsole.Paste` | src/java/lab/ui/swing/JConsole.java:166-169 | Before the paste, a caret before the boundary is moved to the end, so afterwards the caret is in the tail (`ForceCaretMoveToEnd`). |
| `SwingConsole.JConsole.SetInterruptFunction` | src/java/lab/ui/swing/JConsole.java:171-173 | Only the interrupt-callback registration changes. |
| `SwingConsole.JConsole.SetEofFunction` | src/java/lab/ui/swing/JConsole.java:175-177 | Only the end-of-input-callback registration changes. |
| `SwingConsole.JConsole.GetCmd` | src/java/lab/ui/swing/JConsole.java:392-401 | Returns `ConsoleModel.GetCmd` of the fields. The committed prefix followed by the result is the document. |
| `SwingConsole.JConsole.AcceptLine` | src/java/lab/ui/swing/JConsole.java:441-456 | Appends the line to the pipe log (`ConsoleModel.AcceptLine`). |
| `SwingConsole.JConsole.Enter` | src/java/lab/ui/swing/JConsole.java:375-390 | Keeps the invariant and changes the fields as `ConsoleModel.Enter`: the history entry, the sent line and the appended "\n". |
| `SwingConsole.JConsole.ShowHistoryLine` | src/java/lab/ui/swing/JConsole.java:426-437 | Keeps the invariant and changes the fields as `ConsoleModel.ShowHistoryLine`. |
| `SwingConsole.JConsole.HistoryUp` | src/java/lab/ui/swing/JConsole.java:403-415 | Keeps the invariant, including the cursor bounds, and changes the fields as `ConsoleModel.HistoryUp`. |
| `SwingConsole.JConsole.HistoryDown` | src/java/lab/ui/swing/JConsole.java:417-424 | Keeps the invariant and changes the fields as `ConsoleModel.HistoryDown`. |
| `SwingConsole.JConsole.Print` | src/java/lab/ui/swing/JConsole.java:463-471 | Keeps the invariant and changes the fields as `ConsoleModel.Print`: append, then boundary and caret to the end. |
| `SwingConsole.JConsole.Println` | src/java/lab/ui/swing/JConsole.java:458-461 | Keeps the invariant and changes the fields as `ConsoleModel.Println`. |
| `SwingConsole.JConsole.InPipeWatcher` | src/java/lab/ui/swing/JConsole.java:632-640 | The loop prints the chunks in order and then the closing notice. The fields end as `ConsoleModel.Watch`. |
| `SwingConsole.JConsole.EnterKey` | src/java/lab/ui/swing/JConsole.java:195-203 | The Enter branch changes the fields and decides consumption as `ConsoleModel.EnterKey`. |
| `SwingConsole.JConsole.HistoryKey` | src/java/lab/ui/swing/JConsole.java:205-217 | The Up and Down branches act as `ConsoleModel.HistoryKey`. |
| `SwingConsole.JConsole.EditKey` | src/java/lab/ui/swing/JConsole.java:219-250 | The Left, Backspace, Delete and Right branches change no field, and their consumption decision is that of `ConsoleModel.EditKey`. |
| `SwingConsole.JConsole.HomeKey` | src/java/lab/ui/swing/JConsole.java:252-259 | The Home branch acts as `ConsoleModel.HomeKey`. |
| `SwingConsole.JConsole.ClearLineKey` | src/java/lab/ui/swing/JConsole.java:261-267 | The U branch acts as `ConsoleModel.ClearLineKey`. |
| `SwingConsole.JConsole.EndOfInputKey` | src/java/lab/ui/swing/JConsole.java:269-276 | The D branch acts as `ConsoleModel.EndOfInputKey`. |
| `SwingConsole.JConsole.InterruptKey` | src/java/lab/ui/swing/JConsole.java:304-316 | The C branch acts as `ConsoleModel.InterruptKey`. |
| `SwingConsole.JConsole.DefaultKey` | src/java/lab/ui/swing/JConsole.java:318-338 | The default branch changes the fields and decides consumption as `ConsoleModel.DefaultKey`. |
| `SwingConsole.JConsole.Type` | src/java/lab/ui/swing/JConsole.java:193-340 | Keeps the invariant. The new fields and the consumed flag are exactly `ConsoleModel.Type` of the old state and the event, so every property of the dispatcher holds of the object. |
| `SwingConsole.SessionSubmit` | src/java/lab/ui/swing/JConsole.java:195-203 | Enter pressed after typing "1+1" on a fresh console is consumed. It records "1+1" in the history, sends "1+1\n" and moves the boundary past the new line feed. |
| `SwingConsole.SessionRecall` | src/java/lab/ui/swing/JConsole.java:205-210 | Up then shows "1+1" after the boundary, with cursor 1 and the empty line saved. |
| `SwingConsole.SessionOldest` | src/java/lab/ui/swing/JConsole.java:411-414 | Up again, at the oldest entry, changes nothing. |
| `SwingConsole.SessionBack` | src/java/lab/ui/swing/JConsole.java:212-217 | Down gives back exactly the state right after the submission. |

## Left out

- The text component's own handling of events that are not consumed is not modelled. This covers inserting typed characters, moving the caret with Left and Right, and deleting with Backspace and Delete. The model gives only the console's decision and its own effect. That handling can delete a selection that starts before the boundary (see the TODO at JConsole.java:234-235), so the boundary invariant is proved only for the operations modelled here.
- `SwingConsole.JConsole.Cut`: the copy or cut itself, and the clipboard, belong to the text component and are not modelled. The method returns which of the two the console asks for. Only the caret is tested: with a selection from before the boundary into the tail (reachable with select-all, Ctrl-A, which the default branch lets through), the text component's cut removes committed text.
- `SwingConsole.JConsole.Paste`: the insertion of the clipboard contents belongs to the text component and is not modelled. Only the caret move that precedes it is. That move leaves a caret in the tail where it is, so with a selection whose mark is before the boundary the text component's paste replaces committed text. Backspace and Delete are let through for such a selection too. This is the same hole as the TODO at JConsole.java:234-235.
- Styling and rendering are not modelled: `setStyle`/`getStyle`, fonts and colours, `repaint`. The styled `print` overloads and `error` append `String.valueOf(o)` and reset the boundary exactly as `print` does. Only their styling is left out; their effect on the text is `Print`'s. `print(Icon)` and `println(Icon)` are left out too, because an icon is not text.
- The pipes, the watcher thread and `invokeAndWait` are not modelled as concurrency. The watcher is modelled as `InPipeWatcher` over the sequence of chunks it would read, and `print` runs directly. The I/O-error branch of `run` is left out.
- `acceptLine` is modelled as appending to the `sent` log. The branch for a missing pipe and the `IOException` that becomes a `RuntimeException` are left out, because they are I/O failures.
- `GetCmd` returns the empty line on a bad location, as the code does. The diagnostic it prints to standard output is left out.
- The constructor's pipe set-up, its error messages, the external reader and writer, and `getIn`/`getOut`/`getErr` are left out as I/O wiring.
- `println()` without arguments is `print("\n")`, which is `Print` with a one-character text, so it has no separate member.
- `keyPressed`, `keyTyped` and `keyReleased` each forward their event to `type`, and the event's `id` records which of them did. The `gotUp` flag they set is never read, so it is left out, as are `ZEROS` and `SHOW_AMBIG_MAX`.
- The popup menu, the mouse listeners, `actionPerformed` (which only calls cut, copy or paste), `propertyChange`, `setWaitFeedback` and `toString` are left out as user-interface code.
- The callbacks are modelled as registration flags plus a record of their calls. What they do when called is outside this code.
- The default branch looks for the word "Backspace" in the event's description. This is modelled as the event carrying the backspace character, which is what produces that word in an English locale.
- `startedLine` starts as `null` in Java. Here it starts as the empty string. It is always set before it is shown, because the cursor leaves 0 only through `historyUp`.
- States with `cmdStart > |doc|` are not modelled: every operation requires the invariant `Valid`. Such states are reachable when the text component handles a let-through Backspace, Delete, typed character, cut or paste on a selection that starts before the boundary (see the TODOs at JConsole.java:234-235 and 244-245). In them the code still behaves in a defined way (`getCmd` returns the empty line, `select` clamps).
- Positions are counted in Unicode scalar values, because a Dafny `string` is a sequence of them. Java's document offsets, `textLength()` and `String` lengths count UTF-16 code units. For text outside the Basic Multilingual Plane, `caret`, `mark`, `cmdStart` and `|doc|` therefore differ from Java's numbers. A 256-character watcher chunk that splits a surrogate pair (JConsole.java:635-636) cannot be represented as a chunk. The shown text, the history and the sent lines are not affected.
- `select` clamps out-of-range positions. `ReplaceRange` instead requires `start <= end <= |doc|`, which every call in the code meets under the invariant.
- `type` is `synchronized`, which only serializes calls. The model processes one event at a time.
