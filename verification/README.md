# tuipostman core, modelled in Dafny

tuipostman is a terminal HTTP client. The user picks a method, types a URL, fills in
header rows and a body, and presses `ctrl+r`. The request is then run by `curl`, and the
output is shown in a Response tab. This project models the program's logic, which is all
in `main.go`, in three parts:

- **Request building** (`builder.dfy`, module `Builder`). `sendRequest` trims the URL and
  rejects a blank one with `URL cannot be empty`. Otherwise it builds curl's argument
  list in this order:
  - `--silent -X <method> <url>`;
  - one `-H "key: value"` pair per header row whose trimmed key is not blank, in row
    order;
  - `--data <trimmed body>`, only for POST/PUT/DELETE and only when the body is not
    blank.

  Trimming follows Go's `strings.TrimSpace` (`text.dfy`, module `Text`).
- **Result classification** (`outcome.dfy`, module `Outcome`). The captured stdout is
  always the response body. A failed run gives the error `request failed: …`. Otherwise,
  any stderr output is an error, even when curl exited successfully. curl itself is a
  function parameter (`Curl`) from arguments to a `ProcessResult`.
- **The UI state machine** (`ui.dfy`, module `Ui`; lemmas in `ui_properties.dfy`, module
  `UiProperties`). `Update` becomes `Step`: one message in, the next state and a command
  out. A message is either a key name or a request's result. Step covers:
  - focus cycling with `tab` and `shift+tab`;
  - method cycling with `left` and `right`;
  - direct tab jumps with `h`, `b` and `r`;
  - clamped header-cell movement with `up` and `down`;
  - appending a header row with `ctrl+n`;
  - sending with `ctrl+r`;
  - routing of every other key to at most one text field.

  Text fields are plain strings. What a field does with a key is the `Editor` parameter.

The state keeps an invariant, `Ui.Valid`:
- every index is in range;
- the header list is never empty;
- the selected header cell `headerFocusIndex` stays within `[0, 2*rows-1]`.

`NewModel` establishes it, and every message preserves it.

Two behaviours of the code are kept as written:

- **A later successful response does not clear an earlier error.** A result replaces the
  response text every time, but replaces the error only when the result carries one.
  `UiProperties.StaleErrorAfterRecovery` states this.
- **`h`, `b` and `r` are not typed into the field they leave.** On the tab panel these
  keys first switch tabs, and only then is the key routed. So `h` is typed into the
  selected header cell and `b` into the body. `r` reaches no field at all. No header cell
  can receive `b` or `r`, so a header such as `Authorization` cannot be typed, and the
  body never receives `h` or `r`.

Where a description of the program and its code disagree, the model follows the code.
The stderr error is not stderr verbatim: the code passes it to `fmt.Errorf` as a format
string.

## Model

| member | source | states |
|---|---|---|
| Text.TrimSpace | main.go:364 | The trimmed URL/key/value/body has no space at either end, is no longer than the input, and is blank exactly when the input is all whitespace (Go's `unicode.IsSpace` set) |
| Text.TrimSpaceIsScanTrim | main.go:373-374 | Peeling one space at a time gives the same string as scanning for the first and last non-space, which is how `strings.TrimSpace` works |
| Text.TrimSpaceSlice | main.go:364 | The trimmed string is a slice of the input with only spaces before and after it |
| Text.TrimSpaceUnique | main.go:364 | Any slice with spaces around it and no space at its ends is the trimmed string |
| Text.TrimSpaceIdempotent | main.go:385 | Trimming twice is trimming once |
| Text.TrimSpaceOfPadded | main.go:364 | Whitespace added around a string is exactly what trimming removes |
| Builder.MethodName | main.go:382 | Of the four table methods only GET leaves the body off; PATCH is never selected, so its branch is dead |
| Builder.Kept | main.go:372-380 | Every row that is sent has a non-blank trimmed key |
| Builder.KeptIsFilter | main.go:376 | A row is sent if and only if it is in the list and its trimmed key is not blank |
| Builder.KeptAppend | main.go:372-380 | The sent rows of two lists in sequence are the sent rows of each, in order |
| Builder.HeaderArgs | main.go:372-380 | The header section has exactly two arguments per sent row |
| Builder.HeaderArgsOfOne | main.go:376-379 | A row with a non-blank key adds exactly `-H`, `key: value`, even with a blank value; a row with a blank key adds nothing |
| Builder.HeaderArgsAppend | main.go:372-380 | Each row contributes independently and in list order |
| Builder.HeaderArgsShape | main.go:372-380 | The header section is, pair by pair, `-H` then the trimmed `key: value` of the i-th sent row |
| Builder.PayloadArgs | main.go:382-388 | The payload is `--data` followed by the trimmed body when the method is not GET and the body is not blank, and empty otherwise |
| Builder.BuildArgs | main.go:363-388 | A blank URL is exactly the `URL cannot be empty` failure; otherwise the list starts `--silent -X <method> <trimmed url>` and has an even length |
| Builder.BuildArgsHeaders | main.go:370-380 | After the four-argument prefix come the `-H` pairs of the sent rows in list order |
| Builder.BuildArgsPayload | main.go:382-388 | `--data` is at a flag position exactly once, as the last pair with the trimmed body, iff the method carries a body and the body is not blank |
| Builder.GetSendsNoBody | main.go:382-388 | A GET request is the prefix and the header pairs only, whatever the body holds |
| Builder.EmptyRowSendsNothing | main.go:376-379 | Appending a row with a blank key leaves the built request unchanged |
| Outcome.Classify | main.go:398-407 | The body is always stdout. There is no error iff the run succeeded and stderr is empty. A run error gives `request failed: <err>`. Otherwise non-empty stderr gives a stderr error |
| Outcome.SendRequest | main.go:361-410 | A blank URL yields the empty body with `URL cannot be empty`; otherwise the body is curl's stdout for the built arguments |
| Outcome.BlankUrlNeverRunsCurl | main.go:364-367 | With a blank URL the outcome does not depend on curl at all, and the body is empty |
| Outcome.SendRequestSucceeds | main.go:398-407 | A request reports no error iff the URL is not blank, curl succeeded and wrote nothing to stderr |
| Outcome.RunErrorWinsOverStderr | main.go:403-407 | With a run error, stderr does not affect the error, which is the `request failed` one |
| Ui.GoRem | main.go:106 | Go's `%` is the remainder of truncating division: the dividend is quotient times divisor plus the remainder, which lies strictly between -n and n and has the dividend's sign |
| Ui.NewModel | main.go:346-358 | The initial state is valid. GET is selected, the URL is focused and routed to, and the Headers tab shows one empty row. The error is present but has empty text |
| Ui.AddHeader | main.go:159-162 | Exactly one empty row is appended, the old rows are unchanged, the new key cell is selected, and nothing else changes |
| Ui.Navigate | main.go:104-178 | Navigation keys never change any text, the rows, or the result, and never make the selected cell negative |
| Ui.Route | main.go:189-218 | The URL field receives keys iff the URL is focused. The body receives them iff the Body tab is focused. A header cell receives them only on the Headers tab, and only for an existing row |
| Ui.Deliver | main.go:189-218 | Only the routed field's text is edited; every other field and every index are unchanged |
| Ui.Absorb | main.go:93-97 | The response text is always replaced. The error is replaced only by a present error and otherwise kept. Nothing else changes |
| Ui.Step | main.go:89-221 | The selected cell stays non-negative and rows are never removed. Only `ctrl+c` quits. A request is sent iff `ctrl+r` arrives on the Body tab; it is the model's own request, and the Response tab is shown |
| UiProperties.StepPreservesValid | main.go:104-178 | Every message keeps every index in range, the header list non-empty and the selected cell in `[0, 2*rows-1]` |
| UiProperties.RunPreservesValid | main.go:89-221 | Any message sequence from a valid state, such as the initial one, ends in a valid state |
| UiProperties.RunNeverRemovesHeaders | main.go:160 | Header rows are only ever appended |
| UiProperties.TabCyclesFocus | main.go:114-130 | `tab` moves the focus to (i+1) mod 3 and `shift+tab` to (i+2) mod 3 |
| UiProperties.TabThenShiftTab | main.go:114-130 | `shift+tab` after `tab` restores every index and the row count |
| UiProperties.LeftRightCycleMethods | main.go:104-112 | On the method selector, `left`/`right` step the method mod 4 and undo each other exactly |
| UiProperties.ArrowsNeedMethodFocus | main.go:104-112 | Away from the method selector, `left`/`right` never change the method |
| UiProperties.TabKeysJump | main.go:132-145 | With the tab panel focused, `h`/`b`/`r` select Headers/Body/Response; elsewhere they leave the tab alone |
| UiProperties.UpDownClamp | main.go:166-178 | On the Headers tab, `up`/`down` move the cell by one and stop at the first and last cell; elsewhere they do nothing to it |
| UiProperties.AddHeaderAppendsOneRow | main.go:147-163 | On the Headers tab, `ctrl+n` appends one empty row and keeps the old rows. It selects cell 2*rows-2, whose key cell the next key reaches, and leaves the built request unchanged |
| UiProperties.AddHeaderNeedsHeadersTab | main.go:147-148 | Away from the Headers tab, `ctrl+n` leaves the rows untouched |
| UiProperties.RouteSelectsFocusedCell | main.go:195-211 | On the Headers tab, keys reach row `cell/2` (which exists): its key cell for an even cell index, its value cell for an odd one. That field encodes back to the same cell index |
| UiProperties.RouteNowhere | main.go:189-220 | No field receives keys exactly when the method selector or the Response tab is focused |
| UiProperties.BodyNeverReceivesTabKeys | main.go:132-218 | On the tab panel, `h` and `r` never reach the body, `b` and `r` never reach a header cell, and `h` is typed into the selected header cell |
| UiProperties.SendFromBodyTab | main.go:181-186 | `ctrl+r` sends iff the Body tab is focused, then shows the Response tab and sends the model's arguments; otherwise the tab is unchanged |
| UiProperties.ErrorOutlivesSuccess | main.go:93-97 | A result without an error replaces the response text and keeps the previous error |
| UiProperties.StaleErrorAfterRecovery | main.go:93-97 | After a failed run and then a clean one, the model holds the clean run's body next to the failed run's error |
| UiProperties.QuitOnlyOnCtrlC | main.go:101-102 | Only `ctrl+c` quits, and it leaves the model unchanged |

## Left out

- Running curl (main.go:390-396): the subprocess and buffer capture are replaced by the
  `Curl` function parameter. A run's error is represented by its text.
- The stderr error (main.go:406) goes through `fmt.Errorf` as a format string, so `%`
  sequences may be rewritten. The model records the raw stderr (`FromStderr`) and does not
  claim any text for it.
- `View` and the lipgloss styles (main.go:26-58, 223-308): rendering only. The initial
  error has empty text, and the view treats an error with empty text as no error.
- The text-input widget (Focus, Blur, cursor, width, placeholders): an external library.
  Each field is its text, and its editing is the `Editor` parameter. The widget's focus
  flag is not modelled: a key routed to a field always edits it here.
- The URL field's focus at startup. `Init` (main.go:85-87) has a value receiver, so the
  `Focus()` it calls is lost and the URL widget starts unfocused. The widget ignores keys
  while unfocused, so in the program, keys typed into the URL are dropped until the user
  tabs away and back. The model edits the URL from the first key.
- Result messages are assumed to leave the text fields' values unchanged when the routing
  tail hands them to the focused widget.
- The bubbletea runtime: cursor and focus commands (modelled as `NoCmd`), `Init`,
  `main`, and other message kinds such as window-size and blink messages.
- Concurrency: a reply arrives as a `Response` message in whatever order the environment
  supplies it. Overlapping requests are not modelled further.
- When the header rows are read. `Send` carries a copy of the request made when `ctrl+r`
  is pressed. In the program, the command returned at main.go:184 reads the headers at
  main.go:372-374 when it runs, on its own goroutine. It reads them through a slice that
  shares its elements with the live model, and later key presses edit those elements in
  place (main.go:202-208). For example, `ctrl+r` followed quickly by `h` races over
  whether curl gets the old or the edited header. The model does not represent this race.
- `responseMsg.exitCode`: never set or read.
- core_test.go:20-55: these tests depend on live responses from a remote echo service.
- Go's 64-bit `int` overflow (for example `len(m.headers)*2`): the model uses unbounded
  integers.
- Go strings are UTF-8 bytes; the model uses Unicode characters. Trimming invalid UTF-8 is
  not modelled.
- Ui.Step: requires a non-negative `headerFocusIndex`, as every reachable state has. The
  code tolerates -1 (it routes to row 0's value cell) and panics on -2 or below.
