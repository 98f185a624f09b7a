/** Properties of `Update` over the whole model: the bounds it keeps, the
    navigation keys' cycles and clamps, header insertion, routing, sending
    and the error that survives a later successful response. */
module UiProperties {
  import opened Wrappers
  import opened Text
  import opened Builder
  import opened Outcome
  import opened Ui

  /** The navigation part of a state: every index and the number of rows. */
  function Nav(s: State): (int, int, int, int, int) {
    (s.methodIndex, s.focusIndex, s.tabIndex, s.headerFocusIndex, |s.headers|)
  }

  /** The header cell index a field stands for: `2 * row` for a key cell,
      `2 * row + 1` for a value cell. */
  function CellIndex(f: Field): int
    requires f.KeyField? || f.ValueField?
  {
    if f.KeyField? then 2 * f.row else 2 * f.row + 1
  }

  /** Every message keeps a valid state valid. */
  lemma StepPreservesValid(s: State, msg: Msg, edit: Editor)
    requires Valid(s)
    ensures Valid(Step(s, msg, edit).next)
  {
    match msg
    case Response(_) =>
    case Key(key) =>
      if key != "ctrl+c" && !(key == "ctrl+n" && InHeaders(s)) {
        var n := Navigate(s, key);
        assert Valid(n);
      }
  }

  /** Any sequence of messages from a valid state, in particular from
      `NewModel()`, ends in a valid state. */
  lemma {:induction false} RunPreservesValid(s: State, msgs: seq<Msg>, edit: Editor)
    requires Valid(s)
    ensures Valid(Run(s, msgs, edit))
    decreases |msgs|
  {
    if msgs != [] {
      StepPreservesValid(s, msgs[0], edit);
      var t := Step(s, msgs[0], edit);
      if t.cmd != Quit {
        RunPreservesValid(t.next, msgs[1..], edit);
      }
    }
  }

  /** Rows are never removed: the header list only grows. */
  lemma {:induction false} RunNeverRemovesHeaders(s: State, msgs: seq<Msg>, edit: Editor)
    requires s.headerFocusIndex >= 0
    ensures |Run(s, msgs, edit).headers| >= |s.headers|
    decreases |msgs|
  {
    if msgs != [] {
      var t := Step(s, msgs[0], edit);
      if t.cmd != Quit {
        RunNeverRemovesHeaders(t.next, msgs[1..], edit);
      }
    }
  }

  /** `tab` moves focus forward and `shift+tab` backward around the three
      regions, wrapping. */
  lemma TabCyclesFocus(s: State, edit: Editor)
    requires Valid(s)
    ensures Step(s, Key("tab"), edit).next.focusIndex == (s.focusIndex + 1) % FocusRegions
    ensures Step(s, Key("shift+tab"), edit).next.focusIndex == (s.focusIndex + 2) % FocusRegions
  {
  }

  /** `shift+tab` undoes `tab` on every index and on the number of rows
      (the keys themselves may reach a text field on the way). */
  lemma TabThenShiftTab(s: State, edit: Editor)
    requires Valid(s)
    ensures var t := Step(s, Key("tab"), edit).next;
      Nav(Step(t, Key("shift+tab"), edit).next) == Nav(s)
  {
  }

  /** On the method selector `left` and `right` step backward and forward
      through the four methods, wrapping, and undo each other exactly. */
  lemma LeftRightCycleMethods(s: State, edit: Editor)
    requires Valid(s) && s.focusIndex == FocusMethod
    ensures Step(s, Key("left"), edit).next.methodIndex == (s.methodIndex + 3) % |Methods|
    ensures Step(s, Key("right"), edit).next.methodIndex == (s.methodIndex + 1) % |Methods|
    ensures Step(Step(s, Key("left"), edit).next, Key("right"), edit).next == s
    ensures Step(Step(s, Key("right"), edit).next, Key("left"), edit).next == s
  {
  }

  /** Away from the method selector `left` and `right` never change the
      method. */
  lemma ArrowsNeedMethodFocus(s: State, edit: Editor)
    requires Valid(s) && s.focusIndex != FocusMethod
    ensures Step(s, Key("left"), edit).next.methodIndex == s.methodIndex
    ensures Step(s, Key("right"), edit).next.methodIndex == s.methodIndex
  {
  }

  /** With the tab panel focused `h`, `b` and `r` select Headers, Body and
      Response directly; elsewhere they leave the tab alone. */
  lemma TabKeysJump(s: State, edit: Editor)
    requires Valid(s)
    ensures s.focusIndex == FocusTabs ==>
      && Tabs[Step(s, Key("h"), edit).next.tabIndex] == "Headers"
      && Tabs[Step(s, Key("b"), edit).next.tabIndex] == "Body"
      && Tabs[Step(s, Key("r"), edit).next.tabIndex] == "Response"
    ensures s.focusIndex != FocusTabs ==>
      && Step(s, Key("h"), edit).next.tabIndex == s.tabIndex
      && Step(s, Key("b"), edit).next.tabIndex == s.tabIndex
      && Step(s, Key("r"), edit).next.tabIndex == s.tabIndex
  {
  }

  /** On the Headers tab `up` and `down` move the selected cell by one,
      stopping at the first and last cell instead of wrapping; elsewhere
      they do not move it. */
  lemma UpDownClamp(s: State, edit: Editor)
    requires Valid(s)
    ensures var up := Step(s, Key("up"), edit).next.headerFocusIndex;
      up == (if InHeaders(s) && s.headerFocusIndex > 0 then s.headerFocusIndex - 1 else s.headerFocusIndex)
    ensures var down := Step(s, Key("down"), edit).next.headerFocusIndex;
      down == (if InHeaders(s) && s.headerFocusIndex < 2 * |s.headers| - 1 then s.headerFocusIndex + 1
               else s.headerFocusIndex)
    ensures InHeaders(s) && s.headerFocusIndex == 0 ==>
      Step(s, Key("up"), edit).next.headerFocusIndex == 0
    ensures InHeaders(s) && s.headerFocusIndex == 2 * |s.headers| - 1 ==>
      Step(s, Key("down"), edit).next.headerFocusIndex == 2 * |s.headers| - 1
  {
  }

  /** `ctrl+n` on the Headers tab appends exactly one empty row, keeps the
      existing rows, selects the new row's key cell (which the next key
      reaches), and leaves the request that would be sent unchanged. */
  lemma AddHeaderAppendsOneRow(s: State, edit: Editor)
    requires Valid(s) && InHeaders(s)
    ensures var t := Step(s, Key("ctrl+n"), edit);
      && t.cmd == NoCmd
      && |t.next.headers| == |s.headers| + 1
      && t.next.headers[..|s.headers|] == s.headers
      && t.next.headers[|s.headers|] == Header("", "")
      && t.next.headerFocusIndex == 2 * |t.next.headers| - 2
      && Route(t.next) == KeyField(|s.headers|)
      && BuildArgs(RequestOf(t.next)) == BuildArgs(RequestOf(s))
  {
    var t := Step(s, Key("ctrl+n"), edit).next;
    assert t.headers == s.headers + [Header("", "")];
    assert !Emits(Header("", ""));
    EmptyRowSendsNothing(RequestOf(s), Header("", ""));
    assert RequestOf(t) == RequestOf(s).(headers := s.headers + [Header("", "")]);
  }

  /** Away from the Headers tab `ctrl+n` adds no row. */
  lemma AddHeaderNeedsHeadersTab(s: State, edit: Editor)
    requires Valid(s) && !InHeaders(s)
    ensures Step(s, Key("ctrl+n"), edit).next.headers == s.headers
  {
  }

  /** Routing decomposes the selected header cell: on the Headers tab the
      key lands in row `headerFocusIndex / 2`, in its key cell for an even
      index and its value cell for an odd one, and that cell encodes back
      to the same index. */
  lemma RouteSelectsFocusedCell(s: State)
    requires Valid(s) && InHeaders(s)
    ensures Route(s).KeyField? || Route(s).ValueField?
    ensures Route(s).row == s.headerFocusIndex / 2 < |s.headers|
    ensures Route(s).KeyField? <==> s.headerFocusIndex % 2 == 0
    ensures CellIndex(Route(s)) == s.headerFocusIndex
  {
  }

  /** No field receives keys on the method selector or the Response tab. */
  lemma RouteNowhere(s: State)
    requires Valid(s)
    ensures Route(s) == NoField <==>
      s.focusIndex == FocusMethod || (s.focusIndex == FocusTabs && s.tabIndex == ResponseTab)
  {
  }

  /** On the tab panel `h`, `b` and `r` switch tabs before routing: the body
      never receives `h` or `r`, no header cell receives `b` or `r`, `r`
      reaches no field at all, and `h` is typed into the selected header
      cell. */
  lemma BodyNeverReceivesTabKeys(s: State, edit: Editor)
    requires Valid(s) && s.focusIndex == FocusTabs
    ensures Step(s, Key("h"), edit).next.body == s.body
    ensures Step(s, Key("r"), edit).next.body == s.body
    ensures Step(s, Key("r"), edit).next.headers == s.headers
    ensures Step(s, Key("b"), edit).next.headers == s.headers
    ensures var t := Step(s, Key("h"), edit).next;
      var row := s.headerFocusIndex / 2;
      if s.headerFocusIndex % 2 == 0
      then t.headers[row].key == edit(s.headers[row].key, "h")
      else t.headers[row].value == edit(s.headers[row].value, "h")
  {
    var n := Navigate(s, "h");
    RouteSelectsFocusedCell(n);
  }

  /** `ctrl+r` sends only from the Body tab, switches to the Response tab,
      and sends exactly the arguments the model's fields build. */
  lemma SendFromBodyTab(s: State, edit: Editor)
    requires Valid(s)
    ensures var t := Step(s, Key("ctrl+r"), edit);
      && (t.cmd.Send? <==> InBody(s))
      && (t.cmd.Send? ==> Tabs[t.next.tabIndex] == "Response")
      && (t.cmd.Send? ==> BuildArgs(t.cmd.request) == BuildArgs(RequestOf(s)))
      && (!t.cmd.Send? ==> t.next.tabIndex == s.tabIndex)
  {
  }

  /** A result always replaces the response text; a result without an
      error keeps the error already shown. */
  lemma ErrorOutlivesSuccess(s: State, reply: ResponseMsg, edit: Editor)
    requires s.headerFocusIndex >= 0
    requires reply.err == None
    ensures Step(s, Response(reply), edit).next.response == reply.body
    ensures Step(s, Response(reply), edit).next.errorMessage == s.errorMessage
  {
  }

  /** After a failed request and then a successful one, the model still
      holds the first request's error next to the second one's body. */
  lemma StaleErrorAfterRecovery(s: State, bad: ProcessResult, good: ProcessResult, edit: Editor)
    requires s.headerFocusIndex >= 0
    requires bad.runError.Some?
    requires good.runError == None && good.stderr == ""
    ensures var t1 := Step(s, Response(Classify(bad)), edit).next;
      var t2 := Step(t1, Response(Classify(good)), edit).next;
      && t2.response == good.stdout
      && t2.errorMessage == Some(Plain(RequestFailedPrefix + bad.runError.value))
  {
  }

  /** Only `ctrl+c` quits, and it leaves the model as it was. */
  lemma QuitOnlyOnCtrlC(s: State, msg: Msg, edit: Editor)
    requires s.headerFocusIndex >= 0
    ensures Step(s, msg, edit).cmd == Quit <==> msg == Key("ctrl+c")
    ensures msg == Key("ctrl+c") ==> Step(s, msg, edit).next == s
  {
  }
}
