/** The application model and its `Update` (main.go:89-221): focus and tab
    navigation, the header rows, routing of the remaining keys to one text
    field, sending a request and absorbing its result. */
module Ui {
  import opened Wrappers
  import opened Builder
  import opened Outcome

  /** The three focus regions, in `tab` order. */
  const FocusMethod: int := 0
  const FocusUrl: int := 1
  const FocusTabs: int := 2
  const FocusRegions: int := 3

  /** The tab bar's labels, indexed by `tabIndex`. */
  const Tabs: seq<string> := ["Headers", "Body", "Response"]
  const HeadersTab: int := 0
  const BodyTab: int := 1
  const ResponseTab: int := 2

  /** The UI model. Each text field is represented by its text; `response`
      and `errorMessage` hold the last request's result. */
  datatype State = State(
    methodIndex: int,
    focusIndex: int,
    tabIndex: int,
    url: string,
    headers: seq<Header>,
    headerFocusIndex: int,
    body: string,
    response: string,
    errorMessage: Option<Err>)

  /** The messages `Update` handles: a key press, named as bubbletea names
      it (`"tab"`, `"ctrl+n"`, `"x"`, ...), or the result of a request. */
  datatype Msg = Key(name: string) | Response(reply: ResponseMsg)

  /** The command `Update` hands back: none that matters here, quitting, or
      sending the given request. */
  datatype Cmd = NoCmd | Quit | Send(request: Request)

  datatype Transition = Transition(next: State, cmd: Cmd)

  /** The text field a key is delivered to, if any. */
  datatype Field = UrlField | KeyField(row: nat) | ValueField(row: nat) | BodyField | NoField

  /** What a text field does with a key: from its text and the key, its new
      text. The input widget's editing rules are not modelled. */
  type Editor = (string, string) -> string

  /** Go's `/`, which truncates toward zero. */
  function GoQuo(a: int, n: int): int
    requires n > 0
  {
    if a >= 0 then a / n else -((-a) / n)
  }

  /** Go's `%`: the remainder of the truncating division, which takes the
      sign of a non-zero dividend. */
  function GoRem(a: int, n: int): (r: int)
    requires n > 0
    ensures -n < r < n
    ensures a == GoQuo(a, n) * n + r
    ensures a >= 0 ==> 0 <= r
    ensures a <= 0 ==> r <= 0
  {
    if a >= 0 then a % n else -((-a) % n)
  }

  /** Focus is on the Headers tab. */
  predicate InHeaders(s: State) {
    s.focusIndex == FocusTabs && s.tabIndex == HeadersTab
  }

  /** Focus is on the Body tab. */
  predicate InBody(s: State) {
    s.focusIndex == FocusTabs && s.tabIndex == BodyTab
  }

  /** The bounds every reachable state keeps: all indices in range, at
      least one header row, and the focused header cell inside the table. */
  predicate Valid(s: State) {
    && 0 <= s.methodIndex < |Methods|
    && 0 <= s.focusIndex < FocusRegions
    && 0 <= s.tabIndex < |Tabs|
    && |s.headers| >= 1
    && 0 <= s.headerFocusIndex <= 2 * |s.headers| - 1
  }

  /** `NewModel`: GET, URL focused, Headers tab showing one empty row with
      its key cell selected, no response, and an error whose text is empty. */
  function NewModel(): (s: State)
    ensures Valid(s)
    ensures s.focusIndex == FocusUrl && Route(s) == UrlField
    ensures Methods[s.methodIndex] == "GET"
    ensures Tabs[s.tabIndex] == "Headers"
    ensures s.headers == [Header("", "")]
    ensures s.url == "" && s.body == "" && s.response == ""
    ensures s.errorMessage == Some(Plain(""))
  {
    State(0, FocusUrl, HeadersTab, "", [Header("", "")], 0, "", "", Some(Plain("")))
  }

  /** The request `sendRequest` reads from the model. */
  function RequestOf(s: State): Request {
    Request(s.methodIndex, s.url, s.headers, s.body)
  }

  /** `ctrl+n` on the Headers tab: one empty row at the end, its key cell
      selected. */
  function AddHeader(s: State): (t: State)
    ensures |t.headers| == |s.headers| + 1
    ensures t.headers[..|s.headers|] == s.headers
    ensures t.headers[|s.headers|] == Header("", "")
    ensures t.headerFocusIndex == 2 * |t.headers| - 2
    ensures t.(headers := s.headers, headerFocusIndex := s.headerFocusIndex) == s
  {
    var headers := s.headers + [Header("", "")];
    s.(headers := headers, headerFocusIndex := |headers| * 2 - 2)
  }

  /** The navigation `switch` of `Update` for the keys that do not return
      early; every other key leaves the model as it is. */
  function Navigate(s: State, key: string): (t: State)
    ensures t.headers == s.headers
    ensures t.url == s.url && t.body == s.body
    ensures t.response == s.response && t.errorMessage == s.errorMessage
    ensures s.headerFocusIndex >= 0 ==> t.headerFocusIndex >= 0
  {
    if key == "left" then
      if s.focusIndex == FocusMethod then
        s.(methodIndex := GoRem(s.methodIndex - 1 + |Methods|, |Methods|))
      else s
    else if key == "right" then
      if s.focusIndex == FocusMethod then
        s.(methodIndex := GoRem(s.methodIndex + 1, |Methods|))
      else s
    else if key == "tab" then
      s.(focusIndex := GoRem(s.focusIndex + 1, FocusRegions))
    else if key == "shift+tab" then
      s.(focusIndex := GoRem(s.focusIndex - 1 + FocusRegions, FocusRegions))
    else if key == "h" then
      if s.focusIndex == FocusTabs then s.(tabIndex := HeadersTab) else s
    else if key == "b" then
      if s.focusIndex == FocusTabs then s.(tabIndex := BodyTab) else s
    else if key == "r" then
      if s.focusIndex == FocusTabs then s.(tabIndex := ResponseTab) else s
    else if key == "up" then
      if InHeaders(s) && s.headerFocusIndex > 0 then
        s.(headerFocusIndex := s.headerFocusIndex - 1)
      else s
    else if key == "down" then
      if InHeaders(s) && s.headerFocusIndex < |s.headers| * 2 - 1 then
        s.(headerFocusIndex := s.headerFocusIndex + 1)
      else s
    else s
  }

  /** Whether a field names a row the model has. */
  predicate Fits(s: State, f: Field) {
    match f
    case KeyField(i) => i < |s.headers|
    case ValueField(i) => i < |s.headers|
    case _ => true
  }

  /** The routing tail of `Update`: the URL field when the URL is focused;
      on the Headers tab the key (even index) or value (odd index) cell of
      row `headerFocusIndex / 2`, when that row exists; the body field on
      the Body tab; otherwise no field. */
  function Route(s: State): (f: Field)
    requires s.headerFocusIndex >= 0
    ensures Fits(s, f)
    ensures f == UrlField <==> s.focusIndex == FocusUrl
    ensures f == BodyField <==> InBody(s)
    ensures (f.KeyField? || f.ValueField?) ==> InHeaders(s)
  {
    if s.focusIndex == FocusUrl then UrlField
    else if InHeaders(s) && s.headerFocusIndex / 2 < |s.headers| then
      if s.headerFocusIndex % 2 == 0 then KeyField(s.headerFocusIndex / 2)
      else ValueField(s.headerFocusIndex / 2)
    else if InBody(s) then BodyField
    else NoField
  }

  /** Delivers a key to one field: that field's text is edited, and nothing
      else in the model changes. */
  function Deliver(s: State, f: Field, key: string, edit: Editor): (t: State)
    requires Fits(s, f)
    ensures t.(url := s.url, headers := s.headers, body := s.body) == s
    ensures |t.headers| == |s.headers|
    ensures t.url == (if f == UrlField then edit(s.url, key) else s.url)
    ensures t.body == (if f == BodyField then edit(s.body, key) else s.body)
    ensures forall i :: 0 <= i < |s.headers| ==>
      t.headers[i].key == (if f == KeyField(i) then edit(s.headers[i].key, key) else s.headers[i].key)
    ensures forall i :: 0 <= i < |s.headers| ==>
      t.headers[i].value == (if f == ValueField(i) then edit(s.headers[i].value, key) else s.headers[i].value)
  {
    match f
    case UrlField => s.(url := edit(s.url, key))
    case KeyField(i) =>
      s.(headers := s.headers[i := s.headers[i].(key := edit(s.headers[i].key, key))])
    case ValueField(i) =>
      s.(headers := s.headers[i := s.headers[i].(value := edit(s.headers[i].value, key))])
    case BodyField => s.(body := edit(s.body, key))
    case NoField => s
  }

  /** The `responseMsg` case: the response text is always replaced; the
      error only when the message carries one, so an earlier error outlives
      a later successful response. */
  function Absorb(s: State, reply: ResponseMsg): (t: State)
    ensures t.response == reply.body
    ensures reply.err.Some? ==> t.errorMessage == reply.err
    ensures reply.err.None? ==> t.errorMessage == s.errorMessage
    ensures t.(response := s.response, errorMessage := s.errorMessage) == s
  {
    s.(response := reply.body,
       errorMessage := if reply.err.Some? then reply.err else s.errorMessage)
  }

  /** `Update`: one message in, the next model and its command out. */
  function Step(s: State, msg: Msg, edit: Editor): (r: Transition)
    requires s.headerFocusIndex >= 0
    ensures r.next.headerFocusIndex >= 0
    ensures |r.next.headers| >= |s.headers|
    ensures r.cmd == Quit <==> msg == Key("ctrl+c")
    ensures r.cmd.Send? <==> msg == Key("ctrl+r") && InBody(s)
    ensures r.cmd.Send? ==> r.cmd.request == RequestOf(s) && r.next.tabIndex == ResponseTab
  {
    match msg
    case Response(reply) => Transition(Absorb(s, reply), NoCmd)
    case Key(key) =>
      if key == "ctrl+c" then Transition(s, Quit)
      else if key == "ctrl+n" && InHeaders(s) then Transition(AddHeader(s), NoCmd)
      else
        var n := Navigate(s, key);
        if key == "ctrl+r" && InBody(n) then
          var sent := n.(tabIndex := ResponseTab);
          Transition(sent, Send(RequestOf(sent)))
        else Transition(Deliver(n, Route(n), key, edit), NoCmd)
  }

  /** Feeds messages to `Update` in order until one of them quits. */
  function Run(s: State, msgs: seq<Msg>, edit: Editor): State
    requires s.headerFocusIndex >= 0
    decreases |msgs|
  {
    if msgs == [] then s
    else
      var t := Step(s, msgs[0], edit);
      if t.cmd == Quit then t.next else Run(t.next, msgs[1..], edit)
  }
}
