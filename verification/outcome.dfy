/** What `sendRequest` turns curl's run into (main.go:390-410): the message
    the UI later receives, carrying the captured output and an error. */
module Outcome {
  import opened Wrappers
  import opened Text
  import opened Builder

  /** Go error values the UI can hold. `Plain` is an error whose text is
      known; `FromStderr` is `fmt.Errorf` applied to curl's standard error
      used as a format string, whose text may differ from the raw bytes
      wherever they contain `%`, so only the raw input is recorded. */
  datatype Err = Plain(text: string) | FromStderr(raw: string)

  /** How the curl process ended: the error `cmd.Run()` returned, if any,
      given by its text, and everything written to the two streams. */
  datatype ProcessResult = ProcessResult(runError: Option<string>, stdout: string, stderr: string)

  /** `responseMsg`: the response body and the error to show. */
  datatype ResponseMsg = ResponseMsg(body: string, err: Option<Err>)

  /** Runs curl with the given arguments; the process itself is not modelled. */
  type Curl = seq<string> -> ProcessResult

  const RequestFailedPrefix: string := "request failed: "

  /** The result message for a finished run: stdout is always the body; a
      failed run wins over stderr output; stderr output alone is an error
      even when curl exited successfully. */
  function Classify(p: ProcessResult): (m: ResponseMsg)
    ensures m.body == p.stdout
    ensures m.err == None <==> p.runError == None && p.stderr == ""
    ensures p.runError.Some? ==> m.err == Some(Plain(RequestFailedPrefix + p.runError.value))
    ensures p.runError == None && p.stderr != "" ==> m.err == Some(FromStderr(p.stderr))
  {
    var err :=
      if p.runError.Some? then Some(Plain(RequestFailedPrefix + p.runError.value))
      else if |p.stderr| > 0 then Some(FromStderr(p.stderr))
      else None;
    ResponseMsg(p.stdout, err)
  }

  /** The command `sendRequest` returns, evaluated: validate and build the
      arguments, run curl on them, and classify what it did. */
  function SendRequest(req: Request, curl: Curl): (m: ResponseMsg)
    requires 0 <= req.methodIndex < |Methods|
    ensures AllSpace(req.url) ==> m == ResponseMsg("", Some(Plain(EmptyUrlError)))
    ensures !AllSpace(req.url) ==> m.body == curl(BuildArgs(req).value).stdout
  {
    match BuildArgs(req)
    case Failure(e) => ResponseMsg("", Some(Plain(e)))
    case Success(args) => Classify(curl(args))
  }

  /** A blank URL is rejected before curl is consulted: no two ways of
      running curl can make the outcome differ. */
  lemma BlankUrlNeverRunsCurl(req: Request, curl1: Curl, curl2: Curl)
    requires 0 <= req.methodIndex < |Methods|
    requires AllSpace(req.url)
    ensures SendRequest(req, curl1) == SendRequest(req, curl2)
    ensures SendRequest(req, curl1).body == ""
  {
  }

  /** A request reports no error exactly when the URL is not blank, curl
      exited successfully and wrote nothing to standard error. */
  lemma SendRequestSucceeds(req: Request, curl: Curl)
    requires 0 <= req.methodIndex < |Methods|
    ensures SendRequest(req, curl).err == None <==>
      && !AllSpace(req.url)
      && curl(BuildArgs(req).value).runError == None
      && curl(BuildArgs(req).value).stderr == ""
  {
  }

  /** A failed run is reported as such whatever curl wrote to standard
      error: the run error takes precedence. */
  lemma RunErrorWinsOverStderr(p: ProcessResult, q: ProcessResult)
    requires p.runError.Some? && p.runError == q.runError
    ensures Classify(p).err == Classify(q).err
    ensures Classify(p).err.value.Plain?
  {
  }
}
