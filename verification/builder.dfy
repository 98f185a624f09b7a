/** The argument list `sendRequest` hands to curl (main.go:361-388): the
    method and trimmed URL, one `-H` pair per header with a non-blank key, and
    the trimmed body for the methods that carry one. */
module Builder {
  import opened Wrappers
  import opened Text

  /** The method selector's table, indexed by the UI's `methodIndex`. */
  const Methods: seq<string> := ["GET", "POST", "PUT", "DELETE"]

  /** The validation error returned instead of running curl. */
  const EmptyUrlError: string := "URL cannot be empty"

  /** One row of the Headers tab: the texts of its key and value fields. */
  datatype Header = Header(key: string, value: string)

  /** What `sendRequest` reads from the UI state when the request is sent. */
  datatype Request = Request(methodIndex: int, url: string, headers: seq<Header>, body: string)

  /** The name of the selected method; only GET leaves the body off. */
  function MethodName(i: int): (m: string)
    requires 0 <= i < |Methods|
    ensures m in Methods
    ensures m != "PATCH"
    ensures CarriesBody(m) <==> i != 0
  {
    Methods[i]
  }

  /** The methods for which the body is attached. PATCH is listed by the
      source although the method table never yields it. */
  predicate CarriesBody(name: string) {
    name == "POST" || name == "PUT" || name == "PATCH" || name == "DELETE"
  }

  /** A header row is sent exactly when its trimmed key is not empty. */
  predicate Emits(h: Header) {
    TrimSpace(h.key) != ""
  }

  /** The `-H` argument of a header: `key: value`, both trimmed. */
  function HeaderLine(h: Header): string {
    TrimSpace(h.key) + ": " + TrimSpace(h.value)
  }

  /** The header rows that are sent, in list order. */
  function Kept(hs: seq<Header>): (ks: seq<Header>)
    ensures |ks| <= |hs|
    ensures forall k :: 0 <= k < |ks| ==> Emits(ks[k])
  {
    if hs == [] then []
    else (if Emits(hs[0]) then [hs[0]] else []) + Kept(hs[1..])
  }

  /** The header section of the argument list. */
  function HeaderArgs(hs: seq<Header>): (args: seq<string>)
    ensures |args| == 2 * |Kept(hs)|
  {
    if hs == [] then []
    else (if Emits(hs[0]) then ["-H", HeaderLine(hs[0])] else []) + HeaderArgs(hs[1..])
  }

  /** The trailing `--data` pair, present only for a body-carrying method
      with a non-blank body. */
  function PayloadArgs(methodIndex: int, body: string): (args: seq<string>)
    requires 0 <= methodIndex < |Methods|
    ensures args == [] || args == ["--data", TrimSpace(body)]
    ensures args != [] <==> methodIndex != 0 && !AllSpace(body)
  {
    if CarriesBody(MethodName(methodIndex)) && TrimSpace(body) != "" then ["--data", TrimSpace(body)]
    else []
  }

  /** `sendRequest` up to the point where curl is run: either the
      validation error or curl's complete argument list. */
  function BuildArgs(req: Request): (r: Result<seq<string>, string>)
    requires 0 <= req.methodIndex < |Methods|
    ensures r.Failure? <==> AllSpace(req.url)
    ensures r.Failure? ==> r.error == EmptyUrlError
    ensures r.Success? ==>
      && |r.value| >= 4
      && |r.value| % 2 == 0
      && r.value[..4] == ["--silent", "-X", Methods[req.methodIndex], TrimSpace(req.url)]
      && r.value[3] != ""
  {
    var url := TrimSpace(req.url);
    if url == "" then Failure(EmptyUrlError)
    else
      var prefix := ["--silent", "-X", MethodName(req.methodIndex), url];
      var args := prefix + HeaderArgs(req.headers) + PayloadArgs(req.methodIndex, req.body);
      assert args[..4] == prefix;
      Success(args)
  }

  /** Header arguments of a concatenation are the concatenation of the
      header arguments: each row contributes on its own, in order. */
  lemma {:induction false} HeaderArgsAppend(a: seq<Header>, b: seq<Header>)
    ensures HeaderArgs(a + b) == HeaderArgs(a) + HeaderArgs(b)
  {
    if a == [] {
      assert a + b == b;
    } else {
      assert (a + b)[1..] == a[1..] + b;
      HeaderArgsAppend(a[1..], b);
    }
  }

  /** A single row contributes `-H`, `key: value` when its key is not blank,
      whatever its value, and nothing otherwise. */
  lemma HeaderArgsOfOne(h: Header)
    ensures Emits(h) ==> HeaderArgs([h]) == ["-H", TrimSpace(h.key) + ": " + TrimSpace(h.value)]
    ensures !Emits(h) <==> HeaderArgs([h]) == []
  {
    assert [h][1..] == [];
  }

  /** The filter of sent rows distributes over concatenation. */
  lemma {:induction false} KeptAppend(a: seq<Header>, b: seq<Header>)
    ensures Kept(a + b) == Kept(a) + Kept(b)
  {
    if a == [] {
      assert a + b == b;
    } else {
      assert (a + b)[1..] == a[1..] + b;
      KeptAppend(a[1..], b);
    }
  }

  /** The sent rows are exactly the rows of the list whose trimmed key is
      not blank. */
  lemma {:induction false} KeptIsFilter(hs: seq<Header>)
    ensures forall h :: h in Kept(hs) <==> h in hs && Emits(h)
  {
    if hs != [] {
      KeptIsFilter(hs[1..]);
      assert hs == [hs[0]] + hs[1..];
    }
  }

  /** `args` is, pair by pair, `-H` followed by the line of each of `ks`. */
  predicate PairsOf(args: seq<string>, ks: seq<Header>) {
    && |args| == 2 * |ks|
    && forall i :: 0 <= i < |ks| ==> args[2 * i] == "-H" && args[2 * i + 1] == HeaderLine(ks[i])
  }

  /** Prepending one row's pair keeps the pairing. */
  lemma PairsOfCons(h: Header, ks: seq<Header>, rest: seq<string>)
    requires PairsOf(rest, ks)
    ensures PairsOf(["-H", HeaderLine(h)] + rest, [h] + ks)
  {
    var args, all := ["-H", HeaderLine(h)] + rest, [h] + ks;
    forall i | 1 <= i < |all|
      ensures args[2 * i] == "-H" && args[2 * i + 1] == HeaderLine(all[i])
    {
      var j := i - 1;
      assert all[i] == ks[j];
      assert args[2 * i] == rest[2 * j];
      assert args[2 * i + 1] == rest[2 * j + 1];
    }
  }

  /** The header section is, pair by pair, `-H` followed by the line of the
      i-th sent row: exactly two arguments per sent row, in list order. */
  lemma {:induction false} HeaderArgsShape(hs: seq<Header>)
    ensures PairsOf(HeaderArgs(hs), Kept(hs))
  {
    if hs != [] {
      HeaderArgsShape(hs[1..]);
      if Emits(hs[0]) {
        assert Kept(hs) == [hs[0]] + Kept(hs[1..]);
        assert HeaderArgs(hs) == ["-H", HeaderLine(hs[0])] + HeaderArgs(hs[1..]);
        PairsOfCons(hs[0], Kept(hs[1..]), HeaderArgs(hs[1..]));
      } else {
        assert Kept(hs) == Kept(hs[1..]);
        assert HeaderArgs(hs) == HeaderArgs(hs[1..]);
      }
    }
  }

  /** After the fixed four-argument prefix come the header pairs, in list
      order, one pair per row whose trimmed key is not empty. */
  lemma BuildArgsHeaders(req: Request)
    requires 0 <= req.methodIndex < |Methods|
    requires BuildArgs(req).Success?
    ensures var args := BuildArgs(req).value;
      forall i :: 0 <= i < |Kept(req.headers)| ==>
        args[4 + 2 * i] == "-H" && args[5 + 2 * i] == HeaderLine(Kept(req.headers)[i])
  {
    HeaderArgsShape(req.headers);
  }

  /** `--data` appears at a flag position exactly once, as the second-last
      argument followed by the trimmed body, when the method carries a body
      and the body is not blank; otherwise never. */
  lemma BuildArgsPayload(req: Request)
    requires 0 <= req.methodIndex < |Methods|
    requires BuildArgs(req).Success?
    ensures var args := BuildArgs(req).value;
      var sent := req.methodIndex != 0 && !AllSpace(req.body);
      && (sent ==> args[|args| - 2..] == ["--data", TrimSpace(req.body)])
      && (sent ==> |args| == 6 + 2 * |Kept(req.headers)|)
      && (!sent ==> |args| == 4 + 2 * |Kept(req.headers)|)
      && forall p :: 4 <= p < |args| && p % 2 == 0 ==>
           (args[p] == "--data" <==> sent && p == |args| - 2)
  {
    HeaderArgsShape(req.headers);
    var hargs := HeaderArgs(req.headers);
    var args := BuildArgs(req).value;
    forall p | 4 <= p < 4 + |hargs| && p % 2 == 0 ensures args[p] == "-H" {
      var i := (p - 4) / 2;
      assert p == 4 + 2 * i;
      assert args[p] == hargs[2 * i];
    }
  }

  /** GET never sends a body, whatever the body field holds. */
  lemma GetSendsNoBody(req: Request)
    requires req.methodIndex == 0
    requires BuildArgs(req).Success?
    ensures BuildArgs(req).value == ["--silent", "-X", "GET", TrimSpace(req.url)] + HeaderArgs(req.headers)
  {
  }

  /** A fresh, empty header row leaves the request unchanged. */
  lemma EmptyRowSendsNothing(req: Request, h: Header)
    requires 0 <= req.methodIndex < |Methods|
    requires !Emits(h)
    ensures BuildArgs(req.(headers := req.headers + [h])) == BuildArgs(req)
  {
    HeaderArgsAppend(req.headers, [h]);
    HeaderArgsOfOne(h);
    assert HeaderArgs(req.headers + [h]) == HeaderArgs(req.headers);
  }
}
