/**
 * The request handler of the HTTP server: it reads one request from the
 * receive buffer, takes the path from the request line, routes it to "/",
 * "/echo/<text>", "/user-agent" or "not found", and builds the response.
 *
 * `Process` is the handler as a function of the request text; the method
 * `HandleRequest` does what the C code does, strtok call by strtok call on
 * the buffers, and is proved to return what `Process` says.  The C code's
 * undefined behaviour (a NULL pointer handed to strdup or strlen, sprintf
 * past the end of its array) is a `Failure` here.
 */
module Server {
  import opened Wrappers
  import opened CStrings
  import opened Tokenizer
  import opened Response

  /** The size of the receive buffer. */
  const ReadBufferSize: nat := 1024

  const Space: Delims := {' '}
  const Slash: Delims := {'/'}
  const LineBreaks: Delims := {'\r', '\n'}
  const UserAgentPrefix := "User-Agent: "

  /** Where the C code has undefined behaviour, and why. */
  datatype Failure =
    | NoRequestPath     // strdup(NULL): the request has no second space-separated word
    | NoEchoContent     // strlen(NULL): "/echo" with nothing after its slash
    | NoUserAgent       // strlen(NULL): "/user-agent" but no User-Agent header line
    | ResponseOverflow  // sprintf writes past the end of the 512-character response array

  /** The request path: the second space-separated word of the request. */
  function RequestPath(req: string): (p: Option<string>)
    ensures p.Some? ==> p.value != [] && forall k :: 0 <= k < |p.value| ==> p.value[k] != ' '
  {
    var ts := Tokens(req, Space);
    if |ts| < 2 then None else TokenIsWord(req, Space, 1); Some(ts[1])
  }

  /** The route the handler compares: the string strtok(path, "/") leaves at the start of the path. */
  function RouteKey(path: string): string
  {
    Head(path, Slash)
  }

  /** The echo text: the next space-separated word after the slash that ends the route. */
  function EchoContent(path: string): Option<string>
  {
    var ts := Tokens(Rest(path, Slash), Space);
    if ts == [] then None else Some(ts[0])
  }

  /** The rest of the first line that starts with `prefix`, if there is one. */
  function FirstWithPrefix(lines: seq<string>, prefix: string): (r: Option<string>)
    ensures r.None? <==> forall k :: 0 <= k < |lines| ==> !(prefix <= lines[k])
    ensures r.Some? ==>
      exists k :: 0 <= k < |lines| && lines[k] == prefix + r.value &&
        forall m :: 0 <= m < k ==> !(prefix <= lines[m])
  {
    if lines == [] then None
    else if prefix <= lines[0] then
      assert lines[0] == prefix + lines[0][|prefix|..];
      Some(lines[0][|prefix|..])
    else
      var r := FirstWithPrefix(lines[1..], prefix);
      if r.Some? then
        var k :| 0 <= k < |lines[1..]| && lines[1..][k] == prefix + r.value &&
          forall m :: 0 <= m < k ==> !(prefix <= lines[1..][m]);
        assert lines[k + 1] == prefix + r.value;
        r
      else
        r
  }

  /** The User-Agent header's value: the first CR/LF-separated line starting with "User-Agent: ". */
  function FindUserAgent(req: string): Option<string>
  {
    FirstWithPrefix(Tokens(req, LineBreaks), UserAgentPrefix)
  }

  /** A text/plain response as sprintf formats it into the response array. */
  function Text(body: string): Result<string, Failure>
  {
    match Sprintf(TextResponse(body))
    case None => Err(ResponseOverflow)
    case Some(resp) => Ok(resp)
  }

  /** The four branches of the handler, with the text each one echoes (None stands for NULL). */
  datatype Route = Root | Echo(content: Option<string>) | UserAgent(agent: Option<string>) | NotFound

  /** The route comparisons, in the handler's order: "/", "/echo", "/user-agent", anything else. */
  function RouteOf(key: string, content: Option<string>, agent: Option<string>): Route
  {
    if key == "/" then Root
    else if key == "/echo" then Echo(content)
    else if key == "/user-agent" then UserAgent(agent)
    else NotFound
  }

  /** The response each branch sends. */
  function Serialize(route: Route): Result<string, Failure>
  {
    match route
    case Root => Ok(RootResponse)
    case Echo(None) => Err(NoEchoContent)
    case Echo(Some(content)) => Text(content)
    case UserAgent(None) => Err(NoUserAgent)
    case UserAgent(Some(agent)) => Text(agent)
    case NotFound => Ok(NotFoundResponse)
  }

  /** The whole handler, from the request text to the response sent. */
  function Process(req: string): Result<string, Failure>
  {
    match RequestPath(req)
    case None => Err(NoRequestPath)
    case Some(path) => Serialize(RouteOf(RouteKey(path), EchoContent(path), FindUserAgent(req)))
  }

  /**
   * In a request "METHOD PATH ..." the path is the second word, whatever
   * runs of spaces come before the method and between the words.
   */
  lemma RequestPathOf(lead: string, m: string, gap: string, path: string, tail: string)
    requires forall k :: 0 <= k < |lead| ==> lead[k] == ' '
    requires m != [] && forall k :: 0 <= k < |m| ==> m[k] != ' '
    requires gap != [] && forall k :: 0 <= k < |gap| ==> gap[k] == ' '
    requires path != [] && forall k :: 0 <= k < |path| ==> path[k] != ' '
    requires tail == [] || tail[0] == ' '
    ensures RequestPath(lead + m + gap + path + tail) == Some(path)
  {
    var req := lead + m + gap + path + tail;
    var more := PathTokens(path, tail);
    calc {
      Tokens(req, Space);
    == { TokensSkip(req, |lead|, Space); }
      Tokens(req[|lead|..], Space);
    == { assert req[|lead|..] == m + gap + (path + tail); }
      Tokens(m + gap + (path + tail), Space);
    == { TokensSplitRun(m, gap, path + tail, Space); }
      Tokens(m, Space) + Tokens(path + tail, Space);
    == { TokensOfWord(m, Space); }
      [m] + ([path] + more);
    }
  }

  /** The path word, and whatever tokens follow it, of a path followed by nothing or by a space. */
  lemma PathTokens(path: string, tail: string) returns (more: seq<string>)
    requires path != [] && forall k :: 0 <= k < |path| ==> path[k] != ' '
    requires tail == [] || tail[0] == ' '
    ensures Tokens(path + tail, Space) == [path] + more
  {
    TokensOfWord(path, Space);
    if tail == [] {
      assert path + tail == path;
      more := [];
    } else {
      assert path + tail == path + [' '] + tail[1..];
      TokensSplit(path, ' ', tail[1..], Space);
      more := Tokens(tail[1..], Space);
    }
  }

  /** The route is "/" exactly for the path "/". */
  lemma RouteKeyRoot(path: string)
    ensures RouteKey(path) == "/" <==> path == "/"
  {
    if path == "/" {
      assert SpanIn(path, Slash) == 1;
    }
  }

  /**
   * For a route "/w", w non-empty and free of slashes, the route is "/w"
   * exactly when the path is "/w" or starts with "/w/".
   */
  lemma RouteKeyWord(path: string, key: string)
    requires |key| >= 2 && key[0] == '/' && '/' !in key[1..]
    ensures RouteKey(path) == key <==> path == key || key + "/" <= path
  {
    var w := key[1..];
    if path == key || key + "/" <= path {
      assert path[0] == '/' && path[1] == w[0];
      SpanInIs(path, Slash, 1);
      forall k | 0 <= k < |w|
        ensures path[1..][k] !in Slash
      {
        assert path[1..][k] == w[k];
      }
      assert |w| < |path[1..]| ==> path[1..][|w|] == '/';
      SpanNotInIs(path[1..], Slash, |w|);
      assert path[..|key|] == key;
    }
    if RouteKey(path) == key {
      var i := SpanIn(path, Slash);
      assert path != [];
      var j := i + SpanNotIn(path[i..], Slash);
      assert path[..j] == key;
      assert i == 1 by {
        if i == 0 {
          assert path[0] == '/';
        } else if i > 1 {
          assert path[1] == w[0];
        }
      }
      assert j == |key|;
      if j < |path| {
        assert path[..j + 1] == key + "/";
      } else {
        assert path == path[..j];
      }
    }
  }

  /**
   * Under a route "/w", the echo text is everything after "/w/", slashes
   * included, and there is none when nothing follows that slash.
   */
  lemma EchoContentOf(path: string, key: string)
    requires |key| >= 2 && key[0] == '/' && '/' !in key[1..]
    requires forall k :: 0 <= k < |path| ==> path[k] != ' '
    requires RouteKey(path) == key
    ensures EchoContent(path) == if |path| <= |key| + 1 then None else Some(path[|key| + 1..])
  {
    RouteKeyWord(path, key);
    var w := key[1..];
    assert path[0] == '/' && path[1] == w[0];
    SpanInIs(path, Slash, 1);
    forall k | 0 <= k < |w|
      ensures path[1..][k] !in Slash
    {
      assert path[1..][k] == w[k];
    }
    assert |w| < |path[1..]| ==> path[1..][|w|] == '/';
    SpanNotInIs(path[1..], Slash, |w|);
    var rest := Rest(path, Slash);
    if |path| <= |key| + 1 {
      assert rest == [];
    } else {
      assert rest == path[|key| + 1..];
      forall k | 0 <= k < |rest|
        ensures rest[k] !in Space
      {
        assert rest[k] == path[|key| + 1 + k];
      }
      TokensOfWord(rest, Space);
    }
  }

  /** strtok cuts the path at the slash after the first word: "/echo/abc" routes as "/echo". */
  lemma EchoRouteExample()
    ensures RouteKey("/echo/abc") == "/echo"
  {
    RouteKeyWord("/echo/abc", "/echo");
    assert "/echo" + "/" <= "/echo/abc";
  }

  /** "/user-agent/x" routes as "/user-agent". */
  lemma UserAgentRouteExample()
    ensures RouteKey("/user-agent/x") == "/user-agent"
  {
    RouteKeyWord("/user-agent/x", "/user-agent");
    assert "/user-agent" + "/" <= "/user-agent/x";
  }

  /** "/echox" and "//echo/x" route as neither "/echo" nor "/user-agent". */
  lemma UnroutedExamples()
    ensures RouteKey("/echox") != "/echo" && RouteKey("/echox") != "/user-agent"
    ensures RouteKey("//echo/x") != "/echo" && RouteKey("//echo/x") != "/user-agent"
  {
    RouteKeyWord("/echox", "/echo");
    assert "/echox"[5] != '/';
    RouteKeyWord("/echox", "/user-agent");
    assert "/echox"[1] != 'u';
    RouteKeyWord("//echo/x", "/echo");
    RouteKeyWord("//echo/x", "/user-agent");
    assert "//echo/x"[1] == '/';
  }

  /** The path "/" is answered with a bare 200. */
  lemma ProcessRoot(req: string)
    requires RequestPath(req) == Some("/")
    ensures Process(req) == Ok(RootResponse)
  {
    RouteKeyRoot("/");
  }

  /**
   * "/echo/<text>" is answered with <text> as a text/plain body, slashes in
   * <text> included; a bare "/echo" or "/echo/" has no text to measure.
   */
  lemma ProcessEcho(req: string, path: string)
    requires RequestPath(req) == Some(path)
    requires path == "/echo" || "/echo/" <= path
    ensures Process(req) == if |path| <= 6 then Err(NoEchoContent) else Text(path[6..])
  {
    var content := if |path| <= 6 then None else Some(path[6..]);
    calc {
      Process(req);
      Serialize(RouteOf(RouteKey(path), EchoContent(path), FindUserAgent(req)));
    == { RouteKeyWord(path, "/echo"); }
      Serialize(RouteOf("/echo", EchoContent(path), FindUserAgent(req)));
      Serialize(Echo(EchoContent(path)));
    == { RouteKeyWord(path, "/echo"); EchoContentOf(path, "/echo"); }
      Serialize(Echo(content));
    }
  }

  /** "/user-agent" is answered with the User-Agent header's value, which must be present. */
  lemma ProcessUserAgent(req: string, path: string)
    requires RequestPath(req) == Some(path)
    requires path == "/user-agent" || "/user-agent/" <= path
    ensures Process(req) == match FindUserAgent(req)
      case None => Err(NoUserAgent)
      case Some(agent) => Text(agent)
  {
    RouteKeyWord(path, "/user-agent");
  }

  /** Every other path is answered with 404. */
  lemma ProcessNotFound(req: string, path: string)
    requires RequestPath(req) == Some(path)
    requires path != "/" && path != "/echo" && !("/echo/" <= path)
    requires path != "/user-agent" && !("/user-agent/" <= path)
    ensures Process(req) == Ok(NotFoundResponse)
  {
    RouteKeyRoot(path);
    RouteKeyWord(path, "/echo");
    RouteKeyWord(path, "/user-agent");
  }

  // The buffers, call by call.

  /** The two strtok calls on the receive buffer: the method word, then the path. */
  function ReadRequestLine(buf: seq<char>): Call
  {
    var r := Strtok(buf, 0, Space);
    Strtok(r.buf, r.save, Space)
  }

  /** The second call of ReadRequestLine returns the request path, and NULL when there is none. */
  lemma RequestLinePath(buf: seq<char>)
    ensures var r := ReadRequestLine(buf);
      var path := RequestPath(CStr(buf, 0));
      && (r.token.None? <==> path.None?)
      && (r.token.Some? ==> CStr(r.buf, r.token.value) == path.value)
  {
    var r1 := Strtok(buf, 0, Space);
    StrtokTokens(buf, 0, Space);
    StrtokTokens(r1.buf, r1.save, Space);
  }

  /** The two strtok calls on the copy of the path: up to the next slash, then the next word. */
  function SplitPath(buf: seq<char>): Call
  {
    var r := Strtok(buf, 0, Slash);
    Strtok(r.buf, r.save, Space)
  }

  /**
   * After SplitPath on a copy of the path, the copy reads as the route and
   * the second call returns the echo text, or NULL when there is none.
   */
  lemma SplitPathParts(path: string)
    requires NUL !in path
    ensures var r := SplitPath(path + [NUL]);
      && CStr(r.buf, 0) == RouteKey(path)
      && (r.token.None? <==> EchoContent(path).None?)
      && (r.token.Some? ==> CStr(r.buf, r.token.value) == EchoContent(path).value)
  {
    var buf := path + [NUL];
    CStrTerminated(path);
    var r1 := Strtok(buf, 0, Slash);
    StrtokNext(buf, 0, Slash);
    var r := Strtok(r1.buf, r1.save, Space);
    StrtokNext(r1.buf, r1.save, Space);
    StrtokTokens(r1.buf, r1.save, Space);
    if r1.save == |RouteKey(path)| + 1 {
      CStrFrame(r1.buf, r.buf, 0, r1.save);
    } else {
      assert CStr(r1.buf, r1.save) == [];
    }
  }

  /**
   * The header scan from the line at `line`, with strtok's saved position
   * at `save`: the new buffer, and where the User-Agent value starts.
   */
  function LineScan(buf: seq<char>, line: Option<nat>, save: nat): (r: (seq<char>, Option<nat>))
    requires save <= |buf| && (line.Some? ==> line.value <= |buf|)
    ensures |r.0| == |buf| && (r.1.Some? ==> r.1.value <= |buf|)
    decreases |buf| - save, if line.Some? then 1 else 0
  {
    if line.None? then (buf, None)
    else if UserAgentPrefix <= CStr(buf, line.value) then (buf, Some(line.value + |UserAgentPrefix|))
    else
      var r := Strtok(buf, save, LineBreaks);
      LineScan(r.buf, r.token, r.save)
  }

  /** The header scan over the copy of the request, from its first line. */
  function ScanUserAgent(buf: seq<char>): (seq<char>, Option<nat>)
  {
    var r := Strtok(buf, 0, LineBreaks);
    LineScan(r.buf, r.token, r.save)
  }

  /**
   * When `line` reads as the first of `lines` and the saved position holds
   * the others, the scan finds the User-Agent value of `lines`.
   */
  lemma {:induction false} LineScanFinds(buf: seq<char>, line: Option<nat>, save: nat, lines: seq<string>)
    requires save <= |buf| && (line.Some? ==> line.value <= |buf|)
    requires line.None? <==> lines == []
    requires line.Some? ==> CStr(buf, line.value) == lines[0]
    requires Tokens(CStr(buf, save), LineBreaks) == if lines == [] then [] else lines[1..]
    ensures var r := LineScan(buf, line, save);
      var agent := FirstWithPrefix(lines, UserAgentPrefix);
      && (r.1.None? <==> agent.None?)
      && (r.1.Some? ==> CStr(r.0, r.1.value) == agent.value)
    decreases |buf| - save, if line.Some? then 1 else 0
  {
    if line.Some? {
      if UserAgentPrefix <= CStr(buf, line.value) {
        CStrSuffix(buf, line.value, line.value + |UserAgentPrefix|);
      } else {
        var r := Strtok(buf, save, LineBreaks);
        StrtokTokens(buf, save, LineBreaks);
        LineScanFinds(r.buf, r.token, r.save, lines[1..]);
      }
    }
  }

  /** The header scan over a copy of the request finds its User-Agent value. */
  lemma ScanUserAgentFinds(req: string)
    requires NUL !in req
    ensures var r := ScanUserAgent(req + [NUL]);
      var agent := FindUserAgent(req);
      && (r.1.None? <==> agent.None?)
      && (r.1.Some? ==> CStr(r.0, r.1.value) == agent.value)
  {
    var buf := req + [NUL];
    CStrTerminated(req);
    var r := Strtok(buf, 0, LineBreaks);
    StrtokTokens(buf, 0, LineBreaks);
    LineScanFinds(r.buf, r.token, r.save, Tokens(req, LineBreaks));
  }

  /** `reqPath = strtok(readbuffer, " "); reqPath = strtok(NULL, " ");` */
  method SplitRequestLine(readbuffer: array<char>) returns (reqPath: Option<nat>, save: nat)
    modifies readbuffer
    ensures Call(readbuffer[..], reqPath, save) == ReadRequestLine(old(readbuffer[..]))
  {
    var _, next := Tokenize(readbuffer, 0, Space);
    reqPath, save := Tokenize(readbuffer, next, Space);
  }

  /** `mainPath = strtok(reqPathCopy, "/"); content = strtok(NULL, " ");` */
  method SplitRoute(reqPathCopy: array<char>) returns (content: Option<nat>, save: nat)
    modifies reqPathCopy
    ensures Call(reqPathCopy[..], content, save) == SplitPath(old(reqPathCopy[..]))
  {
    var _, next := Tokenize(reqPathCopy, 0, Slash);
    content, save := Tokenize(reqPathCopy, next, Space);
  }

  /** The loop over the header lines of `tempBuffer`, stopping at the first "User-Agent: " line. */
  method FindUserAgentLine(tempBuffer: array<char>) returns (userAgent: Option<nat>)
    modifies tempBuffer
    ensures (tempBuffer[..], userAgent) == ScanUserAgent(old(tempBuffer[..]))
  {
    userAgent := None;
    var headerContent: Option<nat>, save: nat := Tokenize(tempBuffer, 0, LineBreaks);
    while headerContent.Some?
      invariant save <= tempBuffer.Length
      invariant headerContent.Some? ==> headerContent.value <= tempBuffer.Length
      invariant userAgent == None
      invariant LineScan(tempBuffer[..], headerContent, save) == ScanUserAgent(old(tempBuffer[..]))
      decreases tempBuffer.Length - save, if headerContent.Some? then 1 else 0
    {
      var isUserAgent := StrStartsWith(tempBuffer, headerContent.value, UserAgentPrefix);
      if isUserAgent {
        var start: nat := headerContent.value + |UserAgentPrefix|;
        userAgent := Some(start);
        break;
      }
      headerContent, save := Tokenize(tempBuffer, save, LineBreaks);
    }
  }

  /** `contentLength = strlen(text); sprintf(response, "...%d\r\n\r\n%s", contentLength, text);` */
  method TextReply(buf: array<char>, text: nat) returns (outcome: Result<string, Failure>)
    requires text <= buf.Length
    ensures outcome == Text(CStr(buf[..], text))
  {
    var contentLength := StrLen(buf, text);
    var response := TextHead + Decimal(contentLength) + HeaderEnd + CStr(buf[..], text);
    if |response| + 1 > ResponseBufferSize {
      return Err(ResponseOverflow);
    }
    return Ok(response);
  }

  /**
   * One request, from the receive buffer to the response: the outcome is
   * what Process says of the request text, and the receive buffer is left
   * as the two strtok calls on the request line leave it.
   */
  method HandleRequest(readbuffer: array<char>) returns (outcome: Result<string, Failure>)
    requires readbuffer.Length == ReadBufferSize
    modifies readbuffer
    ensures readbuffer[..] == ReadRequestLine(old(readbuffer[..])).buf
    ensures outcome == Process(old(CStr(readbuffer[..], 0)))
  {
    ghost var req := CStr(readbuffer[..], 0);
    RequestLinePath(readbuffer[..]);
    var tempBuffer := CopyString(readbuffer, 0);
    var reqPath, _ := SplitRequestLine(readbuffer);
    if reqPath.None? {
      return Err(NoRequestPath);
    }
    var reqPathCopy := CopyString(readbuffer, reqPath.value);
    ghost var path := CStr(readbuffer[..], reqPath.value);
    SplitPathParts(path);
    var content, _ := SplitRoute(reqPathCopy);
    ScanUserAgentFinds(req);
    var userAgent := FindUserAgentLine(tempBuffer);
    outcome := Dispatch(reqPathCopy, content, tempBuffer, userAgent);
  }

  /** The comparisons of the route with "/", "/echo" and "/user-agent", in that order. */
  method Dispatch(reqPathCopy: array<char>, content: Option<nat>, tempBuffer: array<char>, userAgent: Option<nat>)
    returns (outcome: Result<string, Failure>)
    requires content.Some? ==> content.value <= reqPathCopy.Length
    requires userAgent.Some? ==> userAgent.value <= tempBuffer.Length
    ensures outcome == Serialize(RouteOf(
      CStr(reqPathCopy[..], 0),
      if content.None? then None else Some(CStr(reqPathCopy[..], content.value)),
      if userAgent.None? then None else Some(CStr(tempBuffer[..], userAgent.value))))
  {
    var isRoot := StrEquals(reqPathCopy, 0, "/");
    if isRoot {
      return Ok(RootResponse);
    }
    var isEcho := StrEquals(reqPathCopy, 0, "/echo");
    if isEcho {
      if content.None? {
        return Err(NoEchoContent);
      }
      outcome := TextReply(reqPathCopy, content.value);
      return;
    }
    var isUserAgent := StrEquals(reqPathCopy, 0, "/user-agent");
    if isUserAgent {
      if userAgent.None? {
        return Err(NoUserAgent);
      }
      outcome := TextReply(tempBuffer, userAgent.value);
      return;
    }
    return Ok(NotFoundResponse);
  }
}
