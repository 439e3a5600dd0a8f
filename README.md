# A verified model of the request handler of http-server-c

`app/server.c` is a minimal HTTP/1.1 server. It accepts one connection and
receives one request into `readbuffer`. It then works out the response in
four steps:

- **Request path.** It takes the second space-separated word of the request
  with two `strtok` calls.
- **Route.** It copies the path with `strdup`. It cuts the copy with
  `strtok(reqPathCopy, "/")`, so that the copy reads as the route (`/echo`
  for `/echo/abc`). A further `strtok(NULL, " ")` gives the echo text.
- **User-Agent.** It scans a copy of the request line by line (`strtok` on
  CR/LF) for the first line that starts with `User-Agent: `.
- **Response.** It compares the route with `/`, `/echo` and `/user-agent`, in
  that order, and sends a fixed 200, a `text/plain` 200 formatted by
  `sprintf` into a 512-character array, or a 404.

This project models that core in Dafny. It has five modules:

- `Wrappers` (wrappers.dfy) holds `Option` and `Result`.
- `CStrings` (cstrings.dfy) models NUL-terminated strings in character
  buffers:
  - `CStr`, the string at a position;
  - `strlen`, `strcmp`, `strncmp` and `strdup`/`strcpy`, as methods over arrays;
  - `strspn`/`strcspn`, as `SpanIn`/`SpanNotIn`.
- `Tokenizer` (strtok.dfy) models `strtok`:
  - `Tokens` specifies the token list;
  - `Strtok` is one call, as a function of the buffer and of the saved
    position;
  - `Tokenize` is the same call as an in-place method on an array;
  - lemmas connect the three. The library's hidden static pointer is the
    `save` result of one call and the `from` argument of the next.
- `Response` (response.dfy) models the response texts and `%d` formatting.
  It includes a reader (`Unframe`) that recovers a body from its
  Content-Length framing.
- `Server` (server.dfy) models the handler itself:
  - `Process` is the handler as a function of the request text;
  - `HandleRequest` makes the same `strtok`, `strdup` and `strcmp` steps on
    arrays, with the User-Agent `while` loop, and is proved to return
    `Process` of the request. For `sprintf` it builds the response as a
    string and compares its length, plus the NUL, with the 512-character
    `response` array; it does not write into an array;
  - lemmas characterise `Process` route by route.

Undefined behaviour in the C code becomes a `Failure` result:

- `NoRequestPath`: `strdup(NULL)` when the request has no second word.
- `NoEchoContent`: `strlen(NULL)` for `/echo` or `/echo/`.
- `NoUserAgent`: `strlen(NULL)` for `/user-agent` without the header.
- `ResponseOverflow`: `sprintf` past `response[512]`.

## Model

| member | source | states |
|---|---|---|
| CStrings.StrEnd | app/server.c:132 | the terminator of the string at a position: every character before it is non-NUL, and it is a NUL or the buffer's end |
| CStrings.CStr | app/server.c:132 | the C string at a position is the buffer's characters from there up to the first NUL (or the buffer's end), and holds no NUL |
| CStrings.StrLen | app/server.c:177 | strlen returns the length of the C string at the position |
| CStrings.StrEquals | app/server.c:165 | strcmp(s, lit) == 0 exactly when the C string at the position equals lit |
| CStrings.StrStartsWith | app/server.c:150 | strncmp(s, lit, \|lit\|) == 0 exactly when lit is a prefix of the C string at the position |
| CStrings.CopyString | app/server.c:132-133 | the VLA + strcpy copy (and strdup at line 140) is a fresh array holding the C string followed by one NUL |
| CStrings.CStrSplitAt | app/server.c:143 | writing a NUL inside a C string leaves the part before it at the start and the part after it one past the NUL |
| CStrings.CStrFrame | app/server.c:144 | writes beyond a string's terminator leave the string unchanged |
| CStrings.CStrSuffix | app/server.c:151 | a pointer k characters into a C string reads as that string without its first k characters |
| CStrings.CStrTerminated | app/server.c:133 | a NUL-free text followed by a NUL reads back as that text |
| Tokenizer.Tokens | app/server.c:136-137 | the token list that successive strtok calls return: the maximal runs of non-delimiters, in order |
| Tokenizer.TokensAreWords | app/server.c:136-137 | every token is non-empty and free of delimiters |
| Tokenizer.TokensSkip | app/server.c:136 | leading delimiters contribute no token |
| Tokenizer.TokensSplit | app/server.c:136-137 | a delimiter splits the token list into the tokens before it followed by the tokens after it |
| Tokenizer.TokensSplitRun | app/server.c:136-137 | a run of delimiters splits the token list as a single one does (runs collapse) |
| Tokenizer.TokensOfWord | app/server.c:137 | a non-empty delimiter-free word is its own single token |
| Tokenizer.TokensRest | app/server.c:143-144 | the first token is Head without its leading delimiters, the other tokens are those of Rest, and there is no token exactly when the string is all delimiters |
| CStrings.SpanIn | app/server.c:136 | strspn: the length of the longest prefix made of delimiters, the next character (if any) not being one |
| CStrings.SpanNotIn | app/server.c:136 | strcspn: the length of the longest prefix free of delimiters, the next character (if any) being one |
| Tokenizer.Head | app/server.c:143 | what the string given to strtok reads as after the call: cut before the delimiter that ends the first token, and a prefix of the string |
| Tokenizer.Rest | app/server.c:144 | what the saved position reads as after the call: the text after the delimiter that ends the first token, empty when there is none |
| Tokenizer.DelimsEnd | app/server.c:136 | strtok's strspn step on the buffer: the first position from the start that holds the NUL, the buffer's end or a non-delimiter |
| Tokenizer.TokenEnd | app/server.c:136 | strtok's strcspn step on the buffer: the first position from the token's start that holds the NUL, the buffer's end or a delimiter |
| Tokenizer.Strtok | app/server.c:136 | one call keeps the buffer's length, and the token lies between the start and the saved position |
| Tokenizer.StrtokNext | app/server.c:143-144 | one call returns NULL exactly when the string is all delimiters (and then writes nothing); the string now reads as its Head, the saved position as its Rest, and nothing before the start changes |
| Tokenizer.StrtokTokens | app/server.c:136-137 | successive calls return successive tokens: NULL exactly when none is left, else the first token, with the remaining tokens at the saved position |
| Tokenizer.SkipDelims | app/server.c:136 | the strspn loop stops at the first terminator or non-delimiter |
| Tokenizer.FindDelim | app/server.c:136 | the strcspn loop stops at the first terminator or delimiter |
| Tokenizer.Tokenize | app/server.c:136-137 | strtok in place on an array: the new array contents, the token and the saved position are those of Strtok |
| Response.Decimal | app/server.c:179-180 | %d prints a non-empty run of digits, with a leading zero only for zero |
| Response.DecimalRoundTrip | app/server.c:179-180 | reading the printed digits back gives the number |
| Response.DecimalLength | app/server.c:179-180 | lengths below 10, 100 and 1000 print as 1, 2 and 3 digits, larger ones as at least 4 |
| Response.TextResponse | app/server.c:178-180 | the text/plain response for a body: the fixed head, the body's length in decimal, a blank line and the body |
| Response.UnframeTextResponse | app/server.c:179-180 | a text response's Content-Length is its body's length: a client reading it back gets exactly the body |
| Response.TextResponseFits | app/server.c:178-180 | a text response fits exactly when its body has at most 445 characters |
| Server.RequestPath | app/server.c:136-137 | the request path is non-empty and holds no space |
| Server.Process | app/server.c:131-203 | the response sent for the request text, or the Failure where the C code has undefined behaviour |
| Server.RouteOf | app/server.c:165-200 | the branch the strcmp chain takes: "/", then "/echo", then "/user-agent", else not found, with the echo text or User-Agent value the branch uses |
| Server.Serialize | app/server.c:165-203 | the response each branch sends: the fixed 200, the text/plain response of the echo text or User-Agent value, or the 404; a NULL text is undefined behaviour |
| Server.RouteKey | app/server.c:140-143 | the route: what strtok(reqPathCopy, "/") leaves at the start of the path's copy |
| Server.EchoContent | app/server.c:144 | the echo text: the first space-separated word after the slash that ends the route, or NULL |
| Server.FindUserAgent | app/server.c:147-155 | the User-Agent value: the rest of the first CR/LF-separated line starting with "User-Agent: ", or NULL |
| Server.Text | app/server.c:177-180 | the text/plain response of a body, or the overflow when it and its NUL do not fit in response[512] |
| Server.RequestPathOf | app/server.c:136-137 | for "METHOD PATH ..." the path is PATH, whatever spaces come before and between the words |
| Server.FirstWithPrefix | app/server.c:149-155 | None exactly when no line has the prefix; otherwise the rest of the first line that has it, no earlier line having it |
| Server.RouteKeyRoot | app/server.c:143 | the route is "/" exactly for the path "/" |
| Server.RouteKeyWord | app/server.c:143 | the route is "/w" exactly when the path is "/w" or starts with "/w/" |
| Server.EchoContentOf | app/server.c:144 | under route "/w" the echo text is everything after "/w/", slashes included, and NULL when nothing follows |
| Server.EchoRouteExample | app/server.c:143 | "/echo/abc" routes as "/echo" |
| Server.UserAgentRouteExample | app/server.c:143 | "/user-agent/x" routes as "/user-agent" |
| Server.UnroutedExamples | app/server.c:143 | "/echox" and "//echo/x" route as neither "/echo" nor "/user-agent" |
| Server.ProcessRoot | app/server.c:165-167 | the path "/" is answered with exactly "HTTP/1.1 200 OK\r\n\r\n" |
| Server.ProcessEcho | app/server.c:176-183 | "/echo/<text>" is answered with the text/plain response of <text>; "/echo" and "/echo/" have no text (undefined behaviour) |
| Server.ProcessUserAgent | app/server.c:190-197 | "/user-agent" is answered with the text/plain response of the User-Agent value, and is undefined behaviour without one |
| Server.ProcessNotFound | app/server.c:200-203 | every other path is answered with exactly "HTTP/1.1 404 Not Found\r\n\r\n" |
| Server.RequestLinePath | app/server.c:136-137 | the second strtok call on the receive buffer returns the request path, and NULL exactly when there is none |
| Server.SplitPathParts | app/server.c:140-144 | after the two calls on the path's copy, the copy reads as the route and the second call returns the echo text, or NULL when there is none |
| Server.ReadRequestLine | app/server.c:136-137 | the two strtok calls on the receive buffer, on buffer values: the method word, then the path |
| Server.SplitPath | app/server.c:143-144 | the two strtok calls on the path's copy, on buffer values: up to the next slash, then the next word |
| Server.LineScan | app/server.c:148-155 | the header loop on buffer values from one line and strtok's saved position: it stops at the first line starting with "User-Agent: " and gives where its value starts, or NULL after the last line |
| Server.ScanUserAgent | app/server.c:147-155 | the header scan on buffer values, from the first strtok call on the request's copy |
| Server.LineScanFinds | app/server.c:148-155 | the header loop, started on a line with the later lines at the saved position, finds the value FirstWithPrefix gives |
| Server.ScanUserAgentFinds | app/server.c:147-155 | the header scan of a copy of the request finds its User-Agent value, and NULL exactly when there is none |
| Server.SplitRequestLine | app/server.c:136-137 | the two strtok calls on the receive buffer, in place |
| Server.SplitRoute | app/server.c:143-144 | the two strtok calls on the path's copy, in place |
| Server.FindUserAgentLine | app/server.c:148-155 | the while loop over the header lines, in place: its buffer and result are those of ScanUserAgent |
| Server.TextReply | app/server.c:177-180 | strlen, then the formatted response as a string with its length and NUL checked against response[512], give the text/plain response of the C string, or the overflow |
| Server.Dispatch | app/server.c:165-203 | the strcmp chain answers as Serialize of RouteOf the route, echo text and User-Agent value |
| Server.HandleRequest | app/server.c:131-203 | the whole handler on the receive buffer returns Process of the request, and leaves the buffer as the two request-line strtok calls do |

## Left out

- The socket calls and their error exits (lines 38-110), `recv` and its check (lines 123-129), `send` and the `bytesSent` check (lines 167, 182, 196, 202, 206-209) and `close` are network I/O, so they are not modelled. The request is an input buffer and the response is a returned string.
- The `printf` logging (lines 181, 195) and `setbuf` are output side effects only, so they are not modelled.
- `recv` does not NUL-terminate `readbuffer`. When the buffer holds no NUL, the C code reads past its end. The model reads the string to the end of the buffer instead.
- `recv`'s result is stored in a `char byteReceived` (line 123). This truncation only affects the `-1` check, which is left out with `recv`.
- Allocation by `strdup` and the variable-length `tempBuffer` (lines 132, 140) is modelled as fresh arrays. An allocation failure is not modelled.
- The unused `char path[512]` (line 122) is not modelled.
- `sprintf` (lines 178-180, 192-194) is modelled as building the response string and checking that it and its NUL fit in 512 characters. The write into the `response` array is not modelled, so the model does not show what lies in the array after an overflow.
- `int contentLength = strlen(...)` (lines 177, 191) converts to `int`. Bodies are shorter than the 1024-character buffer, so no wrap-around is modelled.
- HandleRequest stops at the first undefined behaviour and returns its `Failure`. The C program would go on with unpredictable effects.
- Server.ProcessEcho: `/echo/a/b` echoes `a/b`, the whole text after `/echo/` as the code computes it, not only the next segment. `/echo` and `/echo/` are undefined behaviour, not an empty body. The model follows the code on both points.
- Tokenizer.StrtokNext: the token's own text is not stated here. StrtokTokens states it, as the first element of Tokens.
