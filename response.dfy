/**
 * The HTTP responses the server sends: two fixed responses, and a
 * text/plain response that sprintf builds from a body and its length.
 */
module Response {
  import opened Wrappers
  import opened CStrings

  /** The size of the `response` array the text responses are formatted into. */
  const ResponseBufferSize: nat := 512

  const RootResponse := "HTTP/1.1 200 OK\r\n\r\n"
  const NotFoundResponse := "HTTP/1.1 404 Not Found\r\n\r\n"

  /** Everything a text response has before the %d of its Content-Length. */
  const TextHead := "HTTP/1.1 200 OK\r\nContent-Type: text/plain\r\nContent-Length: "

  /** The blank line between the headers and the body. */
  const HeaderEnd := "\r\n\r\n"

  const Digits: set<char> := {'0', '1', '2', '3', '4', '5', '6', '7', '8', '9'}

  function DigitChar(n: nat): (c: char)
    requires n < 10
    ensures c in Digits
  {
    "0123456789"[n]
  }

  function DigitValue(c: char): (n: nat)
    requires c in Digits
    ensures n < 10 && DigitChar(n) == c
  {
    if c == '0' then 0 else if c == '1' then 1 else if c == '2' then 2
    else if c == '3' then 3 else if c == '4' then 4 else if c == '5' then 5
    else if c == '6' then 6 else if c == '7' then 7 else if c == '8' then 8
    else 9
  }

  /** What sprintf's %d prints for a non-negative int: its decimal digits, with no leading zero. */
  function Decimal(n: nat): (s: string)
    ensures s != []
    ensures forall k :: 0 <= k < |s| ==> s[k] in Digits
    ensures s[0] == '0' <==> n == 0
    decreases n
  {
    if n < 10 then [DigitChar(n)] else Decimal(n / 10) + [DigitChar(n % 10)]
  }

  /** The number a string of decimal digits denotes. */
  function DecimalValue(s: string): nat
    requires forall k :: 0 <= k < |s| ==> s[k] in Digits
  {
    if s == [] then 0 else 10 * DecimalValue(s[..|s| - 1]) + DigitValue(s[|s| - 1])
  }

  /** Reading the digits back gives the number printed. */
  lemma {:induction false} DecimalRoundTrip(n: nat)
    ensures DecimalValue(Decimal(n)) == n
    decreases n
  {
    var s := Decimal(n);
    if n < 10 {
      assert DigitValue(DigitChar(n)) == n;
    } else {
      var t := Decimal(n / 10);
      assert s[..|s| - 1] == t;
      assert DigitValue(DigitChar(n % 10)) == n % 10;
      DecimalRoundTrip(n / 10);
    }
  }

  /** The number of digits %d prints, for the lengths a request can carry. */
  lemma {:induction false} DecimalLength(n: nat)
    ensures n < 10 ==> |Decimal(n)| == 1
    ensures 10 <= n < 100 ==> |Decimal(n)| == 2
    ensures 100 <= n < 1000 ==> |Decimal(n)| == 3
    ensures 1000 <= n ==> |Decimal(n)| >= 4
    decreases n
  {
    if n >= 10 {
      DecimalLength(n / 10);
    }
  }

  /** The text/plain response carrying `body`, with its length as Content-Length. */
  function TextResponse(body: string): string
  {
    TextHead + Decimal(|body|) + HeaderEnd + body
  }

  /**
   * How a client reads a text response: after the fixed head come the
   * Content-Length digits and the blank line, and the body is exactly as
   * long as those digits say.
   */
  function Unframe(resp: string): Option<string>
  {
    if !(TextHead <= resp) then None
    else
      var rest := resp[|TextHead|..];
      var n := SpanIn(rest, Digits);
      if n == 0 || !(HeaderEnd <= rest[n..]) then None
      else
        var body := rest[n + |HeaderEnd|..];
        if |body| == DecimalValue(rest[..n]) then Some(body) else None
  }

  /** A text response frames its body: a client reads back exactly that body. */
  lemma UnframeTextResponse(body: string)
    ensures Unframe(TextResponse(body)) == Some(body)
  {
    var digits := Decimal(|body|);
    var tail := HeaderEnd + body;
    var rest := digits + tail;
    assert TextResponse(body) == TextHead + rest;
    Split(TextHead, rest);
    Split(digits, tail);
    Split(HeaderEnd, body);
    assert HeaderEnd[0] !in Digits;
    SpanInIs(rest, Digits, |digits|);
    DropDrop(rest, |digits|, |HeaderEnd|);
    DecimalRoundTrip(|body|);
  }

  /**
   * sprintf into the response array: the text and its terminating NUL must
   * fit in ResponseBufferSize characters; None stands for the overflow.
   */
  function Sprintf(text: string): Option<string>
  {
    if |text| < ResponseBufferSize then Some(text) else None
  }

  /** A text response fits the response array exactly when its body has at most 445 characters. */
  lemma TextResponseFits(body: string)
    ensures Sprintf(TextResponse(body)).Some? <==> |body| <= 445
  {
    DecimalLength(|body|);
    assert |TextHead| == 59;
  }
}
