/**
 * NUL-terminated strings held in character buffers, and the parts of the C
 * library's string.h that the request handler relies on.  A buffer is a
 * sequence (or array) of characters; the string that starts at a position
 * runs up to the first NUL at or after it, or up to the end of the buffer
 * when there is none.
 */
module CStrings {

  /** The terminator of a C string. */
  const NUL: char := '\0'

  /** The position of the terminator of the string that starts at `from`. */
  function StrEnd(buf: seq<char>, from: nat): (e: nat)
    requires from <= |buf|
    ensures from <= e <= |buf|
    ensures forall k :: from <= k < e ==> buf[k] != NUL
    ensures e < |buf| ==> buf[e] == NUL
    decreases |buf| - from
  {
    if from == |buf| || buf[from] == NUL then from else StrEnd(buf, from + 1)
  }

  /** The C string that starts at position `from` of `buf`. */
  function CStr(buf: seq<char>, from: nat): (s: string)
    requires from <= |buf|
    ensures from + |s| <= |buf|
    ensures NUL !in s
    ensures from + |s| == |buf| || buf[from + |s|] == NUL
  {
    buf[from..StrEnd(buf, from)]
  }

  /** A string followed by the characters of a buffer, then a NUL or the buffer's end, is the C string there. */
  lemma CStrIs(buf: seq<char>, from: nat, t: string)
    requires from + |t| <= |buf|
    requires forall k :: 0 <= k < |t| ==> buf[from + k] == t[k]
    requires NUL !in t
    requires from + |t| == |buf| || buf[from + |t|] == NUL
    ensures CStr(buf, from) == t
  {
    forall p | from <= p < from + |t|
      ensures buf[p] != NUL
    {
      assert buf[from + (p - from)] == t[p - from];
    }
  }

  /** The C string at a position inside the C string at `from` is the latter's tail from there. */
  lemma CStrSuffix(buf: seq<char>, from: nat, p: nat)
    requires from <= |buf| && from <= p <= from + |CStr(buf, from)|
    ensures CStr(buf, p) == CStr(buf, from)[p - from..]
  {
    var s := CStr(buf, from);
    CStrIs(buf, p, s[p - from..]);
  }

  /** The C string of a NUL-free text followed by a NUL is that text. */
  lemma CStrTerminated(t: string)
    requires NUL !in t
    ensures CStr(t + [NUL], 0) == t
  {
    CStrIs(t + [NUL], 0, t);
  }

  /**
   * Writing a NUL inside a C string splits it in two: the string at `from`
   * now ends there, and the string just after it is the old string's tail.
   */
  lemma CStrSplitAt(buf: seq<char>, from: nat, p: nat)
    requires from <= |buf| && from <= p < from + |CStr(buf, from)|
    ensures CStr(buf[p := NUL], from) == CStr(buf, from)[..p - from]
    ensures CStr(buf[p := NUL], p + 1) == CStr(buf, from)[p - from + 1..]
  {
    var s := CStr(buf, from);
    var b := buf[p := NUL];
    forall q | from <= q < p
      ensures b[q] == s[..p - from][q - from]
    {
      assert b[q] == buf[from + (q - from)];
    }
    CStrIs(b, from, s[..p - from]);
    var t := s[p - from + 1..];
    forall q | p + 1 <= q < from + |s|
      ensures b[q] == t[q - (p + 1)]
    {
      assert b[q] == buf[from + (q - from)];
    }
    CStrIs(b, p + 1, t);
  }

  /** A buffer change at or after the terminator leaves the C string unchanged. */
  lemma CStrFrame(buf: seq<char>, buf': seq<char>, from: nat, upto: nat)
    requires from <= |buf| == |buf'|
    requires from + |CStr(buf, from)| < upto <= |buf|
    requires buf'[..upto] == buf[..upto]
    ensures CStr(buf', from) == CStr(buf, from)
  {
    var s := CStr(buf, from);
    assert buf'[from + |s|] == buf[..upto][from + |s|];
    forall k | 0 <= k < |s|
      ensures buf'[from + k] == s[k]
    {
      assert buf'[from + k] == buf[..upto][from + k];
    }
    CStrIs(buf', from, s);
  }

  /** strspn: the length of the longest prefix of `s` made of characters in `d`. */
  function SpanIn(s: string, d: set<char>): (n: nat)
    ensures n <= |s|
    ensures forall k :: 0 <= k < n ==> s[k] in d
    ensures n < |s| ==> s[n] !in d
  {
    if s == [] || s[0] !in d then 0 else 1 + SpanIn(s[1..], d)
  }

  /** strcspn: the length of the longest prefix of `s` made of characters not in `d`. */
  function SpanNotIn(s: string, d: set<char>): (n: nat)
    ensures n <= |s|
    ensures forall k :: 0 <= k < n ==> s[k] !in d
    ensures n < |s| ==> s[n] in d
  {
    if s == [] || s[0] in d then 0 else 1 + SpanNotIn(s[1..], d)
  }

  /** The prefix length that SpanIn characterises is unique. */
  lemma SpanInIs(s: string, d: set<char>, n: nat)
    requires n <= |s|
    requires forall k :: 0 <= k < n ==> s[k] in d
    requires n < |s| ==> s[n] !in d
    ensures SpanIn(s, d) == n
  {
  }

  /** The prefix length that SpanNotIn characterises is unique. */
  lemma SpanNotInIs(s: string, d: set<char>, n: nat)
    requires n <= |s|
    requires forall k :: 0 <= k < n ==> s[k] !in d
    requires n < |s| ==> s[n] in d
    ensures SpanNotIn(s, d) == n
  {
  }

  /** The two parts of a concatenation are recovered by taking and dropping the first one's length. */
  lemma Split<T>(a: seq<T>, b: seq<T>)
    ensures a <= a + b
    ensures (a + b)[..|a|] == a && (a + b)[|a|..] == b
  {
  }

  /** Dropping twice drops the sum. */
  lemma DropDrop<T>(s: seq<T>, m: nat, n: nat)
    requires m + n <= |s|
    ensures s[m..][n..] == s[m + n..]
  {
  }

  /** Taking then dropping is dropping then taking. */
  lemma TakeDrop<T>(s: seq<T>, m: nat, n: nat)
    requires m + n <= |s|
    ensures s[..m + n][m..] == s[m..][..n]
  {
  }

  /** strlen: the length of the C string that starts at `from`. */
  method StrLen(buf: array<char>, from: nat) returns (n: nat)
    requires from <= buf.Length
    ensures n == |CStr(buf[..], from)|
  {
    n := 0;
    while from + n < buf.Length && buf[from + n] != NUL
      invariant from + n <= buf.Length
      invariant forall k :: from <= k < from + n ==> buf[k] != NUL
    {
      n := n + 1;
    }
    CStrIs(buf[..], from, buf[from..from + n]);
  }

  /** strcmp(s, lit) == 0: the C string at `from` is exactly `lit`. */
  method StrEquals(buf: array<char>, from: nat, lit: string) returns (equal: bool)
    requires from <= buf.Length
    requires NUL !in lit
    ensures equal <==> CStr(buf[..], from) == lit
  {
    var k := 0;
    while k < |lit| && from + k < buf.Length && buf[from + k] == lit[k]
      invariant 0 <= k <= |lit|
      invariant from + k <= buf.Length
      invariant forall j :: 0 <= j < k ==> buf[from + j] == lit[j]
    {
      k := k + 1;
    }
    equal := k == |lit| && (from + k == buf.Length || buf[from + k] == NUL);
    if equal {
      CStrIs(buf[..], from, lit);
    }
  }

  /** strncmp(s, lit, |lit|) == 0: the C string at `from` starts with `lit`. */
  method StrStartsWith(buf: array<char>, from: nat, lit: string) returns (starts: bool)
    requires from <= buf.Length
    requires NUL !in lit
    ensures starts <==> lit <= CStr(buf[..], from)
  {
    var s := CStr(buf[..], from);
    var k := 0;
    while k < |lit| && from + k < buf.Length && buf[from + k] == lit[k]
      invariant 0 <= k <= |lit|
      invariant from + k <= buf.Length
      invariant forall j :: 0 <= j < k ==> buf[from + j] == lit[j]
    {
      k := k + 1;
    }
    starts := k == |lit|;
    forall p | from <= p < from + k
      ensures buf[p] != NUL
    {
      assert buf[from + (p - from)] == lit[p - from];
    }
    assert k < |lit| && k < |s| ==> s[k] == buf[from + k];
  }

  /** strdup, and strcpy into a buffer of strlen + 1 characters: a fresh copy of the C string at `from`. */
  method CopyString(buf: array<char>, from: nat) returns (copy: array<char>)
    requires from <= buf.Length
    ensures fresh(copy)
    ensures copy[..] == CStr(buf[..], from) + [NUL]
  {
    var n := StrLen(buf, from);
    copy := new char[n + 1];
    var k := 0;
    while k < n
      invariant 0 <= k <= n
      invariant forall j :: 0 <= j < k ==> copy[j] == buf[from + j]
    {
      copy[k] := buf[from + k];
      k := k + 1;
    }
    copy[n] := NUL;
  }
}
