/**
 * The C library's strtok, as the request handler calls it.
 *
 * One call scans a buffer from a start position: it skips the delimiters
 * there (strspn), and if the string has ended it returns NULL; otherwise the
 * token runs to the next delimiter (strcspn), that delimiter is overwritten
 * with a NUL, and the position just after it is saved for the next call with
 * a NULL first argument.  Runs of delimiters therefore collapse and leading
 * delimiters are skipped.  The library keeps the saved position in hidden
 * static state; here it is the `save` result of one call and the `from`
 * argument of the next.
 */
module Tokenizer {
  import opened Wrappers
  import opened CStrings

  /** A delimiter set is given to strtok as a C string, so it never holds the terminator. */
  type Delims = d: set<char> | NUL !in d

  /** The tokens of `s`: its maximal non-empty runs of characters outside `d`, in order. */
  function Tokens(s: string, d: set<char>): seq<string>
    decreases |s|
  {
    if s == [] then []
    else if s[0] in d then Tokens(s[1..], d)
    else
      var n := SpanNotIn(s, d);
      [s[..n]] + Tokens(s[n..], d)
  }

  /** A token: non-empty and free of delimiters. */
  predicate IsWord(w: string, d: set<char>)
  {
    w != [] && forall j :: 0 <= j < |w| ==> w[j] !in d
  }

  /** Every token is a non-empty run of characters outside `d`. */
  lemma {:induction false} TokensAreWords(s: string, d: set<char>)
    ensures var ts := Tokens(s, d); forall k :: 0 <= k < |ts| ==> IsWord(ts[k], d)
    decreases |s|
  {
    if s == [] {
    } else if s[0] in d {
      TokensAreWords(s[1..], d);
      assert Tokens(s, d) == Tokens(s[1..], d);
    } else {
      var n := SpanNotIn(s, d);
      TokensAreWords(s[n..], d);
      assert IsWord(s[..n], d);
      assert Tokens(s, d) == [s[..n]] + Tokens(s[n..], d);
    }
  }

  /** The token at index `k` is a word. */
  lemma TokenIsWord(s: string, d: set<char>, k: nat)
    requires k < |Tokens(s, d)|
    ensures IsWord(Tokens(s, d)[k], d)
  {
    TokensAreWords(s, d);
  }

  /** Leading delimiters contribute no token. */
  lemma {:induction false} TokensSkip(s: string, n: nat, d: set<char>)
    requires n <= |s|
    requires forall k :: 0 <= k < n ==> s[k] in d
    ensures Tokens(s, d) == Tokens(s[n..], d)
  {
    if n > 0 {
      assert s[1..][n - 1..] == s[n..];
      TokensSkip(s[1..], n - 1, d);
    }
  }

  /** A delimiter splits the token list: the tokens of `a`, then those of `b`. */
  lemma {:induction false} TokensSplit(a: string, c: char, b: string, d: set<char>)
    requires c in d
    ensures Tokens(a + [c] + b, d) == Tokens(a, d) + Tokens(b, d)
    decreases |a|, 1
  {
    var s := a + [c] + b;
    if a == [] {
      assert s[1..] == b;
    } else if a[0] in d {
      assert s[1..] == a[1..] + [c] + b;
      TokensSplit(a[1..], c, b, d);
    } else {
      TokensSplitWord(a, c, b, d);
    }
  }

  /** TokensSplit when `a` starts with a token: that token is also the first of `a + [c] + b`. */
  lemma {:induction false} TokensSplitWord(a: string, c: char, b: string, d: set<char>)
    requires c in d && a != [] && a[0] !in d
    ensures Tokens(a + [c] + b, d) == Tokens(a, d) + Tokens(b, d)
    decreases |a|, 0
  {
    var s := a + [c] + b;
    var n := SpanNotIn(a, d);
    SpanNotInBefore(a, c, b, d);
    assert s[..n] == a[..n];
    if n < |a| {
      calc {
        Tokens(s, d);
        [s[..n]] + Tokens(s[n..], d);
      == { assert s[n..] == a[n..] + [c] + b; TokensSplit(a[n..], c, b, d); }
        [a[..n]] + (Tokens(a[n..], d) + Tokens(b, d));
        ([a[..n]] + Tokens(a[n..], d)) + Tokens(b, d);
        Tokens(a, d) + Tokens(b, d);
      }
    } else {
      calc {
        Tokens(s, d);
        [s[..n]] + Tokens(s[n..], d);
      == { assert s[..n] == a; assert s[n..] == [c] + b; assert ([c] + b)[1..] == b; }
        [a] + Tokens(b, d);
      == { assert a[..n] == a; assert a[n..] == []; assert Tokens(a, d) == [a]; }
        Tokens(a, d) + Tokens(b, d);
      }
    }
  }

  /** The token at the start of `a` ends where it does in `a + [c] + b`, `c` being a delimiter. */
  lemma SpanNotInBefore(a: string, c: char, b: string, d: set<char>)
    requires c in d
    ensures SpanNotIn(a + [c] + b, d) == SpanNotIn(a, d)
  {
    var s := a + [c] + b;
    var n := SpanNotIn(a, d);
    assert forall k :: 0 <= k < n ==> s[k] == a[k];
    assert s[n] in d by {
      if n < |a| {
        assert s[n] == a[n];
      } else {
        assert s[|a|] == c;
      }
    }
    SpanNotInIs(s, d, n);
  }

  /** A run of delimiters splits the token list as one delimiter does: runs collapse. */
  lemma TokensSplitRun(a: string, run: string, b: string, d: set<char>)
    requires run != [] && forall k :: 0 <= k < |run| ==> run[k] in d
    ensures Tokens(a + run + b, d) == Tokens(a, d) + Tokens(b, d)
  {
    assert a + run + b == a + [run[0]] + (run[1..] + b);
    TokensSplit(a, run[0], run[1..] + b, d);
    TokensSkip(run[1..] + b, |run| - 1, d);
    assert (run[1..] + b)[|run| - 1..] == b;
  }

  /** A non-empty word free of delimiters is its own single token. */
  lemma TokensOfWord(w: string, d: set<char>)
    requires w != []
    requires forall k :: 0 <= k < |w| ==> w[k] !in d
    ensures Tokens(w, d) == [w]
  {
    assert SpanNotIn(w, d) == |w|;
    assert w[..|w|] == w;
  }

  /**
   * What the string handed to strtok reads as once the call has written its
   * NUL: cut just before the delimiter that ends the first token (the whole
   * string when there is no token or no delimiter after it).
   */
  function Head(s: string, d: set<char>): (h: string)
    ensures h <= s
  {
    var i := SpanIn(s, d);
    if i == |s| then s else s[..i + SpanNotIn(s[i..], d)]
  }

  /** What the saved position reads as after the call: the text after that delimiter. */
  function Rest(s: string, d: set<char>): string
  {
    var i := SpanIn(s, d);
    if i == |s| then []
    else
      var j := i + SpanNotIn(s[i..], d);
      if j == |s| then [] else s[j + 1..]
  }

  /**
   * The first token is what Head leaves once its leading delimiters are
   * skipped, and the remaining tokens are the tokens of Rest.
   */
  lemma TokensRest(s: string, d: set<char>)
    ensures Tokens(s, d) == [] <==> SpanIn(s, d) == |s|
    ensures Tokens(s, d) != [] ==> Tokens(s, d)[0] == Head(s, d)[SpanIn(s, d)..]
    ensures Tokens(s, d) != [] ==> Tokens(s, d)[1..] == Tokens(Rest(s, d), d)
  {
    var i := SpanIn(s, d);
    TokensSkip(s, i, d);
    if i < |s| {
      var n, rest := TokensFirst(s[i..], d);
      TokensRestOf(s, d, i, n, rest);
    } else {
      assert s[i..] == [];
    }
  }

  /** TokensRest's conclusion, once the tokens are known to be the first token, at `i` and `n` long, then those of `rest`. */
  lemma TokensRestOf(s: string, d: set<char>, i: nat, n: nat, rest: string)
    requires i == SpanIn(s, d) < |s|
    requires n == SpanNotIn(s[i..], d)
    requires rest == if n < |s[i..]| then s[i..][n + 1..] else []
    requires Tokens(s, d) == [s[i..][..n]] + Tokens(rest, d)
    ensures Tokens(s, d) == [] <==> SpanIn(s, d) == |s|
    ensures Tokens(s, d) != [] ==> Tokens(s, d)[0] == Head(s, d)[SpanIn(s, d)..]
    ensures Tokens(s, d) != [] ==> Tokens(s, d)[1..] == Tokens(Rest(s, d), d)
  {
    HeadAfterDelims(s, d, i, n);
    RestAfterToken(s, d, i, n, rest);
    assert ([s[i..][..n]] + Tokens(rest, d))[1..] == Tokens(rest, d);
  }

  /** The part of Head after the leading delimiters is the first token. */
  lemma HeadAfterDelims(s: string, d: set<char>, i: nat, n: nat)
    requires i == SpanIn(s, d) < |s|
    requires n == SpanNotIn(s[i..], d)
    ensures i <= |Head(s, d)| && Head(s, d)[i..] == s[i..][..n]
  {
    HeadAt(s, d, i, n);
    TakeDrop(s, i, n);
  }

  /** Rest is what follows the delimiter after the first token. */
  lemma RestAfterToken(s: string, d: set<char>, i: nat, n: nat, rest: string)
    requires i == SpanIn(s, d) < |s|
    requires n == SpanNotIn(s[i..], d)
    requires rest == if n < |s[i..]| then s[i..][n + 1..] else []
    ensures Rest(s, d) == rest
  {
    RestAt(s, d, i, n);
    if n < |s| - i {
      DropDrop(s, i, n + 1);
    }
  }

  /** A string that starts with a token: that token, then the tokens after the delimiter ending it. */
  lemma TokensFirst(t: string, d: set<char>) returns (n: nat, rest: string)
    requires t != [] && t[0] !in d
    ensures n == SpanNotIn(t, d)
    ensures rest == if n < |t| then t[n + 1..] else []
    ensures Tokens(t, d) == [t[..n]] + Tokens(rest, d)
  {
    n := SpanNotIn(t, d);
    if n < |t| {
      rest := t[n + 1..];
      assert t[n..][1..] == rest;
    } else {
      rest := [];
      assert t[n..] == [];
    }
  }

  /** Head and Rest when the first token starts at `i` and is `n` characters long. */
  lemma HeadRestAt(s: string, d: set<char>, i: nat, n: nat)
    requires i == SpanIn(s, d) < |s| && n == SpanNotIn(s[i..], d)
    ensures Head(s, d) == s[..i + n]
    ensures i + n < |s| ==> Rest(s, d) == s[i + n + 1..]
    ensures i + n == |s| ==> Rest(s, d) == []
  {
    HeadAt(s, d, i, n);
    RestAt(s, d, i, n);
  }

  // HeadAt, RestAt and the Cut lemmas below each unfold one definition or
  // restate one fact about the call's value. They are kept apart, with
  // empty bodies, so that each proof obligation of StrtokCutsToken and
  // HeadRestAt stays small for the solver.

  lemma HeadAt(s: string, d: set<char>, i: nat, n: nat)
    requires i == SpanIn(s, d) < |s| && n == SpanNotIn(s[i..], d)
    ensures Head(s, d) == s[..i + n]
  {
  }

  lemma RestAt(s: string, d: set<char>, i: nat, n: nat)
    requires i == SpanIn(s, d) < |s| && n == SpanNotIn(s[i..], d)
    ensures Rest(s, d) == if i + n < |s| then s[i + n + 1..] else []
  {
  }

  /** strspn on a buffer: the first position at or after `p` holding the terminator or a non-delimiter. */
  function DelimsEnd(buf: seq<char>, p: nat, d: Delims): (q: nat)
    requires p <= |buf|
    ensures p <= q <= |buf|
    ensures forall k :: p <= k < q ==> buf[k] != NUL && buf[k] in d
    ensures q == |buf| || buf[q] == NUL || buf[q] !in d
    decreases |buf| - p
  {
    if p == |buf| || buf[p] == NUL || buf[p] !in d then p else DelimsEnd(buf, p + 1, d)
  }

  /** strcspn on a buffer: the first position at or after `p` holding the terminator or a delimiter. */
  function TokenEnd(buf: seq<char>, p: nat, d: Delims): (q: nat)
    requires p <= |buf|
    ensures p <= q <= |buf|
    ensures forall k :: p <= k < q ==> buf[k] != NUL && buf[k] !in d
    ensures q == |buf| || buf[q] == NUL || buf[q] in d
    decreases |buf| - p
  {
    if p == |buf| || buf[p] == NUL || buf[p] in d then p else TokenEnd(buf, p + 1, d)
  }

  /** The effect of one strtok call: the new buffer, the token's start (NULL: None) and the saved position. */
  datatype Call = Call(buf: seq<char>, token: Option<nat>, save: nat)

  /** One strtok call on `buf`, scanning from position `from` with delimiters `d`. */
  function Strtok(buf: seq<char>, from: nat, d: Delims): (r: Call)
    requires from <= |buf|
    ensures |r.buf| == |buf| && from <= r.save <= |buf|
    ensures r.token.Some? ==> from <= r.token.value < r.save
  {
    var i := DelimsEnd(buf, from, d);
    if i == |buf| || buf[i] == NUL then Call(buf, None, i)
    else
      var j := TokenEnd(buf, i, d);
      if j == |buf| || buf[j] == NUL then Call(buf, Some(i), j)
      else Call(buf[j := NUL], Some(i), j + 1)
  }

  /**
   * One call on the string `s` at `from`: it returns NULL exactly when `s`
   * is all delimiters, and otherwise the start of the first token.  Either
   * way `s` now reads as its Head and the saved position as its Rest;
   * nothing before `from` changes, and a NULL call writes nothing.
   */
  lemma StrtokNext(buf: seq<char>, from: nat, d: Delims)
    requires from <= |buf|
    ensures var r := Strtok(buf, from, d);
      var s := CStr(buf, from);
      && r.buf[..from] == buf[..from]
      && (r.token.None? <==> SpanIn(s, d) == |s|)
      && (r.token.None? ==> r.buf == buf)
      && (r.token.Some? ==> r.token.value == from + SpanIn(s, d) < r.save)
      && CStr(r.buf, from) == Head(s, d)
      && CStr(r.buf, r.save) == Rest(s, d)
      && (r.save == from + |Head(s, d)| + 1 || (r.save == from + |Head(s, d)| && Rest(s, d) == []))
  {
    var i := DelimsEnd(buf, from, d);
    if i == |buf| || buf[i] == NUL {
      StrtokNoToken(buf, from, d);
    } else if TokenEnd(buf, i, d) == |buf| || buf[TokenEnd(buf, i, d)] == NUL {
      StrtokLastToken(buf, from, d);
    } else {
      StrtokCutsToken(buf, from, d);
    }
  }

  /**
   * Successive calls return successive tokens: a call returns NULL exactly
   * when the string has no token; otherwise it returns the first token; and
   * the string at the saved position holds the remaining tokens.
   */
  lemma StrtokTokens(buf: seq<char>, from: nat, d: Delims)
    requires from <= |buf|
    ensures var r := Strtok(buf, from, d);
      var ts := Tokens(CStr(buf, from), d);
      && (r.token.None? <==> ts == [])
      && (r.token.Some? ==> CStr(r.buf, r.token.value) == ts[0])
      && Tokens(CStr(r.buf, r.save), d) == if ts == [] then [] else ts[1..]
  {
    var r := Strtok(buf, from, d);
    var s := CStr(buf, from);
    StrtokNext(buf, from, d);
    TokensRest(s, d);
    if r.token.Some? {
      CStrSuffix(r.buf, from, r.token.value);
    }
  }

  /** StrtokNext when only delimiters are left: NULL, and the saved position is the terminator. */
  lemma StrtokNoToken(buf: seq<char>, from: nat, d: Delims)
    requires from <= |buf|
    requires var i := DelimsEnd(buf, from, d); i == |buf| || buf[i] == NUL
    ensures var r := Strtok(buf, from, d);
      var s := CStr(buf, from);
      && r.buf == buf
      && r.token.None?
      && SpanIn(s, d) == |s|
      && CStr(r.buf, from) == Head(s, d)
      && CStr(r.buf, r.save) == Rest(s, d)
      && r.save == from + |Head(s, d)|
  {
    var i := DelimsEnd(buf, from, d);
    ScanDelims(buf, from, i, d);
    CStrIs(buf, i, []);
  }

  /** StrtokNext when a delimiter follows the first token: the call writes its NUL there. */
  lemma StrtokCutsToken(buf: seq<char>, from: nat, d: Delims)
    requires from <= |buf|
    requires var i := DelimsEnd(buf, from, d);
      && i < |buf| && buf[i] != NUL
      && var j := TokenEnd(buf, i, d); j < |buf| && buf[j] != NUL
    ensures var r := Strtok(buf, from, d);
      var s := CStr(buf, from);
      && r.buf[..from] == buf[..from]
      && r.token.Some?
      && SpanIn(s, d) < |s|
      && r.token.value == from + SpanIn(s, d) < r.save
      && CStr(r.buf, from) == Head(s, d)
      && CStr(r.buf, r.save) == Rest(s, d)
      && r.save == from + |Head(s, d)| + 1
  {
    var i := DelimsEnd(buf, from, d);
    var j := TokenEnd(buf, i, d);
    ScanCut(buf, from, d, i, j);
    CutStrings(buf, from, d, i, j);
    CutCall(buf, from, d, i, j);
    CutPrefix(buf, from, j);
    CutResult(buf, from, d, i, j);
    CutResultHead(buf, from, d, j, Strtok(buf, from, d));
    CutResultRest(buf, from, d, j, Strtok(buf, from, d));
  }

  /** The string-level view of the positions a cutting call finds. */
  lemma ScanCut(buf: seq<char>, from: nat, d: Delims, i: nat, j: nat)
    requires from <= |buf|
    requires i == DelimsEnd(buf, from, d) && i < |buf| && buf[i] != NUL
    requires j == TokenEnd(buf, i, d) && j < |buf| && buf[j] != NUL
    ensures from <= i <= j <= |buf|
    ensures SpanIn(CStr(buf, from), d) == i - from
    ensures j - from < |CStr(buf, from)| && i - from < |CStr(buf, from)|
    ensures SpanNotIn(CStr(buf, from)[i - from..], d) == j - i
  {
    ScanDelims(buf, from, i, d);
    ScanToken(buf, from, i, j, d);
  }

  /** The value of a call that cuts its token at `j`. */
  lemma CutCall(buf: seq<char>, from: nat, d: Delims, i: nat, j: nat)
    requires from <= |buf|
    requires i == DelimsEnd(buf, from, d) && i < |buf| && buf[i] != NUL
    requires j == TokenEnd(buf, i, d) && j < |buf| && buf[j] != NUL
    ensures Strtok(buf, from, d) == Call(buf[j := NUL], Some(i), j + 1)
  {
  }

  /** Writing at `j` leaves the buffer before `from` unchanged. */
  lemma CutPrefix(buf: seq<char>, from: nat, j: nat)
    requires from <= j < |buf|
    ensures buf[j := NUL][..from] == buf[..from]
  {
  }

  /** StrtokCutsToken's conclusion about positions, from the value of the call. */
  lemma CutResult(buf: seq<char>, from: nat, d: Delims, i: nat, j: nat)
    requires from <= i <= j < |buf|
    requires Strtok(buf, from, d) == Call(buf[j := NUL], Some(i), j + 1)
    requires buf[j := NUL][..from] == buf[..from]
    requires SpanIn(CStr(buf, from), d) == i - from < |CStr(buf, from)|
    requires |Head(CStr(buf, from), d)| == j - from
    ensures var r := Strtok(buf, from, d);
      var s := CStr(buf, from);
      && r.buf[..from] == buf[..from]
      && r.token.Some?
      && SpanIn(s, d) < |s|
      && r.token.value == from + SpanIn(s, d) < r.save
      && r.save == from + |Head(s, d)| + 1
  {
  }

  /** StrtokCutsToken's conclusion about the token's string, from the value of the call. */
  lemma CutResultHead(buf: seq<char>, from: nat, d: Delims, j: nat, r: Call)
    requires from <= j < |buf|
    requires r == Strtok(buf, from, d) && r.buf == buf[j := NUL]
    requires CStr(buf[j := NUL], from) == Head(CStr(buf, from), d)
    ensures CStr(r.buf, from) == Head(CStr(buf, from), d)
  {
  }

  /** StrtokCutsToken's conclusion about the saved string, from the value of the call. */
  lemma CutResultRest(buf: seq<char>, from: nat, d: Delims, j: nat, r: Call)
    requires from <= j < |buf|
    requires r == Strtok(buf, from, d) && r.buf == buf[j := NUL] && r.save == j + 1
    requires CStr(buf[j := NUL], j + 1) == Rest(CStr(buf, from), d)
    ensures CStr(r.buf, r.save) == Rest(CStr(buf, from), d)
  {
  }

  /** The strings the cut of StrtokCutsToken leaves behind: the Head before the NUL and the Rest after it. */
  lemma CutStrings(buf: seq<char>, from: nat, d: Delims, i: nat, j: nat)
    requires from <= i <= j <= |buf|
    requires SpanIn(CStr(buf, from), d) == i - from
    requires j - from < |CStr(buf, from)| && i - from < |CStr(buf, from)|
    requires SpanNotIn(CStr(buf, from)[i - from..], d) == j - i
    ensures CStr(buf[j := NUL], from) == Head(CStr(buf, from), d)
    ensures CStr(buf[j := NUL], j + 1) == Rest(CStr(buf, from), d)
    ensures |Head(CStr(buf, from), d)| == j - from
  {
    var s := CStr(buf, from);
    HeadRestAt(s, d, i - from, j - i);
    CStrSplitAt(buf, from, j);
  }

  /** StrtokNext when the first token runs to the end of the string: nothing is written. */
  lemma StrtokLastToken(buf: seq<char>, from: nat, d: Delims)
    requires from <= |buf|
    requires var i := DelimsEnd(buf, from, d);
      && i < |buf| && buf[i] != NUL
      && var j := TokenEnd(buf, i, d); j == |buf| || buf[j] == NUL
    ensures var r := Strtok(buf, from, d);
      var s := CStr(buf, from);
      && r.buf == buf
      && r.token.Some?
      && SpanIn(s, d) < |s|
      && r.token.value == from + SpanIn(s, d) < r.save
      && CStr(r.buf, from) == Head(s, d)
      && CStr(r.buf, r.save) == Rest(s, d)
      && r.save == from + |Head(s, d)| && Rest(s, d) == []
  {
    var i := DelimsEnd(buf, from, d);
    var j := TokenEnd(buf, i, d);
    ScanDelims(buf, from, i, d);
    ScanToken(buf, from, i, j, d);
    CStrIs(buf, j, []);
  }

  /** The delimiters skipped at the start of a call are the string's SpanIn. */
  lemma ScanDelims(b: seq<char>, from: nat, i: nat, d: Delims)
    requires from <= |b|
    requires i == DelimsEnd(b, from, d)
    ensures i - from <= |CStr(b, from)|
    ensures SpanIn(CStr(b, from), d) == i - from
    ensures i - from == |CStr(b, from)| <==> (i == |b| || b[i] == NUL)
  {
    var s := CStr(b, from);
    assert i - from <= |s|;
    forall k | 0 <= k < i - from
      ensures s[k] in d
    {
      assert s[k] == b[from + k];
    }
    assert i - from < |s| ==> s[i - from] == b[i];
    SpanInIs(s, d, i - from);
  }

  /** The token found by a call is the string's SpanNotIn after the skipped delimiters. */
  lemma ScanToken(b: seq<char>, from: nat, i: nat, j: nat, d: Delims)
    requires from <= i <= |b|
    requires i - from <= |CStr(b, from)|
    requires j == TokenEnd(b, i, d)
    ensures j - from <= |CStr(b, from)|
    ensures SpanNotIn(CStr(b, from)[i - from..], d) == j - i
    ensures j - from == |CStr(b, from)| <==> (j == |b| || b[j] == NUL)
  {
    var s := CStr(b, from);
    assert j - from <= |s|;
    var t := s[i - from..];
    forall k | 0 <= k < j - i
      ensures t[k] !in d
    {
      assert t[k] == b[i + k];
    }
    assert j - i < |t| ==> t[j - i] == b[j];
    SpanNotInIs(t, d, j - i);
  }

  /** strspn over the buffer: skip the delimiters at `from`, as one strtok call begins by doing. */
  method SkipDelims(buf: array<char>, from: nat, d: Delims) returns (i: nat)
    requires from <= buf.Length
    ensures i == DelimsEnd(buf[..], from, d)
  {
    i := from;
    while i < buf.Length && buf[i] != NUL && buf[i] in d
      invariant from <= i <= buf.Length
      invariant DelimsEnd(buf[..], i, d) == DelimsEnd(buf[..], from, d)
    {
      i := i + 1;
    }
  }

  /** strcspn over the buffer: find where the token that starts at `i` ends. */
  method FindDelim(buf: array<char>, i: nat, d: Delims) returns (j: nat)
    requires i <= buf.Length
    ensures j == TokenEnd(buf[..], i, d)
  {
    j := i;
    while j < buf.Length && buf[j] != NUL && buf[j] !in d
      invariant i <= j <= buf.Length
      invariant TokenEnd(buf[..], j, d) == TokenEnd(buf[..], i, d)
    {
      j := j + 1;
    }
  }

  /** strtok itself, over a buffer it changes in place. */
  method Tokenize(buf: array<char>, from: nat, d: Delims) returns (token: Option<nat>, save: nat)
    requires from <= buf.Length
    modifies buf
    ensures Call(buf[..], token, save) == Strtok(old(buf[..]), from, d)
  {
    var i := SkipDelims(buf, from, d);
    if i == buf.Length || buf[i] == NUL {
      return None, i;
    }
    var j := FindDelim(buf, i, d);
    if j == buf.Length || buf[j] == NUL {
      return Some(i), j;
    }
    buf[j] := NUL;
    return Some(i), j + 1;
  }
}
