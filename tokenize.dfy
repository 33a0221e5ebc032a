/**
  Splitting an input line into words, as the repeated calls
  strtok(line, MPSH_TOK_DELIM) in mpsh_split_line do. The hidden cursor of
  strtok is replaced by one pure function over the whole line.
 */
module Tokenize {

  /** The delimiter set MPSH_TOK_DELIM: space, tab, carriage return, newline and bell. */
  predicate IsDelim(c: char) {
    c == ' ' || c == '\t' || c == '\r' || c == '\n' || c == '\U{7}'
  }

  /** What strtok can hand out: a non-empty run of non-delimiters. */
  predicate IsWord(s: string) {
    |s| > 0 && forall i :: 0 <= i < |s| ==> !IsDelim(s[i])
  }

  /** The number of delimiters at the start of s (what strtok skips). */
  function LeadingDelims(s: string): (n: nat)
    ensures n <= |s|
    ensures forall i :: 0 <= i < n ==> IsDelim(s[i])
    ensures n < |s| ==> !IsDelim(s[n])
  {
    if s == [] || !IsDelim(s[0]) then 0 else 1 + LeadingDelims(s[1..])
  }

  /** The length of the run of non-delimiters at the start of s (one token). */
  function WordLength(s: string): (n: nat)
    ensures n <= |s|
    ensures forall i :: 0 <= i < n ==> !IsDelim(s[i])
    ensures n < |s| ==> IsDelim(s[n])
  {
    if s == [] || IsDelim(s[0]) then 0 else 1 + WordLength(s[1..])
  }

  /** The tokens strtok returns for s, left to right; every one is a word. */
  function Tokens(s: string): (r: seq<string>)
    ensures forall k :: 0 <= k < |r| ==> IsWord(r[k])
    decreases |s|
  {
    var i := LeadingDelims(s);
    if i == |s| then []
    else
      var t := s[i..];
      var n := WordLength(t);
      assert IsWord(t[..n]);
      [t[..n]] + Tokens(t[n..])
  }

  /** The characters of s that are not delimiters, in their order. */
  function NonDelims(s: string): string {
    if s == [] then [] else (if IsDelim(s[0]) then [] else [s[0]]) + NonDelims(s[1..])
  }

  /** The tokens laid end to end. */
  function Concat(ws: seq<string>): string {
    if ws == [] then [] else ws[0] + Concat(ws[1..])
  }

  /** The words joined by single spaces: a line that would type them. */
  function Unwords(ws: seq<string>): string {
    if ws == [] then [] else if |ws| == 1 then ws[0] else ws[0] + " " + Unwords(ws[1..])
  }

  lemma {:induction false} NonDelimsAppend(a: string, b: string)
    ensures NonDelims(a + b) == NonDelims(a) + NonDelims(b)
  {
    if a == [] {
      assert a + b == b;
    } else {
      assert (a + b)[1..] == a[1..] + b;
      NonDelimsAppend(a[1..], b);
    }
  }

  lemma {:induction false} NonDelimsOfDelims(s: string)
    requires forall i :: 0 <= i < |s| ==> IsDelim(s[i])
    ensures NonDelims(s) == []
  {
    if s != [] {
      NonDelimsOfDelims(s[1..]);
    }
  }

  lemma {:induction false} NonDelimsOfRun(s: string)
    requires forall i :: 0 <= i < |s| ==> !IsDelim(s[i])
    ensures NonDelims(s) == s
  {
    if s != [] {
      NonDelimsOfRun(s[1..]);
    }
  }

  /** Splitting loses nothing but delimiters and keeps the order of what is left. */
  lemma {:induction false} TokensKeepText(s: string)
    ensures Concat(Tokens(s)) == NonDelims(s)
    decreases |s|
  {
    var i := LeadingDelims(s);
    assert s == s[..i] + s[i..];
    NonDelimsAppend(s[..i], s[i..]);
    NonDelimsOfDelims(s[..i]);
    if i < |s| {
      var t := s[i..];
      var n := WordLength(t);
      assert t == t[..n] + t[n..];
      NonDelimsAppend(t[..n], t[n..]);
      NonDelimsOfRun(t[..n]);
      TokensKeepText(t[n..]);
      assert Tokens(s) == [t[..n]] + Tokens(t[n..]);
      assert Concat(Tokens(s)) == t[..n] + Concat(Tokens(t[n..]));
    }
  }

  /** A line holds no token exactly when it is made of delimiters only. */
  lemma BlankIffNoTokens(s: string)
    ensures Tokens(s) == [] <==> forall i :: 0 <= i < |s| ==> IsDelim(s[i])
  {
  }

  lemma {:induction false} WordLengthOfWord(w: string, tail: string)
    requires IsWord(w)
    requires tail == [] || IsDelim(tail[0])
    ensures WordLength(w + tail) == |w|
    decreases |w|
  {
    assert (w + tail)[1..] == w[1..] + tail;
    if |w| > 1 {
      WordLengthOfWord(w[1..], tail);
    }
  }

  lemma TokensSkipDelim(c: char, u: string)
    requires IsDelim(c)
    ensures Tokens([c] + u) == Tokens(u)
  {
    var s := [c] + u;
    assert s[1..] == u;
    var i := LeadingDelims(u);
    assert LeadingDelims(s) == 1 + i;
    if i < |u| {
      assert s[1 + i..] == u[i..];
    }
  }

  /** Typing words separated by spaces gives back exactly those words. */
  lemma {:induction false} TokensOfUnwords(ws: seq<string>)
    requires forall k :: 0 <= k < |ws| ==> IsWord(ws[k])
    ensures Tokens(Unwords(ws)) == ws
  {
    if ws == [] {
    } else if |ws| == 1 {
      var w := ws[0];
      WordLengthOfWord(w, []);
      assert w + [] == w;
      assert LeadingDelims(w) == 0;
      assert w[..|w|] == w && w[|w|..] == [];
    } else {
      var w, u := ws[0], Unwords(ws[1..]);
      var s := w + " " + u;
      assert Unwords(ws) == s;
      assert LeadingDelims(s) == 0;
      assert s == w + (" " + u);
      WordLengthOfWord(w, " " + u);
      assert s[..|w|] == w;
      assert s[|w|..] == [' '] + u;
      TokensSkipDelim(' ', u);
      TokensOfUnwords(ws[1..]);
      assert Tokens(s) == [w] + ws[1..];
    }
  }
}
