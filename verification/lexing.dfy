/**
 * Character classes and the runs of characters both Lox scanners measure:
 * to the end of a line, a digit run, a letter-or-digit run, the closing
 * quote of a string, and a number with its optional fraction. Both
 * scanners read the source a byte at a time; an element of the sequence
 * stands for one byte.
 */
module Lexing {

  predicate IsDigit(c: char) {
    '0' <= c <= '9'
  }

  predicate IsAlpha(c: char) {
    'a' <= c <= 'z' || 'A' <= c <= 'Z'
  }

  predicate IsAlphanumeric(c: char) {
    IsAlpha(c) || IsDigit(c)
  }

  /** Index of the first `c` at or after `pos`, or the end of the source. */
  function CharEnd(src: seq<char>, pos: nat, c: char): (e: nat)
    requires pos <= |src|
    ensures pos <= e <= |src|
    ensures e < |src| ==> src[e] == c
    ensures forall i :: pos <= i < e ==> src[i] != c
    decreases |src| - pos
  {
    if pos == |src| || src[pos] == c then pos else CharEnd(src, pos + 1, c)
  }

  /** The end of a line comment: the next newline. */
  function LineEnd(src: seq<char>, pos: nat): nat
    requires pos <= |src|
  {
    CharEnd(src, pos, '\n')
  }

  /** The end of a string literal's body: the next `"`. */
  function QuoteEnd(src: seq<char>, pos: nat): nat
    requires pos <= |src|
  {
    CharEnd(src, pos, '"')
  }

  /** Number of newlines in `s`. */
  function Newlines(s: seq<char>): (n: nat)
    ensures n <= |s|
  {
    if s == [] then 0 else (if s[0] == '\n' then 1 else 0) + Newlines(s[1..])
  }


  lemma {:induction false} NoNewlines(src: seq<char>, lo: nat, hi: nat)
    requires lo <= hi <= |src|
    requires forall i :: lo <= i < hi ==> src[i] != '\n'
    ensures Newlines(src[lo..hi]) == 0
    decreases hi - lo
  {
    if lo < hi {
      assert src[lo..hi][1..] == src[lo + 1..hi];
      NoNewlines(src, lo + 1, hi);
    }
  }

  lemma {:induction false} NewlinesConcat(a: seq<char>, b: seq<char>)
    ensures Newlines(a + b) == Newlines(a) + Newlines(b)
    decreases |a|
  {
    if a == [] {
      assert a + b == b;
    } else {
      assert (a + b)[1..] == a[1..] + b;
      NewlinesConcat(a[1..], b);
    }
  }

  /** End of the run of characters satisfying `IsDigit` starting at `pos`. */
  function DigitsEnd(src: seq<char>, pos: nat): (e: nat)
    requires pos <= |src|
    ensures pos <= e <= |src|
    ensures forall i :: pos <= i < e ==> IsDigit(src[i])
    ensures e < |src| ==> !IsDigit(src[e])
    decreases |src| - pos
  {
    if pos < |src| && IsDigit(src[pos]) then DigitsEnd(src, pos + 1) else pos
  }

  /** End of the run of ASCII letters and digits starting at `pos`. */
  function AlnumEnd(src: seq<char>, pos: nat): (e: nat)
    requires pos <= |src|
    ensures pos <= e <= |src|
    ensures forall i :: pos <= i < e ==> IsAlphanumeric(src[i])
    ensures e < |src| ==> !IsAlphanumeric(src[e])
    decreases |src| - pos
  {
    if pos < |src| && IsAlphanumeric(src[pos]) then AlnumEnd(src, pos + 1) else pos
  }

  /**
   * Where a number whose first digit ends at `pos` stops: the digit run,
   * extended by a `.` and a second digit run only when the `.` is directly
   * followed by a digit.
   */
  function NumberEnd(src: seq<char>, pos: nat): (e: nat)
    requires pos <= |src|
    ensures DigitsEnd(src, pos) <= e <= |src|
    ensures var d := DigitsEnd(src, pos);
      e > d <==> d + 1 < |src| && src[d] == '.' && IsDigit(src[d + 1])
    ensures e > DigitsEnd(src, pos) ==> e == DigitsEnd(src, DigitsEnd(src, pos) + 1)
  {
    var d := DigitsEnd(src, pos);
    if d + 1 < |src| && src[d] == '.' && IsDigit(src[d + 1]) then DigitsEnd(src, d + 1) else d
  }

  /** Extending a slice by one character adds one newline exactly when it is one. */
  lemma NewlinesSnoc(src: seq<char>, lo: nat, hi: nat)
    requires lo <= hi < |src|
    ensures Newlines(src[lo..hi + 1]) == Newlines(src[lo..hi]) + (if src[hi] == '\n' then 1 else 0)
  {
    assert src[lo..hi + 1] == src[lo..hi] + [src[hi]];
    NewlinesConcat(src[lo..hi], [src[hi]]);
  }

  /** Walks from `from` up to the closing quote or the end, counting the newlines passed. */
  method SkipToQuote(src: seq<char>, from: nat, line: nat) returns (pos: nat, lines: nat)
    requires from <= |src|
    ensures pos == QuoteEnd(src, from)
    ensures lines == line + Newlines(src[from..pos])
  {
    pos, lines := from, line;
    while pos < |src| && src[pos] != '"'
      invariant from <= pos <= QuoteEnd(src, from)
      invariant QuoteEnd(src, pos) == QuoteEnd(src, from)
      invariant lines == line + Newlines(src[from..pos])
      decreases |src| - pos
    {
      NewlinesSnoc(src, from, pos);
      if src[pos] == '\n' {
        lines := lines + 1;
      }
      pos := pos + 1;
    }
  }
}
