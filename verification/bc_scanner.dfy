/**
 * The bytecode front end's scanner (scanner.rs). It walks the source with a
 * multi-peek cursor: `current` counts the characters consumed, `peekAhead`
 * the characters looked at beyond them since the last `next` or
 * `reset_peek`. Offsets are character positions.
 *
 * The first half of the module states what one call of `scan_token`
 * produces, as functions of the source, the position and the line; the
 * `Scanner` class below does it step by step and is proved to agree.
 */
module BcScanner {
  import opened Wrappers
  import opened BcTokens
  import opened Lexing

  // ----- What scanning produces ---------------------------------------

  /**
   * `skip_whitespace`: spaces, carriage returns and tabs are skipped, each
   * newline is skipped and counted, and a `//` comment is skipped up to,
   * not including, its newline. Returns the new position and line.
   */
  function SkipWs(src: seq<char>, pos: nat, line: nat): (r: (nat, nat))
    requires pos <= |src|
    ensures pos <= r.0 <= |src| && line <= r.1
    decreases |src| - pos
  {
    if pos == |src| then (pos, line)
    else if src[pos] in {' ', '\r', '\t'} then SkipWs(src, pos + 1, line)
    else if src[pos] == '\n' then SkipWs(src, pos + 1, line + 1)
    else if src[pos] == '/' && pos + 1 < |src| && src[pos + 1] == '/' then
      SkipWs(src, LineEnd(src, pos), line)
    else (pos, line)
  }

  /** Nothing `SkipWs` stops at is whitespace or the start of a comment. */
  lemma {:induction false} SkipWsStopsAtToken(src: seq<char>, pos: nat, line: nat)
    requires pos <= |src|
    ensures var (p, _) := SkipWs(src, pos, line);
      p < |src| ==>
        src[p] !in {' ', '\r', '\t', '\n'} && !(src[p] == '/' && p + 1 < |src| && src[p + 1] == '/')
    decreases |src| - pos
  {
    if pos < |src| {
      if src[pos] in {' ', '\r', '\t'} {
        SkipWsStopsAtToken(src, pos + 1, line);
      } else if src[pos] == '\n' {
        SkipWsStopsAtToken(src, pos + 1, line + 1);
      } else if src[pos] == '/' && pos + 1 < |src| && src[pos + 1] == '/' {
        SkipWsStopsAtToken(src, LineEnd(src, pos), line);
      }
    }
  }

  /** Skipping counts exactly the newlines it passes over (comments hold none). */
  lemma {:induction false} SkipWsCountsNewlines(src: seq<char>, pos: nat, line: nat)
    requires pos <= |src|
    ensures SkipWs(src, pos, line).1 == line + Newlines(src[pos..SkipWs(src, pos, line).0])
    decreases |src| - pos
  {
    var (p, l) := SkipWs(src, pos, line);
    if pos == |src| {
    } else if src[pos] in {' ', '\r', '\t'} || src[pos] == '\n' {
      var l1 := if src[pos] == '\n' then line + 1 else line;
      SkipWsCountsNewlines(src, pos + 1, l1);
      assert src[pos..p] == [src[pos]] + src[pos + 1..p];
      assert src[pos..p][1..] == src[pos + 1..p];
    } else if src[pos] == '/' && pos + 1 < |src| && src[pos + 1] == '/' {
      var e := LineEnd(src, pos);
      SkipWsCountsNewlines(src, e, line);
      NoNewlines(src, pos, e);
      NewlinesConcat(src[pos..e], src[e..p]);
      assert src[pos..p] == src[pos..e] + src[e..p];
    } else {
      assert src[pos..p] == [];
    }
  }

  /**
   * Where `number` as written stops. After the digit run the failed digit
   * test has already moved the peek cursor one past the first non-digit,
   * so the `.` test looks one character too far, and on success the
   * character consumed is the non-digit, not the `.`.
   */
  function NumberEndAsWritten(src: seq<char>, pos: nat): (e: nat)
    requires pos <= |src|
    ensures e == DigitsEnd(src, pos) || e == DigitsEnd(src, pos) + 1
    ensures e <= |src|
  {
    var d := DigitsEnd(src, pos);
    if d + 2 < |src| && src[d + 1] == '.' && IsDigit(src[d + 2]) then d + 1 else d
  }

  /** `check_keyword`: the kind when the lexeme's tail after `start` is `rest`. */
  function CheckKeyword(lexeme: seq<char>, start: nat, rest: seq<char>, ty: Ty): Ty
    requires start <= |lexeme|
  {
    if lexeme[start..] == rest then ty else Identifier
  }

  /**
   * `identifier_type`: the keyword trie, walked on the first one or two
   * characters of the lexeme.
   */
  function IdentifierType(lexeme: seq<char>): (ty: Ty)
    requires |lexeme| >= 1
  {
    match lexeme[0]
    case 'a' => CheckKeyword(lexeme, 1, "nd", And)
    case 'c' => CheckKeyword(lexeme, 1, "lass", Class)
    case 'e' => CheckKeyword(lexeme, 1, "lse", Else)
    case 'f' =>
      if |lexeme| > 1 then
        match lexeme[1]
        case 'a' => CheckKeyword(lexeme, 2, "lse", False)
        case 'o' => CheckKeyword(lexeme, 2, "r", For)
        case 'u' => CheckKeyword(lexeme, 2, "n", Fun)
        case _ => Identifier
      else Identifier
    case 'i' => CheckKeyword(lexeme, 1, "f", If)
    case 'n' => CheckKeyword(lexeme, 1, "il", Nil)
    case 'o' => CheckKeyword(lexeme, 1, "r", Or)
    case 'p' => CheckKeyword(lexeme, 1, "rint", Print)
    case 'r' => CheckKeyword(lexeme, 1, "eturn", Return)
    case 's' => CheckKeyword(lexeme, 1, "uper", Super)
    case 't' =>
      if |lexeme| > 1 then
        match lexeme[1]
        case 'h' => CheckKeyword(lexeme, 2, "is", This)
        case 'r' => CheckKeyword(lexeme, 2, "ue", True)
        case _ => Identifier
      else Identifier
    case 'v' => CheckKeyword(lexeme, 1, "ar", Var)
    case 'w' => CheckKeyword(lexeme, 1, "hile", While)
    case _ => Identifier
  }

  /** The trie finds a keyword exactly when the whole lexeme is one of the sixteen. */
  lemma IdentifierTypeIsLookup(lexeme: seq<char>)
    requires |lexeme| >= 1
    ensures IdentifierType(lexeme) == (if lexeme in Keywords then Keywords[lexeme] else Identifier)
  {
    var c := lexeme[0];
    if SoleKeyword(c) != [] { IdentifierTypeSole(lexeme); }
    else if c == 'f' { IdentifierTypeF(lexeme); }
    else if c == 't' { IdentifierTypeT(lexeme); }
    else { NoKeywordStartingWith(lexeme); }
  }

  /** The letters that begin exactly one keyword, each with that keyword; "" for the others. */
  function SoleKeyword(c: char): seq<char> {
    match c
    case 'a' => "and"
    case 'c' => "class"
    case 'e' => "else"
    case 'i' => "if"
    case 'n' => "nil"
    case 'o' => "or"
    case 'p' => "print"
    case 'r' => "return"
    case 's' => "super"
    case 'v' => "var"
    case 'w' => "while"
    case _ => ""
  }

  lemma IdentifierTypeSole(w: seq<char>)
    requires |w| >= 1 && SoleKeyword(w[0]) != []
    ensures IdentifierType(w) == (if w in Keywords then Keywords[w] else Identifier)
  {
    CheckKeywordIs(w, 1, SoleKeyword(w[0]));
  }

  lemma IdentifierTypeF(w: seq<char>)
    requires |w| >= 1 && w[0] == 'f'
    ensures IdentifierType(w) == (if w in Keywords then Keywords[w] else Identifier)
  {
    if |w| > 1 && w[1] == 'a' { CheckKeywordIs(w, 2, "false"); }
    else if |w| > 1 && w[1] == 'o' { CheckKeywordIs(w, 2, "for"); }
    else if |w| > 1 && w[1] == 'u' { CheckKeywordIs(w, 2, "fun"); }
    else { NoKeywordStartingWith(w); }
  }

  lemma IdentifierTypeT(w: seq<char>)
    requires |w| >= 1 && w[0] == 't'
    ensures IdentifierType(w) == (if w in Keywords then Keywords[w] else Identifier)
  {
    if |w| > 1 && w[1] == 'h' { CheckKeywordIs(w, 2, "this"); }
    else if |w| > 1 && w[1] == 'r' { CheckKeywordIs(w, 2, "true"); }
    else { NoKeywordStartingWith(w); }
  }

  /**
   * Once the first `start` characters agree with keyword `k`, comparing the
   * tails decides whether the lexeme is `k` and whether it is any keyword.
   */
  lemma CheckKeywordIs(w: seq<char>, start: nat, k: seq<char>)
    requires k in Keywords && 1 <= start <= 2 && start <= |w| && start < |k|
    requires w[..start] == k[..start]
    requires k[0] in {'f', 't'} <==> start == 2
    ensures CheckKeyword(w, start, k[start..], Keywords[k]) == (if w in Keywords then Keywords[w] else Identifier)
  {
    assert w == w[..start] + w[start..];
    assert k == k[..start] + k[start..];
    KeywordStartingWith(w, k);
  }

  /** The keywords are told apart by their first two characters. */
  lemma KeywordStartingWith(w: seq<char>, k: seq<char>)
    requires k in Keywords && |k| >= 2 && |w| >= 1
    requires w[0] == k[0] && (k[0] in {'f', 't'} ==> |w| >= 2 && w[1] == k[1])
    ensures w in Keywords <==> w == k
  {
  }

  lemma NoKeywordStartingWith(w: seq<char>)
    requires |w| >= 1
    requires w[0] !in {'a', 'c', 'e', 'i', 'n', 'o', 'p', 'r', 's', 'v', 'w', 'f', 't'} ||
             (w[0] == 'f' && (|w| == 1 || w[1] !in {'a', 'o', 'u'})) ||
             (w[0] == 't' && (|w| == 1 || w[1] !in {'h', 'r'}))
    ensures w !in Keywords
  {
  }

  /** The one-character tokens of `scan_token`. */
  function SingleCharTy(c: char): (r: Option<Ty>)
  {
    match c
    case '(' => Some(LeftParen)
    case ')' => Some(RightParen)
    case '{' => Some(LeftBrace)
    case '}' => Some(RightBrace)
    case ';' => Some(Semicolon)
    case ',' => Some(Comma)
    case '.' => Some(Dot)
    case '-' => Some(Minus)
    case '+' => Some(Plus)
    case '/' => Some(Slash)
    case '*' => Some(Star)
    case _ => None
  }

  /** The characters that start a one-or-two character operator. */
  predicate IsOperatorStart(c: char) {
    c in {'!', '=', '<', '>'}
  }

  /** `!`, `=`, `<`, `>` alone, or followed by `=`. */
  function OperatorTy(c: char, withEqual: bool): Ty
    requires IsOperatorStart(c)
  {
    match c
    case '!' => if withEqual then BangEqual else Bang
    case '=' => if withEqual then EqualEqual else Equal
    case '<' => if withEqual then LessEqual else Less
    case '>' => if withEqual then GreaterEqual else Greater
  }

  const UNTERMINATED_STRING: seq<char> := "Unterminated string."
  const UNEXPECTED_CHARACTER: seq<char> := "Unexpected character."

  /** The scanner's state after one `scan_token`, with the token it returned. */
  datatype Scanned = Scanned(token: Token, start: nat, current: nat, line: nat)

  /**
   * One `scan_token` from position `pos` on line `line`: skip whitespace,
   * then recognise one token starting at the first remaining character.
   */
  function ScanSpec(src: seq<char>, pos: nat, line: nat): (r: Scanned)
    requires pos <= |src|
    ensures pos <= r.current <= |src| && r.start <= r.current
  {
    var (s, l) := SkipWs(src, pos, line);
    TokenAt(src, s, l)
  }

  /** The token that starts at `s`, once whitespace is skipped. */
  function TokenAt(src: seq<char>, s: nat, l: nat): (r: Scanned)
    requires s <= |src|
    ensures s <= r.current <= |src| && r.start <= r.current
  {
    if s == |src| then Scanned(Token(Eof, [], l), s, s, l)
    else
      var c := src[s];
      if IsAlpha(c) then
        var e := AlnumEnd(src, s + 1);
        Scanned(Token(IdentifierType(src[s..e]), src[s..e], l), e, e, l)
      else if IsDigit(c) then
        var e := NumberEnd(src, s + 1);
        Scanned(Token(Number, src[s..e], l), e, e, l)
      else if c == '"' then
        var e := QuoteEnd(src, s + 1);
        var l' := l + Newlines(src[s + 1..e]);
        if e < |src| then Scanned(Token(String, src[s..e + 1], l'), e + 1, e + 1, l')
        else Scanned(Token(Error, UNTERMINATED_STRING, l'), s, e, l')
      else if IsOperatorStart(c) then
        var two := s + 1 < |src| && src[s + 1] == '=';
        var e := if two then s + 2 else s + 1;
        Scanned(Token(OperatorTy(c, two), src[s..e], l), e, e, l)
      else if SingleCharTy(c).Some? then
        Scanned(Token(SingleCharTy(c).value, src[s..s + 1], l), s + 1, s + 1, l)
      else Scanned(Token(Error, UNEXPECTED_CHARACTER, l), s, s + 1, l)
  }

  /**
   * Eof comes exactly when only whitespace and comments remain; its lexeme
   * is empty, the whole source is consumed, and scanning again gives Eof
   * again without moving.
   */
  lemma ScanEof(src: seq<char>, pos: nat, line: nat)
    requires pos <= |src|
    ensures var r := ScanSpec(src, pos, line);
      (r.token.ty == Eof <==> SkipWs(src, pos, line).0 == |src|) &&
      (r.token.ty == Eof ==>
         r.token.lexeme == [] && r.current == |src| && ScanSpec(src, r.current, r.line) == r)
  {
  }

  /**
   * Every token other than an error is the slice from its first character
   * (after whitespace) to the new position, and `start` moves to that
   * position; every token carries the line the scanner ends on.
   */
  lemma ScanLexeme(src: seq<char>, pos: nat, line: nat)
    requires pos <= |src|
    ensures var r := ScanSpec(src, pos, line);
      var s := SkipWs(src, pos, line).0;
      r.token.line == r.line &&
      (r.token.ty != Error ==> s <= r.start == r.current && r.token.lexeme == src[s..r.current])
  {
  }

  /** Every token but Eof consumes at least one character. */
  lemma ScanProgress(src: seq<char>, pos: nat, line: nat)
    requires pos <= |src|
    ensures var r := ScanSpec(src, pos, line);
      r.token.ty != Eof ==> SkipWs(src, pos, line).0 < r.current
  {
  }

  /** The line advances by exactly the newlines consumed, skipped or inside a string. */
  lemma ScanCountsLines(src: seq<char>, pos: nat, line: nat)
    requires pos <= |src|
    ensures var r := ScanSpec(src, pos, line);
      r.line == line + Newlines(src[pos..r.current])
  {
    var (s, l) := SkipWs(src, pos, line);
    SkipWsCountsNewlines(src, pos, line);
    SkipWsStopsAtToken(src, pos, line);
    TokenAtCountsLines(src, s, l);
    var r := ScanSpec(src, pos, line);
    assert src[pos..r.current] == src[pos..s] + src[s..r.current];
    NewlinesConcat(src[pos..s], src[s..r.current]);
  }

  lemma TokenAtCountsLines(src: seq<char>, s: nat, l: nat)
    requires s <= |src| && (s < |src| ==> src[s] != '\n')
    ensures var r := TokenAt(src, s, l);
      r.line == l + Newlines(src[s..r.current])
  {
    if s < |src| && src[s] == '"' {
      StringCountsLines(src, s, l);
    } else if s < |src| {
      OtherTokenCountsLines(src, s, l);
    }
  }

  lemma StringCountsLines(src: seq<char>, s: nat, l: nat)
    requires s < |src| && src[s] == '"'
    ensures var r := TokenAt(src, s, l);
      r.line == l + Newlines(src[s..r.current])
  {
    var r := TokenAt(src, s, l);
    var e := QuoteEnd(src, s + 1);
    assert src[s..r.current] == [src[s]] + src[s + 1..r.current];
    assert src[s..r.current][1..] == src[s + 1..r.current];
    if e < |src| {
      assert src[s + 1..r.current] == src[s + 1..e] + [src[e]];
      NewlinesConcat(src[s + 1..e], [src[e]]);
    }
  }

  lemma OtherTokenCountsLines(src: seq<char>, s: nat, l: nat)
    requires s < |src| && src[s] != '\n' && src[s] != '"'
    ensures var r := TokenAt(src, s, l);
      r.line == l + Newlines(src[s..r.current])
  {
    var r := TokenAt(src, s, l);
    assert src[s..r.current] == [src[s]] + src[s + 1..r.current];
    assert src[s..r.current][1..] == src[s + 1..r.current];
    if IsOperatorStart(src[s]) && r.current == s + 2 {
      assert src[s + 1..r.current] == [src[s + 1]];
    } else if !IsAlpha(src[s]) && !IsDigit(src[s]) {
      assert src[s + 1..r.current] == [];
    } else {
      NoNewlines(src, s + 1, r.current);
    }
  }

  /**
   * `!`, `=`, `<` and `>` take the following `=` into a two-character token
   * exactly when it is there.
   */
  lemma ScanOperator(src: seq<char>, pos: nat, line: nat)
    requires pos <= |src|
    requires var s := SkipWs(src, pos, line).0; s < |src| && IsOperatorStart(src[s])
    ensures var s := SkipWs(src, pos, line).0;
      var r := ScanSpec(src, pos, line);
      var two := s + 1 < |src| && src[s + 1] == '=';
      r.token.ty == OperatorTy(src[s], two) &&
      r.current == (if two then s + 2 else s + 1) &&
      (two <==> r.token.ty in {BangEqual, EqualEqual, LessEqual, GreaterEqual})
  {
  }

  /**
   * A string token runs from the opening quote to the closing one, both
   * included; without a closing quote the result is the error token
   * "Unterminated string." and the whole rest of the source is consumed.
   */
  lemma ScanStringLiteral(src: seq<char>, pos: nat, line: nat)
    requires pos <= |src|
    requires var s := SkipWs(src, pos, line).0; s < |src| && src[s] == '"'
    ensures var s := SkipWs(src, pos, line).0;
      var r := ScanSpec(src, pos, line);
      if exists i :: s < i < |src| && src[i] == '"' then
        r.token.ty == String && |r.token.lexeme| >= 2 &&
        r.token.lexeme[0] == '"' && r.token.lexeme[|r.token.lexeme| - 1] == '"' &&
        '"' !in r.token.lexeme[1..|r.token.lexeme| - 1]
      else r.token == Token(Error, UNTERMINATED_STRING, r.line) && r.current == |src|
  {
    var (s, l) := SkipWs(src, pos, line);
    StringTokenShape(src, s, l);
  }

  lemma StringTokenShape(src: seq<char>, s: nat, l: nat)
    requires s < |src| && src[s] == '"'
    ensures var r := TokenAt(src, s, l);
      if exists i :: s < i < |src| && src[i] == '"' then
        r.token.ty == String && |r.token.lexeme| >= 2 &&
        r.token.lexeme[0] == '"' && r.token.lexeme[|r.token.lexeme| - 1] == '"' &&
        '"' !in r.token.lexeme[1..|r.token.lexeme| - 1]
      else r.token == Token(Error, UNTERMINATED_STRING, r.line) && r.current == |src|
  {
    var e := QuoteEnd(src, s + 1);
    if e < |src| {
      var lex := src[s..e + 1];
      assert TokenAt(src, s, l).token.lexeme == lex;
      assert forall k :: 1 <= k < |lex| - 1 ==> lex[k] == src[s + k] != '"';
      var inner := lex[1..|lex| - 1];
      assert forall k :: 0 <= k < |inner| ==> inner[k] == lex[k + 1];
    }
  }

  /**
   * A letter starts an identifier of letters and digits, which is a keyword
   * exactly when the whole lexeme is one of the sixteen.
   */
  lemma ScanIdentifierOrKeyword(src: seq<char>, pos: nat, line: nat)
    requires pos <= |src|
    requires var s := SkipWs(src, pos, line).0; s < |src| && IsAlpha(src[s])
    ensures var r := ScanSpec(src, pos, line);
      var w := r.token.lexeme;
      |w| >= 1 && (forall i :: 0 <= i < |w| ==> IsAlphanumeric(w[i])) &&
      r.token.ty == (if w in Keywords then Keywords[w] else Identifier)
  {
    var (s, l) := SkipWs(src, pos, line);
    WordTokenShape(src, s, l);
  }

  lemma WordTokenShape(src: seq<char>, s: nat, l: nat)
    requires s < |src| && IsAlpha(src[s])
    ensures var r := TokenAt(src, s, l);
      var w := r.token.lexeme;
      |w| >= 1 && (forall i :: 0 <= i < |w| ==> IsAlphanumeric(w[i])) &&
      r.token.ty == (if w in Keywords then Keywords[w] else Identifier)
  {
    IdentifierTypeIsLookup(src[s..AlnumEnd(src, s + 1)]);
  }

  /**
   * A number takes its fractional part exactly when the `.` after the
   * integer digits is directly followed by a digit.
   */
  lemma ScanNumberFraction(src: seq<char>, pos: nat, line: nat)
    requires pos <= |src|
    requires var s := SkipWs(src, pos, line).0; s < |src| && IsDigit(src[s])
    ensures var s := SkipWs(src, pos, line).0;
      var d := DigitsEnd(src, s);
      var r := ScanSpec(src, pos, line);
      r.token.ty == Number &&
      ('.' in r.token.lexeme <==> d + 1 < |src| && src[d] == '.' && IsDigit(src[d + 1]))
  {
    var (s, l) := SkipWs(src, pos, line);
    NumberTokenFraction(src, s, l);
  }

  lemma NumberTokenFraction(src: seq<char>, s: nat, l: nat)
    requires s < |src| && IsDigit(src[s])
    ensures var d := DigitsEnd(src, s);
      var r := TokenAt(src, s, l);
      r.token.ty == Number &&
      ('.' in r.token.lexeme <==> d + 1 < |src| && src[d] == '.' && IsDigit(src[d + 1]))
  {
    assert DigitsEnd(src, s) == DigitsEnd(src, s + 1);
    var e := NumberEnd(src, s + 1);
    var lexeme := src[s..e];
    assert TokenAt(src, s, l).token == Token(Number, lexeme, l);
    var d := DigitsEnd(src, s);
    if d + 1 < |src| && src[d] == '.' && IsDigit(src[d + 1]) {
      assert lexeme[d - s] == '.';
    } else {
      assert forall i :: 0 <= i < |lexeme| ==> IsDigit(lexeme[i]);
    }
  }

  /** `_` and every other character outside the language is "Unexpected character.". */
  lemma ScanUnexpected(src: seq<char>, pos: nat, line: nat)
    requires pos <= |src|
    requires var s := SkipWs(src, pos, line).0;
      s < |src| && !IsAlphanumeric(src[s]) && src[s] != '"' && !IsOperatorStart(src[s]) &&
      SingleCharTy(src[s]).None?
    ensures var s := SkipWs(src, pos, line).0;
      ScanSpec(src, pos, line) == Scanned(Token(Error, UNEXPECTED_CHARACTER, SkipWs(src, pos, line).1), s, s + 1, SkipWs(src, pos, line).1)
  {
  }

  /** The number scan as written stops short on "12.5" and swallows the `+` of "1+.5". */
  lemma NumberAsWrittenCounterexamples()
    ensures NumberEndAsWritten("12.5", 1) == 2 && NumberEnd("12.5", 1) == 4
    ensures NumberEndAsWritten("1+.5", 1) == 2 && ("1+.5")[..2] == "1+" && NumberEnd("1+.5", 1) == 1
  {
    assert DigitsEnd("12.5", 1) == 2;
    assert DigitsEnd("12.5", 3) == 4;
    assert DigitsEnd("1+.5", 1) == 1;
  }

  // ----- The scanner, step by step -------------------------------------

  /** `Scanner`: the source, the token start, the multi-peek cursor and the line. */
  class Scanner {
    const source: seq<char>
    /** Where the token being scanned begins. */
    var start: nat
    /** Characters consumed by `next`. */
    var current: nat
    /** Characters looked at past `current` since the last `next` or `reset_peek`. */
    var peekAhead: nat
    var line: nat

    ghost predicate Valid()
      reads this
    {
      start <= current && current + peekAhead <= |source|
    }

    /** `Scanner::new`: at the first character, on line 1. */
    constructor (source: seq<char>)
      ensures Valid() && this.source == source
      ensures start == 0 && current == 0 && peekAhead == 0 && line == 1
    {
      this.source := source;
      start, current, peekAhead, line := 0, 0, 0, 1;
    }

    /** `peek`: the next character not yet looked at, moving the peek cursor past it. */
    method Peek() returns (c: Option<char>)
      requires Valid()
      modifies this
      ensures Valid()
      ensures var i := old(current + peekAhead);
        if i < |source| then c == Some(source[i]) && peekAhead == old(peekAhead) + 1
        else c == None && peekAhead == old(peekAhead)
      ensures start == old(start) && current == old(current) && line == old(line)
    {
      if current + peekAhead < |source| {
        c := Some(source[current + peekAhead]);
        peekAhead := peekAhead + 1;
      } else {
        c := None;
      }
    }

    /** `reset_peek`. */
    method ResetPeek()
      requires Valid()
      modifies this
      ensures Valid() && peekAhead == 0
      ensures start == old(start) && current == old(current) && line == old(line)
    {
      peekAhead := 0;
    }

    /** `advance`: consumes the next character, forgetting any peeking. */
    method Advance() returns (c: Option<char>)
      requires Valid()
      modifies this
      ensures Valid() && peekAhead == 0
      ensures if old(current) < |source| then c == Some(source[old(current)]) && current == old(current) + 1
              else c == None && current == old(current)
      ensures start == old(start) && line == old(line)
    {
      peekAhead := 0;
      if current < |source| {
        c := Some(source[current]);
        current := current + 1;
      } else {
        c := None;
      }
    }

    /** `offset`: the position of the next peeked character (or the end), then `reset_peek`. */
    method Offset() returns (offset: nat)
      requires Valid()
      modifies this
      ensures Valid() && peekAhead == 0
      ensures offset == old(current + peekAhead)
      ensures start == old(start) && current == old(current) && line == old(line)
    {
      var c := Peek();
      offset := if c.Some? then current + peekAhead - 1 else |source|;
      ResetPeek();
    }

    /** `make_token`: the lexeme runs from `start` to the offset, and `start` moves there. */
    method MakeToken(ty: Ty) returns (t: Token)
      requires Valid() && peekAhead == 0
      modifies this
      ensures Valid() && peekAhead == 0
      ensures t == Token(ty, source[old(start)..old(current)], line)
      ensures start == old(current) && current == old(current) && line == old(line)
    {
      var offset := Offset();
      t := Token(ty, source[start..offset], line);
      start := offset;
    }

    /** `error_token`: the message is the lexeme; nothing moves. */
    function ErrorToken(message: seq<char>): (t: Token)
      reads this
      ensures t.ty == Error && t.lexeme == message && t.line == line
    {
      Token(Error, message, line)
    }

    /** `matches`: consumes `expected` if it is the next character. */
    method Matches(expected: char) returns (matched: bool)
      requires Valid() && peekAhead == 0
      modifies this
      ensures Valid() && peekAhead == 0
      ensures matched <==> old(current) < |source| && source[old(current)] == expected
      ensures current == old(current) + (if matched then 1 else 0)
      ensures start == old(start) && line == old(line)
    {
      var c := Peek();
      if c == Some(expected) {
        var _ := Advance();
        return true;
      }
      ResetPeek();
      return false;
    }

    /** `skip_whitespace`, proved to agree with `SkipWs`. */
    method SkipWhitespace()
      requires Valid() && peekAhead == 0
      modifies this
      ensures Valid() && peekAhead == 0
      ensures (current, line) == SkipWs(source, old(current), old(line))
      ensures start == old(start)
    {
      var done := false;
      while !done
        invariant Valid() && start == old(start)
        invariant !done ==> peekAhead == 0
        invariant SkipWs(source, current, line) == SkipWs(source, old(current), old(line))
        invariant done ==> SkipWs(source, current, line) == (current, line)
        decreases |source| - current, if done then 0 else 1
      {
        var c := Peek();
        if c == Some(' ') || c == Some('\r') || c == Some('\t') {
          var _ := Advance();
        } else if c == Some('\n') {
          line := line + 1;
          var _ := Advance();
        } else if c == Some('/') {
          var d := Peek();
          if d == Some('/') {
            SkipComment();
          } else {
            done := true;
          }
        } else {
          done := true;
        }
      }
      ResetPeek();
    }

    /** The inner loop of `skip_whitespace`: consume a comment up to its newline. */
    method SkipComment()
      requires Valid() && peekAhead == 2
      requires source[current] == '/' && source[current + 1] == '/'
      modifies this
      ensures Valid() && peekAhead == 0
      ensures current == LineEnd(source, old(current))
      ensures start == old(start) && line == old(line)
    {
      ghost var end := LineEnd(source, current);
      var stop := false;
      while !stop
        invariant Valid() && start == old(start) && line == old(line)
        invariant old(current) <= current <= end
        invariant LineEnd(source, current) == end || current == old(current)
        invariant current == old(current) ==> !stop && source[current] == '/'
        invariant !stop ==> current < end
        invariant stop ==> current == end && peekAhead == 0
        invariant !stop ==> current < |source|
        decreases |source| - current, if stop then 0 else 1
      {
        var _ := Advance();
        var c := Peek();
        if c.None? || c == Some('\n') {
          ResetPeek();
          stop := true;
        }
      }
    }

    /** `peek_is_digit`. */
    method PeekIsDigit() returns (isDigit: bool)
      requires Valid()
      modifies this
      ensures Valid()
      ensures var i := old(current + peekAhead);
        (isDigit <==> i < |source| && IsDigit(source[i])) &&
        peekAhead == old(peekAhead) + (if i < |source| then 1 else 0)
      ensures start == old(start) && current == old(current) && line == old(line)
    {
      var c := Peek();
      isDigit := c.Some? && IsDigit(c.value);
    }

    /** Consumes the digit run at `current`; the peek cursor is left past the first non-digit. */
    method Digits()
      requires Valid() && peekAhead == 0
      modifies this
      ensures Valid()
      ensures current == DigitsEnd(source, old(current))
      ensures peekAhead == (if current < |source| then 1 else 0)
      ensures start == old(start) && line == old(line)
    {
      var d := PeekIsDigit();
      while d
        invariant Valid() && start == old(start) && line == old(line)
        invariant old(current) <= current <= DigitsEnd(source, old(current))
        invariant DigitsEnd(source, current) == DigitsEnd(source, old(current))
        invariant d <==> current < |source| && IsDigit(source[current])
        invariant peekAhead == (if current < |source| then 1 else 0)
        decreases |source| - current
      {
        var _ := Advance();
        d := PeekIsDigit();
      }
    }

    /**
     * `number` with the peek cursor reset after the integer digits, so the
     * `.` test looks at the character right after them.
     */
    method ScanNumber() returns (t: Token)
      requires Valid() && peekAhead == 0 && start < current
      modifies this
      ensures Valid() && peekAhead == 0
      ensures t == Token(Number, source[old(start)..NumberEnd(source, old(current))], old(line))
      ensures start == current == NumberEnd(source, old(current)) && line == old(line)
    {
      Digits();
      ResetPeek();
      var dot := Peek();
      if dot == Some('.') {
        var d := PeekIsDigit();
        if d {
          var _ := Advance();
          Digits();
        }
      }
      ResetPeek();
      t := MakeToken(Number);
    }

    /**
     * `number` as written: the failed digit test is not undone before the
     * `.` test, which therefore looks one character too far.
     */
    method ScanNumberAsWritten() returns (t: Token)
      requires Valid() && peekAhead == 0 && start < current
      modifies this
      ensures Valid() && peekAhead == 0
      ensures t == Token(Number, source[old(start)..NumberEndAsWritten(source, old(current))], old(line))
      ensures start == current == NumberEndAsWritten(source, old(current)) && line == old(line)
    {
      Digits();
      var dot := Peek();
      if dot == Some('.') {
        var d := PeekIsDigit();
        if d {
          var _ := Advance();
          Digits();
        }
      }
      ResetPeek();
      t := MakeToken(Number);
    }

    /** `identifier`: letters and digits, then the keyword trie on the lexeme. */
    method ScanIdentifier() returns (t: Token)
      requires Valid() && peekAhead == 0 && start < current
      modifies this
      ensures Valid() && peekAhead == 0
      ensures var e := AlnumEnd(source, old(current));
        t == Token(IdentifierType(source[old(start)..e]), source[old(start)..e], old(line)) &&
        start == current == e
      ensures line == old(line)
    {
      var c := Peek();
      while c.Some? && IsAlphanumeric(c.value)
        invariant Valid() && start == old(start) && line == old(line)
        invariant old(current) <= current <= AlnumEnd(source, old(current))
        invariant AlnumEnd(source, current) == AlnumEnd(source, old(current))
        invariant c == (if current < |source| then Some(source[current]) else None)
        invariant peekAhead == (if current < |source| then 1 else 0)
        decreases |source| - current
      {
        var _ := Advance();
        c := Peek();
      }
      ResetPeek();
      var ty := IdentifierType(source[start..current]);
      t := MakeToken(ty);
    }

    /**
     * The loop of `string`: moves up to the closing quote or the end of
     * the source, counting the newlines it passes.
     */
    method StringContents()
      requires Valid() && peekAhead == 0
      modifies this
      ensures Valid() && start == old(start)
      ensures current == QuoteEnd(source, old(current))
      ensures line == old(line) + Newlines(source[old(current)..current])
      ensures peekAhead == (if current < |source| then 1 else 0)
    {
      var c := Peek();
      while !(c == Some('"') || c.None?)
        invariant Valid() && start == old(start)
        invariant old(current) <= current <= QuoteEnd(source, old(current))
        invariant QuoteEnd(source, current) == QuoteEnd(source, old(current))
        invariant line == old(line) + Newlines(source[old(current)..current])
        invariant c == (if current < |source| then Some(source[current]) else None)
        invariant peekAhead == (if current < |source| then 1 else 0)
        decreases |source| - current
      {
        NewlinesSnoc(source, old(current), current);
        var ch := Advance();
        if ch == Some('\n') {
          line := line + 1;
        }
        c := Peek();
      }
    }

    /** `string`: up to and including the closing quote, counting newlines on the way. */
    method ScanString() returns (t: Token)
      requires Valid() && peekAhead == 0 && start < current
      modifies this
      ensures Valid() && peekAhead == 0
      ensures var e := QuoteEnd(source, old(current));
        line == old(line) + Newlines(source[old(current)..e]) &&
        if e < |source| then t == Token(String, source[old(start)..e + 1], line) && start == current == e + 1
        else t == Token(Error, UNTERMINATED_STRING, line) && current == |source| && start == old(start)
    {
      StringContents();
      var closing := Advance();
      if closing.Some? {
        t := MakeToken(String);
      } else {
        t := ErrorToken(UNTERMINATED_STRING);
      }
    }

    /** `scan_token`, proved to agree with `ScanSpec`. */
    method ScanToken() returns (t: Token)
      requires Valid() && peekAhead == 0
      modifies this
      ensures Valid() && peekAhead == 0
      ensures Scanned(t, start, current, line) == ScanSpec(source, old(current), old(line))
    {
      SkipWhitespace();
      start := Offset();
      t := TokenHere();
    }

    /** The `match` of `scan_token`: one token from the first character after whitespace. */
    method TokenHere() returns (t: Token)
      requires Valid() && peekAhead == 0 && start == current
      modifies this
      ensures Valid() && peekAhead == 0
      ensures Scanned(t, start, current, line) == TokenAt(source, old(current), old(line))
    {
      var c := Advance();
      if c.None? {
        t := MakeToken(Eof);
      } else if IsAlpha(c.value) {
        t := ScanIdentifier();
      } else if IsDigit(c.value) {
        t := ScanNumber();
      } else if c.value == '"' {
        t := ScanString();
      } else {
        t := ScanOperatorOrPunctuation(c.value);
      }
    }

    /** The operator, punctuation and unexpected-character arms of `scan_token`. */
    method ScanOperatorOrPunctuation(c: char) returns (t: Token)
      requires Valid() && peekAhead == 0 && start + 1 == current && source[start] == c
      requires !IsAlpha(c) && !IsDigit(c) && c != '"'
      modifies this
      ensures Valid() && peekAhead == 0
      ensures Scanned(t, start, current, line) == TokenAt(source, old(start), old(line))
    {
      if IsOperatorStart(c) {
        var two := Matches('=');
        t := MakeToken(OperatorTy(c, two));
      } else if SingleCharTy(c).Some? {
        t := MakeToken(SingleCharTy(c).value);
      } else {
        t := ErrorToken(UNEXPECTED_CHARACTER);
      }
    }
  }
}
