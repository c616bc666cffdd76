/**
 * The tree-walk scanner (rlox/src/scanner.rs). `scan_tokens` repeatedly
 * marks the start of a lexeme and calls `scan_token`, which consumes one
 * lexeme and adds at most one token or one error; at the end it appends
 * an `Eof` token and returns the tokens, or all the errors when there were
 * any.
 *
 * The first half of the module says what one `scan_token` call does and
 * what the whole scan returns, as functions of the source; the `Scanner`
 * class below does it with the source's cursor fields and is proved to
 * agree. The source is read a byte at a time; `line` starts at 0.
 */
module LoxScanner {
  import opened Wrappers
  import opened Float
  import opened Lexing
  import opened LoxSyntax

  /** `ScanError::Custom`: a line and a message. */
  datatype ScanError = Custom(line: nat, message: seq<char>)

  /**
   * What one `scan_token` call starting at a lexeme does: where it stops,
   * the line afterwards, and the token it adds or the error it records.
   */
  datatype Lexed = Lexed(end: nat, line: nat, token: Option<Token>, error: Option<ScanError>)

  /** The scanned tokens and errors so far, and the current line. */
  datatype Scan = Scan(tokens: seq<Token>, errors: seq<ScanError>, line: nat)

  /** An optional item as a sequence of zero or one elements. */
  function Listed<T>(o: Option<T>): seq<T> {
    if o.Some? then [o.value] else []
  }

  // ----- What scanning produces ---------------------------------------

  /** Characters that are a token on their own (`/` aside). */
  function SingleCharTy(c: char): Option<TokenTy> {
    match c
    case '(' => Some(LeftParen)
    case ')' => Some(RightParen)
    case '{' => Some(LeftBrace)
    case '}' => Some(RightBrace)
    case ',' => Some(Comma)
    case '.' => Some(Dot)
    case '-' => Some(Minus)
    case '+' => Some(Plus)
    case ';' => Some(Semicolon)
    case '*' => Some(Star)
    case _ => None
  }

  predicate IsOperatorStart(c: char) {
    c == '!' || c == '=' || c == '<' || c == '>'
  }

  /** The kind of `!`, `=`, `<` or `>`, with or without a following `=`. */
  function OperatorTy(c: char, withEqual: bool): TokenTy
    requires IsOperatorStart(c)
  {
    match c
    case '!' => if withEqual then BangEqual else Bang
    case '=' => if withEqual then EqualEqual else Equal
    case '<' => if withEqual then LessEqual else Less
    case '>' => if withEqual then GreaterEqual else Greater
  }

  /** `add_token_or_literal`: the lexeme is the text from the lexeme start to the cursor. */
  function Emit(src: seq<char>, start: nat, end: nat, line: nat, ty: TokenTy, literal: Option<Literal>): Lexed
    requires start <= end <= |src|
  {
    Lexed(end, line, Some(Token(ty, src[start..end], literal, line)), None)
  }

  /** A single-character token, an operator with an optional `=`, `/` or a comment. */
  function LexPunctuation(src: seq<char>, start: nat, line: nat): Lexed
    requires start < |src|
    requires SingleCharTy(src[start]).Some? || IsOperatorStart(src[start]) || src[start] == '/'
  {
    var c := src[start];
    var next := start + 1;
    if SingleCharTy(c).Some? then Emit(src, start, next, line, SingleCharTy(c).value, None)
    else if IsOperatorStart(c) then
      var eq := next < |src| && src[next] == '=';
      Emit(src, start, if eq then next + 1 else next, line, OperatorTy(c, eq), None)
    else if next < |src| && src[next] == '/' then Lexed(LineEnd(src, next + 1), line, None, None)
    else Emit(src, start, next, line, Slash, None)
  }

  /**
   * `string`: the contents up to the closing quote, counting newlines. With
   * no closing quote the error is recorded and the closing `advance` then
   * indexes past the end of the source, which panics: `None`.
   */
  function LexString(src: seq<char>, start: nat, line: nat): Option<Lexed>
    requires start < |src| && src[start] == '"'
  {
    var close := QuoteEnd(src, start + 1);
    if close == |src| then None
    else
      var l := line + Newlines(src[start + 1..close]);
      Some(Emit(src, start, close + 1, l, String, Some(Str(src[start + 1..close]))))
  }

  /** `number`: the digit run with its optional fraction, parsed as an `f64`. */
  function LexNumber(src: seq<char>, parse: seq<char> -> F64, start: nat, line: nat): Lexed
    requires start < |src|
  {
    var end := NumberEnd(src, start + 1);
    Emit(src, start, end, line, TokenTy.Number, Some(Literal.Number(parse(src[start..end]))))
  }

  /** A letter followed by letters and digits: a keyword or an identifier. */
  function LexWord(src: seq<char>, start: nat, line: nat): Lexed
    requires start < |src|
  {
    var end := AlnumEnd(src, start + 1);
    var text := src[start..end];
    Emit(src, start, end, line, if text in Keywords then Keywords[text] else Identifier, None)
  }

  /** One `scan_token` call with the lexeme starting at `start`; `None` where the source panics. */
  function LexAt(src: seq<char>, parse: seq<char> -> F64, start: nat, line: nat): (r: Option<Lexed>)
    requires start < |src|
    ensures r.Some? ==> start < r.value.end <= |src| && line <= r.value.line
    ensures r.Some? && r.value.token.Some? ==>
      r.value.token.value.lexeme == src[start..r.value.end] && r.value.token.value.ty != Eof
    ensures r.Some? ==> r.value.token.None? || r.value.error.None?
    ensures r.None? <==> src[start] == '"' && QuoteEnd(src, start + 1) == |src|
  {
    var c := src[start];
    if SingleCharTy(c).Some? || IsOperatorStart(c) || c == '/' then Some(LexPunctuation(src, start, line))
    else if c == ' ' || c == '\r' || c == '\t' then Some(Lexed(start + 1, line, None, None))
    else if c == '\n' then Some(Lexed(start + 1, line + 1, None, None))
    else if c == '"' then LexString(src, start, line)
    else if IsDigit(c) then Some(LexNumber(src, parse, start, line))
    else if IsAlpha(c) then Some(LexWord(src, start, line))
    else Some(Lexed(start + 1, line, None, Some(Custom(line, "Unexpected character."))))
  }

  /**
   * The `scan_tokens` loop from `pos` on, with what was scanned before
   * `pos` in `acc`; `None` when a later `scan_token` panics.
   */
  function ScanFrom(src: seq<char>, parse: seq<char> -> F64, pos: nat, acc: Scan): Option<Scan>
    requires pos <= |src|
    decreases |src| - pos
  {
    if pos == |src| then Some(acc)
    else match LexAt(src, parse, pos, acc.line)
      case None => None
      case Some(l) =>
        ScanFrom(src, parse, l.end, Scan(acc.tokens + Listed(l.token), acc.errors + Listed(l.error), l.line))
  }

  /** Scanning succeeds without panicking: every string literal is closed. */
  predicate Scannable(src: seq<char>, parse: seq<char> -> F64) {
    ScanFrom(src, parse, 0, Scan([], [], 0)).Some?
  }

  /**
   * `scan_tokens`: the tokens followed by one `Eof` token with an empty
   * lexeme on the final line, or every error in the order found.
   */
  function ScanResult(src: seq<char>, parse: seq<char> -> F64): (r: Result<seq<Token>, seq<ScanError>>)
    requires Scannable(src, parse)
    ensures r.Ok? ==> |r.value| > 0 && r.value[|r.value| - 1].ty == Eof && r.value[|r.value| - 1].lexeme == []
    ensures r.Ok? ==> forall i :: 0 <= i < |r.value| - 1 ==> r.value[i].ty != Eof
    ensures r.Err? ==> |r.error| > 0
  {
    var s := ScanFrom(src, parse, 0, Scan([], [], 0)).value;
    ScanNoEof(src, parse, 0, Scan([], [], 0));
    if s.errors == [] then Ok(s.tokens + [Token(Eof, [], None, s.line)]) else Err(s.errors)
  }

  // ----- Properties of scanning ---------------------------------------

  /** `scan_token` never adds an `Eof`; only `scan_tokens` adds one, at the end. */
  lemma {:induction false} ScanNoEof(src: seq<char>, parse: seq<char> -> F64, pos: nat, acc: Scan)
    requires pos <= |src| && ScanFrom(src, parse, pos, acc).Some?
    requires forall i :: 0 <= i < |acc.tokens| ==> acc.tokens[i].ty != Eof
    ensures var s := ScanFrom(src, parse, pos, acc).value;
      acc.tokens <= s.tokens && acc.errors <= s.errors &&
      forall i :: 0 <= i < |s.tokens| ==> s.tokens[i].ty != Eof
    decreases |src| - pos
  {
    if pos < |src| {
      var l := LexAt(src, parse, pos, acc.line).value;
      var acc' := Scan(acc.tokens + Listed(l.token), acc.errors + Listed(l.error), l.line);
      ScanNoEof(src, parse, l.end, acc');
    }
  }

  /** The result is `Ok` exactly when no error was recorded along the way. */
  lemma ScanOkIffNoErrors(src: seq<char>, parse: seq<char> -> F64)
    requires Scannable(src, parse)
    ensures ScanResult(src, parse).Ok? <==> ScanFrom(src, parse, 0, Scan([], [], 0)).value.errors == []
    ensures ScanResult(src, parse).Ok? ==>
      ScanResult(src, parse).value == ScanFrom(src, parse, 0, Scan([], [], 0)).value.tokens
        + [Token(Eof, [], None, ScanFrom(src, parse, 0, Scan([], [], 0)).value.line)]
  {
  }

  /** Each call counts exactly the newlines in the text it consumes. */
  lemma LexCountsLines(src: seq<char>, parse: seq<char> -> F64, start: nat, line: nat)
    requires start < |src| && LexAt(src, parse, start, line).Some?
    ensures var l := LexAt(src, parse, start, line).value;
      l.line == line + Newlines(src[start..l.end])
  {
    var c := src[start];
    if SingleCharTy(c).Some? || IsOperatorStart(c) || c == '/' {
      NoNewlines(src, start, LexPunctuation(src, start, line).end);
    } else if c == ' ' || c == '\r' || c == '\t' || c == '\n' {
      assert src[start..start + 1] == [c];
    } else if c == '"' {
      StringCountsLines(src, start, line);
    } else if IsDigit(c) {
      NoNewlines(src, start, LexNumber(src, parse, start, line).end);
    } else if IsAlpha(c) {
      NoNewlines(src, start, LexWord(src, start, line).end);
    }
  }

  lemma StringCountsLines(src: seq<char>, start: nat, line: nat)
    requires start < |src| && src[start] == '"' && LexString(src, start, line).Some?
    ensures var l := LexString(src, start, line).value;
      l.line == line + Newlines(src[start..l.end])
  {
    var close := QuoteEnd(src, start + 1);
    var inside := src[start + 1..close];
    assert src[start..close + 1] == [src[start]] + (inside + [src[close]]);
    NewlinesConcat(inside, [src[close]]);
    NewlinesConcat([src[start]], inside + [src[close]]);
  }

  /** The whole scan counts every newline of the source, and lines never decrease. */
  lemma {:induction false} ScanCountsLines(src: seq<char>, parse: seq<char> -> F64, pos: nat, acc: Scan)
    requires pos <= |src| && ScanFrom(src, parse, pos, acc).Some?
    ensures ScanFrom(src, parse, pos, acc).value.line == acc.line + Newlines(src[pos..])
    decreases |src| - pos
  {
    if pos < |src| {
      var l := LexAt(src, parse, pos, acc.line).value;
      LexCountsLines(src, parse, pos, acc.line);
      ScanCountsLines(src, parse, l.end, Scan(acc.tokens + Listed(l.token), acc.errors + Listed(l.error), l.line));
      assert src[pos..] == src[pos..l.end] + src[l.end..];
      NewlinesConcat(src[pos..l.end], src[l.end..]);
    } else {
      assert src[pos..] == [];
    }
  }

  /**
   * `!`, `=`, `<` and `>` take a following `=` into a two-character token
   * exactly when the next character is `=`.
   */
  lemma LexOperator(src: seq<char>, parse: seq<char> -> F64, start: nat, line: nat)
    requires start < |src| && IsOperatorStart(src[start])
    ensures var l := LexAt(src, parse, start, line).value;
      var eq := start + 1 < |src| && src[start + 1] == '=';
      l.end == (if eq then start + 2 else start + 1) && l.error.None? && l.line == line &&
      l.token.Some? && l.token.value.ty == OperatorTy(src[start], eq) &&
      (l.token.value.ty in {BangEqual, EqualEqual, LessEqual, GreaterEqual} <==> eq)
  {
  }

  /**
   * `//` starts a comment that runs up to, not including, the next newline
   * and adds nothing; blanks add nothing; a newline adds nothing but a line.
   */
  lemma LexSkipped(src: seq<char>, parse: seq<char> -> F64, start: nat, line: nat)
    requires start < |src|
    requires src[start] in {' ', '\r', '\t', '\n'} || (src[start] == '/' && start + 1 < |src| && src[start + 1] == '/')
    ensures var l := LexAt(src, parse, start, line).value;
      l.token.None? && l.error.None? &&
      l.line == (if src[start] == '\n' then line + 1 else line) &&
      (src[start] == '/' ==> (l.end == |src| || src[l.end] == '\n') && '\n' !in src[start..l.end])
  {
    if src[start] == '/' {
      var l := LexAt(src, parse, start, line).value;
      assert forall i :: 0 <= i < l.end - start ==> src[start..l.end][i] == src[start + i];
    }
  }

  /**
   * A string token spans both quotes, its literal is the text between
   * them (which holds no quote), and its line counts the newlines inside.
   */
  lemma LexStringLiteral(src: seq<char>, parse: seq<char> -> F64, start: nat, line: nat)
    requires start < |src| && src[start] == '"' && QuoteEnd(src, start + 1) < |src|
    ensures var l := LexAt(src, parse, start, line).value;
      l.token.Some? && l.error.None? &&
      var t := l.token.value;
      var inside := src[start + 1..l.end - 1];
      t.ty == String && t.literal == Some(Str(inside)) && src[l.end - 1] == '"' &&
      '"' !in inside && t.line == line + Newlines(inside) && l.line == t.line
  {
    var l := LexAt(src, parse, start, line).value;
    var inside := src[start + 1..l.end - 1];
    assert forall i :: 0 <= i < |inside| ==> inside[i] == src[start + 1 + i];
  }

  /**
   * A number is a digit run, followed by `.` and a second digit run only
   * when the `.` is directly followed by a digit; a trailing `.` is left
   * for the next token. The literal is the parsed lexeme.
   */
  lemma LexNumberShape(src: seq<char>, parse: seq<char> -> F64, start: nat, line: nat)
    requires start < |src| && IsDigit(src[start])
    ensures var l := LexAt(src, parse, start, line).value;
      var d := DigitsEnd(src, start);
      l.token.Some? && l.token.value.ty == TokenTy.Number && l.error.None? && l.line == line &&
      l.token.value.literal == Some(Literal.Number(parse(src[start..l.end]))) &&
      (forall i :: start <= i < d ==> IsDigit(src[i])) &&
      (l.end == d <==> !(d + 1 < |src| && src[d] == '.' && IsDigit(src[d + 1]))) &&
      (l.end != d ==> src[d] == '.' && l.end == DigitsEnd(src, d + 1) && l.end > d + 1)
  {
    assert DigitsEnd(src, start) == DigitsEnd(src, start + 1);
  }

  /**
   * A word is a letter followed by the longest run of letters and digits;
   * it is a keyword exactly when the whole word is one of the sixteen
   * reserved words, and otherwise an identifier.
   */
  lemma LexWordShape(src: seq<char>, parse: seq<char> -> F64, start: nat, line: nat)
    requires start < |src| && IsAlpha(src[start])
    ensures var l := LexAt(src, parse, start, line).value;
      l.token.Some? && l.error.None? && l.line == line &&
      var t := l.token.value;
      (forall i :: start <= i < l.end ==> IsAlphanumeric(src[i])) &&
      (l.end == |src| || !IsAlphanumeric(src[l.end])) &&
      (t.lexeme in Keywords ==> t.ty == Keywords[t.lexeme]) &&
      (t.lexeme !in Keywords <==> t.ty == Identifier)
  {
    var t := LexAt(src, parse, start, line).value.token.value;
    if t.lexeme in Keywords {
      assert Keywords[t.lexeme] != Identifier;
    }
  }

  /** Any other character, `_` included, records "Unexpected character." on the current line. */
  lemma LexUnexpected(src: seq<char>, parse: seq<char> -> F64, start: nat, line: nat)
    requires start < |src|
    requires var c := src[start];
      SingleCharTy(c).None? && !IsOperatorStart(c) && c !in {'/', ' ', '\r', '\t', '\n', '"'} &&
      !IsDigit(c) && !IsAlpha(c)
    ensures LexAt(src, parse, start, line) == Some(Lexed(start + 1, line, None, Some(Custom(line, "Unexpected character."))))
  {
  }

  // ----- The scanner --------------------------------------------------

  class Scanner {
    const source: seq<char>
    /** `str::parse::<f64>` */
    const parse: seq<char> -> F64
    var tokens: seq<Token>
    var start: nat
    var current: nat
    var line: nat
    var errors: seq<ScanError>

    ghost predicate Valid()
      reads this
    {
      start <= current <= |source|
    }

    /** `Scanner::new`: everything but the source starts empty or at 0. */
    constructor (source: seq<char>, parse: seq<char> -> F64)
      ensures Valid()
      ensures this.source == source && this.parse == parse
      ensures tokens == [] && errors == [] && start == 0 && current == 0 && line == 0
    {
      this.source := source;
      this.parse := parse;
      tokens, errors := [], [];
      start, current, line := 0, 0, 0;
    }

    predicate IsAtEnd()
      reads this
    {
      current >= |source|
    }

    /** The character at the cursor, or `'\0'` at the end. */
    function Peek(): char
      reads this
    {
      if IsAtEnd() then '\0' else source[current]
    }

    /** The character after the cursor, or `'\0'` past the end. */
    function PeekNext(): char
      reads this
    {
      if current + 1 >= |source| then '\0' else source[current + 1]
    }

    method Advance() returns (c: char)
      requires Valid() && current < |source|
      modifies this
      ensures Valid()
      ensures c == source[old(current)] && current == old(current) + 1
      ensures tokens == old(tokens) && errors == old(errors) && start == old(start) && line == old(line)
    {
      c := source[current];
      current := current + 1;
    }

    /** `matches`: consume `expected` if it is the next character. */
    method Matches(expected: char) returns (matched: bool)
      requires Valid()
      modifies this
      ensures Valid()
      ensures matched <==> old(current) < |source| && source[old(current)] == expected
      ensures current == if matched then old(current) + 1 else old(current)
      ensures tokens == old(tokens) && errors == old(errors) && start == old(start) && line == old(line)
    {
      if IsAtEnd() || source[current] != expected {
        matched := false;
      } else {
        current := current + 1;
        matched := true;
      }
    }

    method AddTokenOrLiteral(ty: TokenTy, literal: Option<Literal>)
      requires Valid()
      modifies this
      ensures Valid() && errors == old(errors) && start == old(start) && current == old(current) && line == old(line)
      ensures tokens == old(tokens) + [Token(ty, source[start..current], literal, line)]
    {
      tokens := tokens + [Token(ty, source[start..current], literal, line)];
    }

    /** The comment loop: up to, not including, the next newline. */
    method SkipComment()
      requires Valid()
      modifies this
      ensures Valid()
      ensures current == LineEnd(source, old(current))
      ensures tokens == old(tokens) && errors == old(errors) && start == old(start) && line == old(line)
    {
      while Peek() != '\n' && !IsAtEnd()
        invariant Valid() && old(current) <= current
        invariant LineEnd(source, current) == LineEnd(source, old(current))
        invariant tokens == old(tokens) && errors == old(errors) && start == old(start) && line == old(line)
        decreases |source| - current
      {
        var _ := Advance();
      }
    }

    /** `scan_token` for punctuation, operators and `/`, after the first character. */
    method ScanPunctuation(c: char)
      requires Valid() && start < |source| && current == start + 1 && c == source[start]
      requires SingleCharTy(c).Some? || IsOperatorStart(c) || c == '/'
      modifies this
      ensures Valid()
      ensures var l := LexPunctuation(source, old(start), old(line));
        current == l.end && line == l.line && start == old(start) &&
        tokens == old(tokens) + Listed(l.token) && errors == old(errors)
    {
      if SingleCharTy(c).Some? {
        AddTokenOrLiteral(SingleCharTy(c).value, None);
      } else if IsOperatorStart(c) {
        var eq := Matches('=');
        AddTokenOrLiteral(OperatorTy(c, eq), None);
      } else {
        var comment := Matches('/');
        if comment {
          SkipComment();
        } else {
          AddTokenOrLiteral(Slash, None);
        }
      }
    }

    /**
     * The loop of `string`: up to the closing quote, counting newlines. The
     * cursor and line are kept in locals and stored once at the end.
     */
    method StringContents()
      requires Valid() && start < |source| && current == start + 1
      modifies this
      ensures tokens == old(tokens) && errors == old(errors) && start == old(start)
      ensures Valid() && current == QuoteEnd(source, start + 1)
      ensures line == old(line) + Newlines(source[start + 1..current])
    {
      var pos, lines := SkipToQuote(source, current, line);
      current, line := pos, lines;
    }

    /** `string`, after the opening quote; the source must close it. */
    method ScanString()
      requires Valid() && start < |source| && current == start + 1 && source[start] == '"'
      requires QuoteEnd(source, current) < |source|
      modifies this
      ensures Valid()
      ensures var l := LexString(source, old(start), old(line)).value;
        current == l.end && line == l.line && start == old(start) &&
        tokens == old(tokens) + Listed(l.token) && errors == old(errors)
    {
      StringContents();
      var _ := Advance();
      AddTokenOrLiteral(String, Some(Str(source[start + 1..current - 1])));
    }

    /** `number`, after the first digit. */
    method ScanNumber()
      requires Valid() && start < |source| && current == start + 1
      modifies this
      ensures Valid()
      ensures var l := LexNumber(source, parse, old(start), old(line));
        current == l.end && line == l.line && start == old(start) &&
        tokens == old(tokens) + Listed(l.token) && errors == old(errors)
    {
      Digits();
      if Peek() == '.' && IsDigit(PeekNext()) {
        var _ := Advance();
        Digits();
      }
      AddTokenOrLiteral(TokenTy.Number, Some(Literal.Number(parse(source[start..current]))));
    }

    /** A digit loop of `number`. */
    method Digits()
      requires Valid()
      modifies this
      ensures Valid()
      ensures current == DigitsEnd(source, old(current))
      ensures tokens == old(tokens) && errors == old(errors) && start == old(start) && line == old(line)
    {
      while IsDigit(Peek())
        invariant Valid() && old(current) <= current
        invariant DigitsEnd(source, current) == DigitsEnd(source, old(current))
        invariant tokens == old(tokens) && errors == old(errors) && start == old(start) && line == old(line)
        decreases |source| - current
      {
        var _ := Advance();
      }
    }

    /** The identifier branch of `scan_token`, after the first letter. */
    method ScanWord()
      requires Valid() && start < |source| && current == start + 1
      modifies this
      ensures Valid()
      ensures var l := LexWord(source, old(start), old(line));
        current == l.end && line == l.line && start == old(start) &&
        tokens == old(tokens) + Listed(l.token) && errors == old(errors)
    {
      while IsAlphanumeric(Peek())
        invariant Valid() && start + 1 <= current
        invariant AlnumEnd(source, current) == AlnumEnd(source, start + 1)
        invariant tokens == old(tokens) && errors == old(errors) && start == old(start) && line == old(line)
        decreases |source| - current
      {
        var _ := Advance();
      }
      var text := source[start..current];
      if text in Keywords {
        AddTokenOrLiteral(Keywords[text], None);
      } else {
        AddTokenOrLiteral(Identifier, None);
      }
    }

    /** `scan_token`: one lexeme from `start`, as `LexAt` says. */
    method ScanToken()
      requires Valid() && start == current && current < |source|
      requires LexAt(source, parse, current, line).Some?
      modifies this
      ensures Valid()
      ensures var l := LexAt(source, parse, old(current), old(line)).value;
        current == l.end && line == l.line && start == old(start) &&
        tokens == old(tokens) + Listed(l.token) && errors == old(errors) + Listed(l.error)
    {
      var c := Advance();
      if SingleCharTy(c).Some? || IsOperatorStart(c) || c == '/' {
        ScanPunctuation(c);
      } else if c == ' ' || c == '\r' || c == '\t' {
      } else if c == '\n' {
        line := line + 1;
      } else if c == '"' {
        ScanString();
      } else if IsDigit(c) {
        ScanNumber();
      } else if IsAlpha(c) {
        ScanWord();
      } else {
        errors := errors + [Custom(line, "Unexpected character.")];
      }
    }

    /** `scan_tokens`, from a freshly made scanner. */
    method ScanTokens() returns (r: Result<seq<Token>, seq<ScanError>>)
      requires Valid() && current == 0 && line == 0 && tokens == [] && errors == []
      requires Scannable(source, parse)
      modifies this
      ensures r == ScanResult(source, parse)
    {
      while !IsAtEnd()
        invariant Valid()
        invariant ScanFrom(source, parse, current, Scan(tokens, errors, line))
               == ScanFrom(source, parse, 0, Scan([], [], 0))
        decreases |source| - current
      {
        start := current;
        ScanToken();
      }
      tokens := tokens + [Token(Eof, [], None, line)];
      if errors == [] {
        r := Ok(tokens);
      } else {
        r := Err(errors);
      }
    }
  }
}
