/**
 * The bytecode compiler's token-level parser (compiler/parser.rs): the
 * current and previous tokens, and error reporting with a panic-mode flag
 * that keeps one mistake from producing a cascade of diagnostics.
 */
module BcParser {
  import opened BcTokens
  import opened BcScanner

  /** Where a diagnostic points: at end of input, nowhere (error tokens), or at a lexeme. */
  datatype Location = AtEnd | NoLocation | AtLexeme(lexeme: seq<char>)

  /** One diagnostic as `error_at` reports it. */
  datatype Diagnostic = Diagnostic(line: nat, location: Location, message: seq<char>)

  function DiagnosticFor(token: Token, message: seq<char>): (d: Diagnostic)
    ensures d.line == token.line && d.message == message
    ensures d.location == AtEnd <==> token.ty == Eof
    ensures d.location == NoLocation <==> token.ty == Error
  {
    var location :=
      if token.ty == Eof then AtEnd
      else if token.ty == Error then NoLocation
      else AtLexeme(token.lexeme);
    Diagnostic(token.line, location, message)
  }

  /** The scanner state after the retry loop of `advance`, with the error tokens it met. */
  datatype NextToken = NextToken(token: Token, errors: seq<Token>, start: nat, current: nat, line: nat)

  /** Scan tokens from `pos` until one is not an error token. */
  function ScanValid(src: seq<char>, pos: nat, line: nat): (r: NextToken)
    requires pos <= |src|
    ensures pos <= r.current <= |src| && r.start <= r.current
    ensures r.token.ty != Error
    ensures forall i :: 0 <= i < |r.errors| ==> r.errors[i].ty == Error
    decreases |src| - pos
  {
    var s := ScanSpec(src, pos, line);
    if s.token.ty != Error then NextToken(s.token, [], s.start, s.current, s.line)
    else
      ScanProgress(src, pos, line);
      var rest := ScanValid(src, s.current, s.line);
      NextToken(rest.token, [s.token] + rest.errors, rest.start, rest.current, rest.line)
  }

  /** One error token skipped: it heads the list of errors met. */
  lemma ScanValidUnfold(src: seq<char>, pos: nat, line: nat)
    requires pos <= |src| && ScanSpec(src, pos, line).token.ty == Error
    ensures var s := ScanSpec(src, pos, line);
      var rest := ScanValid(src, s.current, s.line);
      ScanValid(src, pos, line) == NextToken(rest.token, [s.token] + rest.errors, rest.start, rest.current, rest.line)
  {
  }

  /** Moving past one error token keeps the errors met so far in order. */
  lemma SkipErrorToken(src: seq<char>, pos: nat, line: nat, skipped: seq<Token>)
    requires pos <= |src| && ScanSpec(src, pos, line).token.ty == Error
    ensures var s := ScanSpec(src, pos, line);
      var rest := ScanValid(src, s.current, s.line);
      var here := ScanValid(src, pos, line);
      pos < s.current &&
      NextToken(here.token, skipped + here.errors, here.start, here.current, here.line) ==
      NextToken(rest.token, (skipped + [s.token]) + rest.errors, rest.start, rest.current, rest.line)
  {
    ScanProgress(src, pos, line);
    ScanValidUnfold(src, pos, line);
    var s := ScanSpec(src, pos, line);
    var rest := ScanValid(src, s.current, s.line);
    assert skipped + ([s.token] + rest.errors) == (skipped + [s.token]) + rest.errors;
  }

  /** What the compiler relies on in a token: a string lexeme holds both quotes. */
  predicate WellFormed(t: Token) {
    t.ty == String ==> |t.lexeme| >= 2
  }

  /**
   * A token from `advance` is well formed; Eof comes only at the end of the
   * source; any other token moves the scanner forward.
   */
  lemma {:induction false} ScanValidFacts(src: seq<char>, pos: nat, line: nat)
    requires pos <= |src|
    ensures var r := ScanValid(src, pos, line);
      WellFormed(r.token) &&
      (r.token.ty == Eof ==> r.current == |src|) &&
      (r.token.ty != Eof ==> pos < r.current)
    decreases |src| - pos
  {
    var s := ScanSpec(src, pos, line);
    ScanEof(src, pos, line);
    ScanProgress(src, pos, line);
    if s.token.ty != Error {
      var k := SkipWs(src, pos, line).0;
      if k < |src| && src[k] == '"' {
        ScanStringLiteral(src, pos, line);
      }
    } else {
      ScanValidFacts(src, s.current, s.line);
    }
  }

  /** The keywords `synchronize` stops in front of. */
  predicate StartsStatement(ty: Ty) {
    ty in {Class, Fun, Var, For, If, While, Print, Return}
  }

  /** Where `synchronize` stops: at Eof, after `;`, or before a statement keyword. */
  predicate StopsBefore(previous: Token, current: Token) {
    current.ty == Eof || previous.ty == Semicolon || StartsStatement(current.ty)
  }

  /** No token in `passed` is a stopping point, each preceded by the one before it (the first by `previous`). */
  predicate NoneStops(previous: Token, passed: seq<Token>) {
    (|passed| > 0 ==> !StopsBefore(previous, passed[0])) &&
    forall i :: 1 <= i < |passed| ==> !StopsBefore(passed[i - 1], passed[i])
  }

  lemma NoneStopsAppend(first: Token, passed: seq<Token>, previous: Token, current: Token)
    requires NoneStops(first, passed) && !StopsBefore(previous, current)
    requires previous == if passed == [] then first else passed[|passed| - 1]
    ensures NoneStops(first, passed + [current])
  {
    var q := passed + [current];
    forall i | 1 <= i < |q|
      ensures !StopsBefore(q[i - 1], q[i])
    {
      if i < |passed| {
        assert q[i] == passed[i] && q[i - 1] == passed[i - 1];
      }
    }
  }

  class Parser {
    const scanner: Scanner
    var current: Token
    var previous: Token
    var hadError: bool
    var panicMode: bool
    /** The diagnostics printed so far, oldest first. */
    ghost var diagnostics: seq<Diagnostic>

    /** The scanner sits between tokens, and the error flags agree with the diagnostics. */
    ghost predicate Ready()
      reads this, scanner
    {
      scanner.Valid() && scanner.peekAhead == 0 &&
      (panicMode ==> hadError) && (|diagnostics| > 0 <==> hadError)
    }

    /** Besides: the current token is Eof only once the source is used up. */
    ghost predicate Valid()
      reads this, scanner
    {
      Ready() &&
      (current.ty == Eof ==> scanner.current == |scanner.source|) &&
      current.ty != Ty.Error && WellFormed(current) && WellFormed(previous)
    }

    /**
     * How much input is left: the unscanned characters, plus one while the
     * current token is not Eof. Every `advance` past a token other than Eof
     * makes it smaller. It is never negative while the scanner is valid.
     */
    ghost function Remaining(): int
      reads this, scanner
    {
      (|scanner.source| - scanner.current) + (if current.ty == Eof then 0 else 1)
    }

    /**
     * `Parser::new`: primed with the first token that is not an error. The
     * source keeps `previous` (and, if the very first token is an error,
     * `current`) uninitialised; the model starts both as an Eof token on
     * line 0.
     */
    constructor (source: seq<char>)
      ensures Valid() && fresh(scanner) && scanner.source == source
      ensures var r := ScanValid(source, 0, 1);
        current == r.token && scanner.current == r.current && scanner.line == r.line &&
        (hadError <==> r.errors != [])
    {
      scanner := new Scanner(source);
      current := Token(Eof, [], 0);
      previous := Token(Eof, [], 0);
      hadError := false;
      panicMode := false;
      diagnostics := [];
      new;
      ScanValidFacts(source, 0, 1);
      current := NextValidToken();
    }

    /**
     * `error_at`: silent while in panic mode; otherwise enters panic mode,
     * records the diagnostic and sets `had_error`.
     */
    method ErrorAt(token: Token, message: seq<char>)
      requires Ready()
      modifies this
      ensures Ready() && panicMode && hadError
      ensures diagnostics == if old(panicMode) then old(diagnostics)
                             else old(diagnostics) + [DiagnosticFor(token, message)]
      ensures current == old(current) && previous == old(previous)
    {
      if panicMode {
        return;
      }
      panicMode := true;
      diagnostics := diagnostics + [DiagnosticFor(token, message)];
      hadError := true;
    }

    /** `error`: reported at the previous token. */
    method Error(message: seq<char>)
      requires Ready()
      modifies this
      ensures Ready() && panicMode && hadError
      ensures diagnostics == if old(panicMode) then old(diagnostics)
                             else old(diagnostics) + [DiagnosticFor(previous, message)]
      ensures current == old(current) && previous == old(previous) && Remaining() == old(Remaining())
      ensures old(Valid()) ==> Valid()
    {
      ErrorAt(previous, message);
    }

    /** `error_at_current`: reported at the current token. */
    method ErrorAtCurrent(message: seq<char>)
      requires Ready()
      modifies this
      ensures Ready() && panicMode && hadError
      ensures diagnostics == if old(panicMode) then old(diagnostics)
                             else old(diagnostics) + [DiagnosticFor(current, message)]
      ensures current == old(current) && previous == old(previous)
    {
      ErrorAt(current, message);
    }

    /**
     * The retry loop of `advance`: scan until a token is not an error. Each
     * error token is reported, with its message, at the token that is
     * current; panic mode lets only the first of them through.
     */
    method NextValidToken() returns (token: Token)
      requires Ready()
      modifies this, scanner
      ensures Ready()
      ensures var r := ScanValid(scanner.source, old(scanner.current), old(scanner.line));
        token == r.token &&
        scanner.current == r.current && scanner.start == r.start && scanner.line == r.line &&
        hadError == (old(hadError) || r.errors != []) &&
        panicMode == (old(panicMode) || r.errors != []) &&
        diagnostics == if old(panicMode) || r.errors == [] then old(diagnostics)
                       else old(diagnostics) + [DiagnosticFor(old(current), r.errors[0].lexeme)]
      ensures current == old(current) && previous == old(previous)
    {
      ghost var src := scanner.source;
      ghost var r0 := ScanValid(src, scanner.current, scanner.line);
      ghost var skipped: seq<Token> := [];
      ghost var p, l := scanner.current, scanner.line;
      token := scanner.ScanToken();
      while token.ty == Ty.Error
        invariant scanner.Valid() && scanner.peekAhead == 0 && scanner.source == src
        invariant current == old(current) && previous == old(previous)
        invariant p <= |src|
        invariant Scanned(token, scanner.start, scanner.current, scanner.line) == ScanSpec(src, p, l)
        invariant var rest := ScanValid(src, p, l);
          r0 == NextToken(rest.token, skipped + rest.errors, rest.start, rest.current, rest.line)
        invariant hadError == (old(hadError) || skipped != [])
        invariant panicMode == (old(panicMode) || skipped != [])
        invariant (panicMode ==> hadError) && (|diagnostics| > 0 <==> hadError)
        invariant diagnostics == if old(panicMode) || skipped == [] then old(diagnostics)
                                 else old(diagnostics) + [DiagnosticFor(old(current), skipped[0].lexeme)]
        decreases |src| - p
      {
        ErrorAt(current, token.lexeme);
        SkipErrorToken(src, p, l, skipped);
        skipped := skipped + [token];
        p, l := scanner.current, scanner.line;
        token := scanner.ScanToken();
      }
    }

    /**
     * `advance`: `previous` takes the current token and `current` the next
     * token that is not an error.
     */
    method Advance()
      requires Valid()
      modifies this, scanner
      ensures Valid()
      ensures var r := ScanValid(scanner.source, old(scanner.current), old(scanner.line));
        previous == old(current) && current == r.token &&
        scanner.current == r.current && scanner.start == r.start && scanner.line == r.line &&
        hadError == (old(hadError) || r.errors != []) &&
        panicMode == (old(panicMode) || r.errors != []) &&
        diagnostics == if old(panicMode) || r.errors == [] then old(diagnostics)
                       else old(diagnostics) + [DiagnosticFor(old(current), r.errors[0].lexeme)]
      ensures old(current.ty) != Eof ==> Remaining() < old(Remaining())
      ensures Remaining() <= old(Remaining())
    {
      ScanValidFacts(scanner.source, scanner.current, scanner.line);
      var token := NextValidToken();
      previous := current;
      current := token;
    }
  
    /** `check`: the current token has kind `ty`. */
    function Check(ty: Ty): (r: bool)
      reads this
      ensures r <==> current.ty == ty
    {
      current.ty == ty
    }

    /**
     * `consume`: advances exactly when the current token has kind `ty`;
     * otherwise reports `message` at the current token and moves nothing.
     */
    method Consume(ty: Ty, message: seq<char>)
      requires Valid()
      modifies this, scanner
      ensures Valid()
      ensures old(current.ty) == ty ==>
        previous == old(current) && current == ScanValid(scanner.source, old(scanner.current), old(scanner.line)).token
      ensures old(current.ty) != ty ==>
        current == old(current) && previous == old(previous) &&
        scanner.current == old(scanner.current) && hadError && panicMode &&
        diagnostics == if old(panicMode) then old(diagnostics)
                       else old(diagnostics) + [DiagnosticFor(old(current), message)]
      ensures old(hadError) ==> hadError
      ensures Remaining() <= old(Remaining())
      ensures old(current.ty) == ty && ty != Eof ==> Remaining() < old(Remaining())
    {
      if current.ty != ty {
        ErrorAtCurrent(message);
        return;
      }
      Advance();
    }

    /** `matches`: `check`, advancing exactly when it holds. */
    method Matches(ty: Ty) returns (matched: bool)
      requires Valid()
      modifies this, scanner
      ensures Valid()
      ensures matched <==> old(current.ty) == ty
      ensures matched ==>
        previous == old(current) && current == ScanValid(scanner.source, old(scanner.current), old(scanner.line)).token
      ensures !matched ==>
        current == old(current) && previous == old(previous) && scanner.current == old(scanner.current) &&
        hadError == old(hadError) && panicMode == old(panicMode) && diagnostics == old(diagnostics)
      ensures old(hadError) ==> hadError
      ensures Remaining() <= old(Remaining())
      ensures matched && ty != Eof ==> Remaining() < old(Remaining())
    {
      if !Check(ty) {
        return false;
      }
      Advance();
      return true;
    }

    /**
     * `synchronize`: leaves panic mode, then skips tokens until the
     * previous one is `;`, the current one starts a statement, or input
     * ends. `passed` lists the current tokens stepped over, in order; none
     * of them was a stopping point. An error token met on the way
     * re-enters panic mode and is the one diagnostic reported.
     */
    method Synchronize() returns (ghost passed: seq<Token>)
      requires Valid()
      modifies this, scanner
      ensures Valid()
      ensures StopsBefore(previous, current)
      ensures passed == [] ==> current == old(current) && previous == old(previous)
      ensures passed != [] ==> passed[0] == old(current) && previous == passed[|passed| - 1]
      ensures NoneStops(old(previous), passed)
      ensures old(hadError) ==> hadError
      ensures old(diagnostics) <= diagnostics && |diagnostics| <= |old(diagnostics)| + 1
      ensures panicMode <==> diagnostics != old(diagnostics)
      ensures Remaining() <= old(Remaining())
    {
      panicMode := false;
      passed := [];
      while current.ty != Eof
        invariant Valid()
        invariant passed == [] ==> current == old(current) && previous == old(previous)
        invariant passed != [] ==> passed[0] == old(current) && previous == passed[|passed| - 1]
        invariant NoneStops(old(previous), passed)
        invariant old(hadError) ==> hadError
        invariant old(diagnostics) <= diagnostics && |diagnostics| <= |old(diagnostics)| + 1
        invariant panicMode <==> diagnostics != old(diagnostics)
        invariant Remaining() <= old(Remaining())
        decreases Remaining()
      {
        if previous.ty == Semicolon {
          return;
        }
        if StartsStatement(current.ty) {
          return;
        }
        NoneStopsAppend(old(previous), passed, previous, current);
        passed := passed + [current];
        Advance();
      }
    }
  }
}
