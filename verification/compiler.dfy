/**
 * The single-pass compiler (compiler/mod.rs): a Pratt parser that emits
 * bytecode into a chunk as it reads tokens, keeping a stack of local
 * variables with the scope depth each was declared at, patching forward
 * jumps and computing backward loop offsets.
 */
module BcCompiler {
  import opened Bytes
  import opened Wrappers
  import opened Float
  import opened HashedStrings
  import opened BcValue
  import Op = Opcodes
  import opened BcTokens
  import opened BcParser
  import opened Chunks
  import Prec = Precedences
  import opened Debug
  import opened CompilerSpec

  const ALREADY_DECLARED: seq<char> := "Already a variable with this name in this scope."
  const TOO_MANY_LOCALS: seq<char> := "Too many local variables in function."
  const TOO_MANY_CONSTANTS: seq<char> := "Too many constants in one chunk."
  const JUMP_TOO_FAR: seq<char> := "Too much code to jump over."
  const LOOP_TOO_LARGE: seq<char> := "Loop body too large."
  const EXPECT_EXPRESSION: seq<char> := "Expect expression"
  const OWN_INITIALIZER: seq<char> := "Can't read local variable in its own initializer."

  /** Opcodes as the bytes `op as u8` gives. */
  function EncodeAll(ops: seq<Op.Opcode>): (bytes: seq<u8>)
    ensures |bytes| == |ops|
    ensures forall i :: 0 <= i < |ops| ==> bytes[i] == Op.Encode(ops[i])
  {
    if ops == [] then [] else [Op.Encode(ops[0])] + EncodeAll(ops[1..])
  }

  /** `n` copies of `line`: the line entries of `n` bytes written on one line. */
  function Copies(n: nat, line: nat): (r: seq<nat>)
    ensures |r| == n && forall i :: 0 <= i < n ==> r[i] == line
  {
    seq(n, _ => line)
  }

  /** The `n` Pop instructions `end_scope` emits. */
  function Pops(n: nat): (code: seq<u8>)
    ensures |code| == n && forall i :: 0 <= i < n ==> code[i] == Op.Encode(Op.Pop)
  {
    seq(n, _ => Op.Encode(Op.Pop))
  }

  lemma PopsSnoc(n: nat)
    ensures Pops(n) + [Op.Encode(Op.Pop)] == Pops(n + 1)
  {
  }

  /** The token kinds each parse function's `match` handles (others are `unreachable!()`). */
  predicate Handles(f: Prec.ParseFn, ty: Ty) {
    match f
    case BinaryOp => Prec.IsBinaryOperator(ty)
    case UnaryOp => ty in {Minus, Bang}
    case Literal => ty in {Ty.Nil, Ty.True, Ty.False}
    case StringLit => ty == Ty.String
    case _ => true
  }

  /** The rule table only ever hands a parse function a token it handles. */
  lemma RuleHandles(ty: Ty)
    ensures Prec.GetRule(ty).prefix.Some? ==> Handles(Prec.GetRule(ty).prefix.value, ty)
    ensures Prec.GetRule(ty).infix.Some? ==> Handles(Prec.GetRule(ty).infix.value, ty)
  {
    Prec.RuleTableSafe(ty);
  }

  /** The opcode `unary` emits. */
  function UnaryOpcode(ty: Ty): Op.Opcode
    requires ty in {Minus, Bang}
  {
    if ty == Minus then Op.Negate else Op.Not
  }

  /** The opcode `literal` emits. */
  function LiteralOpcode(ty: Ty): Op.Opcode
    requires ty in {Ty.Nil, Ty.True, Ty.False}
  {
    match ty
    case Nil => Op.Nil
    case True => Op.True
    case False => Op.False
  }

  /** The state of the function being compiled (`struct Compiler`): its locals and the current scope depth. */
  class Compiler {
    var locals: seq<Local>
    var scopeDepth: nat

    /** `add_local` never lets more than 255 locals exist. */
    ghost predicate Valid()
      reads this
    {
      |locals| <= MAX_LOCALS
    }

    /** `Compiler::default`: no locals, global scope. */
    constructor ()
      ensures Valid() && locals == [] && scopeDepth == 0
    {
      locals := [];
      scopeDepth := 0;
    }
  }

  /**
   * One compilation: the parser, the chunk being filled, and the state of
   * the function being compiled (its locals and the current scope depth).
   */
  class Compilation {
    const parser: Parser
    const current: Compiler
    const chunk: Chunk<Value>
    /** `vm.allocate_string`, which interns a string object; it is not part of this model. */
    const allocateString: seq<char> -> HashedString
    /** Parsing of number lexemes (`str::parse::<f64>`). */
    const ops: FloatOps

    /** The parser and the chunk are valid (the locals' bound is `current.Valid()`). */
    ghost predicate Valid()
      reads parser, parser.scanner, chunk
    {
      parser.Valid() && chunk.Valid()
    }

    /**
     * What compiling an expression keeps: the compilation stays valid,
     * code and constants only grow at the end, no input is given back, and
     * an error stays reported. (Such methods do not modify the current.locals or
     * the scope depth, which their frames already say.)
     */
    twostate predicate Extends()
      reads parser, parser.scanner, chunk
    {
      Valid() &&
      old(chunk.code) <= chunk.code && old(chunk.lines) <= chunk.lines &&
      old(chunk.constants.items) <= chunk.constants.items &&
      parser.Remaining() <= old(parser.Remaining()) &&
      (old(parser.hadError) ==> parser.hadError)
    }

    /** `Compilation::new`: a primed parser, an empty chunk, no current.locals, global scope. */
    constructor (source: seq<char>, allocateString: seq<char> -> HashedString, ops: FloatOps)
      ensures Valid() && current.Valid() && fresh(parser) && fresh(parser.scanner) && fresh(current) && fresh(chunk)
      ensures parser.scanner.source == source
      ensures chunk.code == [] && chunk.constants.items == []
      ensures current.locals == [] && current.scopeDepth == 0
      ensures this.allocateString == allocateString && this.ops == ops
    {
      parser := new Parser(source);
      chunk := new Chunk();
      current := new Compiler();
      this.allocateString := allocateString;
      this.ops := ops;
    }

    // ----- Emitting code ----------------------------------------------

    /** `emit_bytes`: appends the bytes, each on the previous token's line. */
    method EmitBytes(bytes: seq<u8>)
      requires Valid()
      modifies chunk
      ensures Valid()
      ensures chunk.code == old(chunk.code) + bytes
      ensures chunk.lines == old(chunk.lines) + Copies(|bytes|, parser.previous.line)
      ensures chunk.constants == old(chunk.constants)
    {
      var line := parser.previous.line;
      for i := 0 to |bytes|
        invariant chunk.Valid()
        invariant chunk.code == old(chunk.code) + bytes[..i]
        invariant chunk.lines == old(chunk.lines) + Copies(i, line)
        invariant chunk.constants == old(chunk.constants)
      {
        chunk.Write(bytes[i], line);
        assert bytes[..i + 1] == bytes[..i] + [bytes[i]];
      }
    }

    /**
     * `emit_jump`: the opcode and a two-byte placeholder; returns the
     * offset of the placeholder, to be patched later.
     */
    method EmitJump(op: Op.Opcode) returns (offset: nat)
      requires Valid()
      modifies chunk
      ensures Valid()
      ensures chunk.code == old(chunk.code) + JumpPlaceholder(op)
      ensures chunk.lines == old(chunk.lines) + Copies(3, parser.previous.line)
      ensures offset == |chunk.code| - 2 && chunk.code[offset - 1] == Op.Encode(op)
      ensures chunk.constants == old(chunk.constants)
    {
      EmitBytes(JumpPlaceholder(op));
      offset := |chunk.code| - 2;
    }

    /**
     * `patch_jump`: stores, big-endian, the distance from just after the
     * operand to the end of the code; a distance above `u16::MAX` is
     * reported and stored truncated. Nothing else in the chunk changes.
     */
    method PatchJump(offset: nat)
      requires Valid() && offset + 2 <= |chunk.code|
      modifies parser, chunk
      ensures Valid()
      ensures chunk.code == PatchedCode(old(chunk.code), offset)
      ensures chunk.lines == old(chunk.lines) && chunk.constants == old(chunk.constants)
      ensures parser.current == old(parser.current) && parser.previous == old(parser.previous)
      ensures parser.Remaining() == old(parser.Remaining())
      ensures parser.hadError == (old(parser.hadError) || PatchDistance(old(chunk.code), offset) > U16_MAX)
      ensures 1 <= offset && PatchDistance(old(chunk.code), offset) <= U16_MAX &&
              (old(chunk.code[offset - 1]) == Op.Encode(Op.Jump) || old(chunk.code[offset - 1]) == Op.Encode(Op.JumpIfFalse))
              ==> JumpTarget(chunk.code, offset - 1) == |chunk.code|
    {
      var code := chunk.code;
      var jump := |code| - offset - 2;
      if jump > U16_MAX {
        parser.Error(JUMP_TOO_FAR);
      }
      chunk.code := PatchedCode(code, offset);
      if 1 <= offset && jump <= U16_MAX && (code[offset - 1] == Op.Encode(Op.Jump) || code[offset - 1] == Op.Encode(Op.JumpIfFalse)) {
        PatchedJumpLands(code, offset);
      }
    }

    /**
     * `emit_loop`: Loop, then the big-endian distance back to `loopStart`
     * counted from the end of the instruction; a distance above
     * `u16::MAX` is reported and stored truncated.
     */
    method EmitLoop(loopStart: nat)
      requires Valid() && loopStart <= |chunk.code| + 1
      modifies parser, chunk
      ensures Valid()
      ensures chunk.code == LoopCode(old(chunk.code), loopStart)
      ensures chunk.lines == old(chunk.lines) + Copies(3, parser.previous.line)
      ensures chunk.constants == old(chunk.constants)
      ensures parser.current == old(parser.current) && parser.previous == old(parser.previous)
      ensures parser.hadError == (old(parser.hadError) || LoopDistance(old(chunk.code), loopStart) > U16_MAX)
      ensures LoopDistance(old(chunk.code), loopStart) <= U16_MAX ==>
              JumpTarget(chunk.code, |old(chunk.code)|) == loopStart
    {
      EmitBytes([Op.Encode(Op.Loop)]);
      var offset := |chunk.code| - loopStart + 2;
      assert offset == LoopDistance(old(chunk.code), loopStart);
      if offset > U16_MAX {
        parser.Error(LOOP_TOO_LARGE);
      }
      EmitBytes(U16BigEndian(offset));
      assert chunk.code == old(chunk.code) + [Op.Encode(Op.Loop)] + U16BigEndian(offset);
      if offset <= U16_MAX {
        EmittedLoopLands(old(chunk.code), loopStart);
      }
    }

    /**
     * `make_constant`: adds the value to the pool and returns its index.
     * An index that does not fit in a byte is reported and 0 returned.
     */
    method MakeConstant(value: Value) returns (index: u8)
      requires Valid()
      modifies parser, chunk
      ensures Valid()
      ensures chunk.constants.items == old(chunk.constants.items) + [value]
      ensures chunk.code == old(chunk.code) && chunk.lines == old(chunk.lines)
      ensures parser.current == old(parser.current) && parser.previous == old(parser.previous)
      ensures |old(chunk.constants.items)| <= U8_MAX ==>
              index == |old(chunk.constants.items)| && chunk.constants.items[index] == value
      ensures |old(chunk.constants.items)| > U8_MAX ==> index == 0
      ensures parser.hadError == (old(parser.hadError) || |old(chunk.constants.items)| > U8_MAX)
    {
      var constant := chunk.AddConstant(value);
      if constant > U8_MAX {
        parser.Error(TOO_MANY_CONSTANTS);
        return 0;
      }
      return constant;
    }

    /** `emit_constant`: Constant and the value's pool index. */
    method EmitConstant(value: Value)
      requires Valid()
      modifies parser, chunk
      ensures Valid()
      ensures chunk.constants.items == old(chunk.constants.items) + [value]
      ensures |chunk.code| == |old(chunk.code)| + 2 && chunk.code[..|old(chunk.code)|] == old(chunk.code)
      ensures chunk.code[|old(chunk.code)|] == Op.Encode(Op.Constant)
      ensures chunk.lines == old(chunk.lines) + Copies(2, parser.previous.line)
      ensures |old(chunk.constants.items)| <= U8_MAX ==>
              chunk.code[|old(chunk.code)| + 1] == |old(chunk.constants.items)|
      ensures parser.current == old(parser.current) && parser.previous == old(parser.previous)
      ensures parser.hadError == (old(parser.hadError) || |old(chunk.constants.items)| > U8_MAX)
    {
      var constant := MakeConstant(value);
      EmitBytes([Op.Encode(Op.Constant), constant]);
    }

    /** `identifier_constant`: the name, as a string object, in the constant pool. */
    method IdentifierConstant(name: seq<char>) returns (index: u8)
      requires Valid()
      modifies parser, chunk
      ensures Valid()
      ensures chunk.constants.items == old(chunk.constants.items) + [FromObjString(allocateString(name))]
      ensures chunk.code == old(chunk.code) && chunk.lines == old(chunk.lines)
      ensures parser.current == old(parser.current) && parser.previous == old(parser.previous)
      ensures |old(chunk.constants.items)| <= U8_MAX ==> index == |old(chunk.constants.items)|
      ensures parser.hadError == (old(parser.hadError) || |old(chunk.constants.items)| > U8_MAX)
    {
      index := MakeConstant(FromObjString(allocateString(name)));
    }

    // ----- Locals and scopes --------------------------------------------

    /** `begin_scope`. */
    method BeginScope()
      modifies current
      ensures current.scopeDepth == old(current.scopeDepth) + 1 && current.locals == old(current.locals)
    {
      current.scopeDepth := current.scopeDepth + 1;
    }

    /**
     * `end_scope`: back to the enclosing depth, dropping the trailing locals
     * deeper than it and emitting one Pop for each; the locals below stay.
     * The loop counts the locals to drop and the Pops are written after it:
     * the same bytes, on the same line, as one `emit_byte` per iteration.
     */
    method EndScope()
      requires Valid() && current.Valid() && current.scopeDepth > 0
      modifies current, chunk
      ensures Valid() && current.Valid()
      ensures current.scopeDepth == old(current.scopeDepth) - 1
      ensures current.locals == old(current.locals)[..SurvivorCount(old(current.locals), current.scopeDepth)]
      ensures chunk.code == old(chunk.code) + Pops(|old(current.locals)| - |current.locals|)
      ensures chunk.lines == old(chunk.lines) + Copies(|old(current.locals)| - |current.locals|, parser.previous.line)
      ensures chunk.constants == old(chunk.constants)
    {
      var depth := current.scopeDepth - 1;
      var locals := current.locals;
      var n: nat := |locals|;
      while n > 0 && Deeper(locals[n - 1], depth)
        invariant 0 <= n <= |locals|
        invariant forall i :: n <= i < |locals| ==> Deeper(locals[i], depth)
        decreases n
      {
        n := n - 1;
      }
      SurvivorCountStop(locals, depth, n);
      EmitBytes(Pops(|locals| - n));
      current.scopeDepth, current.locals := depth, locals[..n];
    }

    /** `add_local`: a new, not yet defined local, unless 255 already exist. */
    method AddLocal(name: seq<char>)
      requires Valid() && current.Valid()
      modifies current, parser
      ensures Valid() && current.Valid()
      ensures current.locals == if |old(current.locals)| == MAX_LOCALS then old(current.locals) else old(current.locals) + [Local(name, None)]
      ensures parser.hadError == (old(parser.hadError) || |old(current.locals)| == MAX_LOCALS)
      ensures current.scopeDepth == old(current.scopeDepth)
      ensures parser.current == old(parser.current) && parser.previous == old(parser.previous)
    {
      if |current.locals| == MAX_LOCALS {
        parser.Error(TOO_MANY_LOCALS);
        return;
      }
      current.locals := current.locals + [Local(name, None)];
    }

    /**
     * The loop of `declare_variable`: from the newest local down to the
     * first one of an enclosing scope, looks for a local named `name`.
     * (The source reports each one it meets; every report after the first
     * falls in panic mode and changes nothing, so one report is the same.)
     */
    static method InScope(name: seq<char>, scope: seq<Local>, depth: nat) returns (found: bool)
      ensures found == Redeclares(scope, name, depth)
    {
      found := false;
      var i: nat := |scope|;
      while i > 0
        invariant i <= |scope|
        invariant forall j :: i <= j < |scope| ==> !(scope[j].depth.Some? && scope[j].depth.value < depth)
        invariant found == NamedFrom(scope, name, i)
        decreases i
      {
        var local := scope[i - 1];
        if local.depth.Some? && local.depth.value < depth {
          break;
        }
        NamedFromStep(scope, name, i);
        if name == local.name {
          found := true;
        }
        i := i - 1;
      }
      ScopeStartStop(scope, depth, i);
    }

    /**
     * `declare_variable`: in a local scope, reports a name already declared
     * in the same scope and adds the name as a new local; at global scope,
     * does nothing.
     */
    method DeclareVariable()
      requires Valid() && current.Valid()
      modifies current, parser
      ensures Valid() && current.Valid()
      ensures current.scopeDepth == old(current.scopeDepth)
      ensures parser.current == old(parser.current) && parser.previous == old(parser.previous)
      ensures current.scopeDepth == 0 ==> current.locals == old(current.locals) && parser.hadError == old(parser.hadError)
      ensures current.scopeDepth > 0 ==>
        var name := parser.previous.lexeme;
        current.locals == (if |old(current.locals)| == MAX_LOCALS then old(current.locals) else old(current.locals) + [Local(name, None)]) &&
        parser.hadError == (old(parser.hadError) || Redeclares(old(current.locals), name, current.scopeDepth) || |old(current.locals)| == MAX_LOCALS)
    {
      if current.scopeDepth == 0 {
        return;
      }
      var name := parser.previous.lexeme;
      var redeclared := InScope(name, current.locals, current.scopeDepth);
      if redeclared {
        parser.Error(ALREADY_DECLARED);
      }
      AddLocal(name);
    }

    /**
     * `resolve_local`: the highest slot holding `name`, reporting a read of
     * a local inside its own initializer; None when no local has the name.
     */
    method ResolveLocal(name: seq<char>) returns (slot: Option<nat>)
      requires Valid() && current.Valid()
      modifies parser
      ensures Valid()
      ensures slot == LastIndexOf(current.locals, name)
      ensures slot.Some? ==> slot.value < MAX_LOCALS
      ensures parser.hadError == (old(parser.hadError) || (slot.Some? && current.locals[slot.value].depth.None?))
      ensures parser.current == old(parser.current) && parser.previous == old(parser.previous)
    {
      var i := |current.locals|;
      while i > 0 && name != current.locals[i - 1].name
        invariant 0 <= i <= |current.locals|
        invariant forall j :: i <= j < |current.locals| ==> current.locals[j].name != name
        decreases i
      {
        i := i - 1;
      }
      LastIndexOfStop(current.locals, name, i);
      if i == 0 {
        return None;
      }
      if current.locals[i - 1].depth.None? {
        parser.Error(OWN_INITIALIZER);
      }
      return Some(i - 1);
    }

    // ----- Expressions ----------------------------------------------------

    /** `expression`: an expression at the loosest level. */
    method Expression()
      requires Valid() && current.Valid()
      modifies parser, parser.scanner, chunk
      ensures Extends()
      ensures old(parser.current.ty) != Eof ==> parser.Remaining() < old(parser.Remaining())
      decreases parser.Remaining(), 2
    {
      ParsePrecedence(Prec.Assignment);
    }

    /**
     * `parse_precedence`: one prefix expression, then every infix operator
     * that binds at least as tightly as `prec`. A token with no prefix rule
     * is reported as "Expect expression". Only an expression parsed at the
     * loosest levels may be an assignment target.
     */
    method ParsePrecedence(prec: Prec.Precedence)
      requires Valid() && current.Valid() && prec != Prec.None
      modifies parser, parser.scanner, chunk
      ensures Extends()
      ensures old(parser.current.ty) != Eof ==> parser.Remaining() < old(parser.Remaining())
      ensures Prec.GetRule(old(parser.current.ty)).prefix.None? ==> parser.hadError
      ensures Prec.GetRule(old(parser.current.ty)).prefix.Some? ==>
              Prec.Level(Prec.GetRule(parser.current.ty).precedence) < Prec.Level(prec)
      decreases parser.Remaining(), 1
    {
      var canAssign := Prec.CanAssign(prec);
      var parsed := PrefixExpression(canAssign);
      if parsed {
        InfixOperators(prec, canAssign);
      }
    }

    /**
     * The start of `parse_precedence`: consumes a token and compiles it
     * with its prefix rule, or reports "Expect expression" when it has none.
     */
    method PrefixExpression(canAssign: bool) returns (parsed: bool)
      requires Valid() && current.Valid()
      modifies parser, parser.scanner, chunk
      ensures Extends()
      ensures parsed <==> Prec.GetRule(old(parser.current.ty)).prefix.Some?
      ensures !parsed ==> parser.hadError
      ensures old(parser.current.ty) != Eof ==> parser.Remaining() < old(parser.Remaining())
      decreases parser.Remaining(), 0
    {
      parser.Advance();
      RuleHandles(parser.previous.ty);
      var prefixRule := Prec.GetRule(parser.previous.ty).prefix;
      if prefixRule.None? {
        parser.Error(EXPECT_EXPRESSION);
        return false;
      }
      Dispatch(prefixRule.value, canAssign);
      return true;
    }

    /**
     * The loop of `parse_precedence`: while the next token is an infix
     * operator binding at least as tightly as `prec`, consumes it and
     * compiles its right-hand side.
     */
    method InfixOperators(prec: Prec.Precedence, canAssign: bool)
      requires Valid() && current.Valid() && prec != Prec.None
      modifies parser, parser.scanner, chunk
      ensures Extends()
      ensures Prec.Level(Prec.GetRule(parser.current.ty).precedence) < Prec.Level(prec)
      decreases parser.Remaining(), 0
    {
      while Prec.AtMost(prec, Prec.GetRule(parser.current.ty).precedence)
        invariant Extends()
        decreases parser.Remaining()
      {
        Prec.RuleTableSafe(parser.current.ty);
        parser.Advance();
        RuleHandles(parser.previous.ty);
        var infixRule := Prec.GetRule(parser.previous.ty).infix;
        Dispatch(infixRule.value, canAssign);
      }
    }

    /** Calls the parse function a rule names (`prefix_rule(self, can_assign)`). */
    method Dispatch(f: Prec.ParseFn, canAssign: bool)
      requires Valid() && current.Valid() && Handles(f, parser.previous.ty)
      modifies parser, parser.scanner, chunk
      ensures Extends()
      decreases parser.Remaining(), 6
    {
      match f
      case Grouping => Grouping();
      case UnaryOp => Unary();
      case BinaryOp => Binary();
      case Variable => Variable(canAssign);
      case StringLit => StringLiteral();
      case NumberLit => Number();
      case Literal => Literal();
      case AndOp => And();
      case OrOp => Or();
    }

    /**
     * `binary`: the right operand one level tighter than the operator (so
     * operators of one level associate to the left), then the operator's
     * opcodes.
     */
    method Binary()
      requires Valid() && current.Valid() && Prec.IsBinaryOperator(parser.previous.ty)
      modifies parser, parser.scanner, chunk
      ensures Extends()
      ensures var ops := EncodeAll(Prec.BinaryOpcodes(old(parser.previous.ty)));
        |old(chunk.code)| + |ops| <= |chunk.code| && chunk.code[|chunk.code| - |ops|..] == ops
      decreases parser.Remaining(), 3
    {
      var operator := parser.previous.ty;
      var rule := Prec.GetRule(operator);
      Prec.RuleTableSafe(operator);
      ParsePrecedence(Prec.Successor(rule.precedence));
      EmitBytes(EncodeAll(Prec.BinaryOpcodes(operator)));
    }

    /** `grouping`: an expression, then `)`. */
    method Grouping()
      requires Valid() && current.Valid()
      modifies parser, parser.scanner, chunk
      ensures Extends()
      decreases parser.Remaining(), 3
    {
      Expression();
      parser.Consume(Ty.RightParen, "Expect ')' after expression.");
    }

    /** `unary`: the operand at unary level, then Negate or Not. */
    method Unary()
      requires Valid() && current.Valid() && parser.previous.ty in {Minus, Bang}
      modifies parser, parser.scanner, chunk
      ensures Extends()
      ensures |old(chunk.code)| < |chunk.code| &&
              chunk.code[|chunk.code| - 1] == Op.Encode(UnaryOpcode(old(parser.previous.ty)))
      decreases parser.Remaining(), 3
    {
      var operator := parser.previous.ty;
      ParsePrecedence(Prec.Unary);
      EmitBytes([Op.Encode(UnaryOpcode(operator))]);
    }

    /** `literal`: Nil, True or False. */
    method Literal()
      requires Valid() && parser.previous.ty in {Ty.Nil, Ty.True, Ty.False}
      modifies parser, parser.scanner, chunk
      ensures Extends()
      ensures chunk.code == old(chunk.code) + [Op.Encode(LiteralOpcode(old(parser.previous.ty)))]
      decreases parser.Remaining(), 3
    {
      EmitBytes([Op.Encode(LiteralOpcode(parser.previous.ty))]);
    }

    /** `number`: the lexeme's value as a constant. */
    method Number()
      requires Valid()
      modifies parser, parser.scanner, chunk
      ensures Extends()
      ensures chunk.constants.items == old(chunk.constants.items) + [Double(ops.parse(old(parser.previous.lexeme)))]
      ensures chunk.code[..|old(chunk.code)|] == old(chunk.code) && |chunk.code| == |old(chunk.code)| + 2
      ensures chunk.code[|old(chunk.code)|] == Op.Encode(Op.Constant)
      decreases parser.Remaining(), 3
    {
      var value := ops.parse(parser.previous.lexeme);
      EmitConstant(Double(value));
    }

    /** `string`: the text between the quotes, as a string object, as a constant. */
    method StringLiteral()
      requires Valid() && parser.previous.ty == Ty.String
      modifies parser, parser.scanner, chunk
      ensures Extends()
      ensures var lexeme := old(parser.previous.lexeme);
        chunk.constants.items == old(chunk.constants.items) + [FromObjString(allocateString(lexeme[1..|lexeme| - 1]))]
      ensures chunk.code[..|old(chunk.code)|] == old(chunk.code) && |chunk.code| == |old(chunk.code)| + 2
      ensures chunk.code[|old(chunk.code)|] == Op.Encode(Op.Constant)
      decreases parser.Remaining(), 3
    {
      var lexeme := parser.previous.lexeme;
      var copied := lexeme[1..|lexeme| - 1];
      EmitConstant(FromObjString(allocateString(copied)));
    }

    /** `variable`. */
    method Variable(canAssign: bool)
      requires Valid() && current.Valid()
      modifies parser, parser.scanner, chunk
      ensures Extends()
      decreases parser.Remaining(), 5
    {
      NamedVariable(parser.previous.lexeme, canAssign);
    }

    /**
     * The first half of `named_variable`: a local's slot with GetLocal and
     * SetLocal when a local has the name, else the name as a global
     * constant with GetGlobal and SetGlobal.
     */
    method VariableOperands(name: seq<char>) returns (arg: u8, getOp: Op.Opcode, setOp: Op.Opcode)
      requires Valid() && current.Valid()
      modifies parser, chunk
      ensures Valid()
      ensures chunk.code == old(chunk.code) && chunk.lines == old(chunk.lines)
      ensures parser.current == old(parser.current) && parser.previous == old(parser.previous)
      ensures old(parser.hadError) ==> parser.hadError
      ensures var slot := LastIndexOf(current.locals, name);
        (slot.Some? ==> arg == slot.value && getOp == Op.GetLocal && setOp == Op.SetLocal &&
                        chunk.constants.items == old(chunk.constants.items)) &&
        (slot.None? ==> getOp == Op.GetGlobal && setOp == Op.SetGlobal &&
                        chunk.constants.items == old(chunk.constants.items) + [FromObjString(allocateString(name))] &&
                        (|old(chunk.constants.items)| <= U8_MAX ==> arg == |old(chunk.constants.items)|))
    {
      var slot := ResolveLocal(name);
      if slot.None? {
        arg := IdentifierConstant(name);
        getOp, setOp := Op.GetGlobal, Op.SetGlobal;
      } else {
        arg := slot.value;
        getOp, setOp := Op.GetLocal, Op.SetLocal;
      }
    }

    /**
     * `named_variable`: a Set when assignment is allowed and `=` follows
     * (with the assigned value compiled first), otherwise a Get, of a
     * local's slot when a local has the name and of the name as a global
     * constant otherwise.
     */
    method NamedVariable(name: seq<char>, canAssign: bool)
      requires Valid() && current.Valid()
      modifies parser, parser.scanner, chunk
      ensures Extends()
      ensures |old(chunk.code)| + 2 <= |chunk.code|
      ensures var slot := LastIndexOf(current.locals, name);
        var assigning := canAssign && old(parser.current.ty) == Ty.Equal;
        chunk.code[|chunk.code| - 2] ==
          Op.Encode(if slot.Some? then (if assigning then Op.SetLocal else Op.GetLocal)
                    else (if assigning then Op.SetGlobal else Op.GetGlobal)) &&
        (slot.Some? ==> chunk.code[|chunk.code| - 1] == slot.value) &&
        (slot.None? ==> |old(chunk.constants.items)| < |chunk.constants.items| &&
                        chunk.constants.items[|old(chunk.constants.items)|] == FromObjString(allocateString(name)) &&
                        (|old(chunk.constants.items)| <= U8_MAX ==> chunk.code[|chunk.code| - 1] == |old(chunk.constants.items)|))
      decreases parser.Remaining(), 4
    {
      var arg, getOp, setOp := VariableOperands(name);
      AssignOrRead(arg, getOp, setOp, canAssign);
    }

    /**
     * The second half of `named_variable`: when assignment is allowed and
     * `=` follows, the assigned value and then `setOp`; otherwise `getOp`;
     * either with its operand.
     */
    method AssignOrRead(arg: u8, getOp: Op.Opcode, setOp: Op.Opcode, canAssign: bool)
      requires Valid() && current.Valid()
      modifies parser, parser.scanner, chunk
      ensures Extends()
      ensures |old(chunk.code)| + 2 <= |chunk.code|
      ensures chunk.code[|chunk.code| - 2..] ==
        [Op.Encode(if canAssign && old(parser.current.ty) == Ty.Equal then setOp else getOp), arg]
      ensures !(canAssign && old(parser.current.ty) == Ty.Equal) ==> chunk.code == old(chunk.code) + [Op.Encode(getOp), arg]
      decreases parser.Remaining(), 3
    {
      var assign := false;
      if canAssign {
        assign := parser.Matches(Ty.Equal);
      }
      if assign {
        Expression();
        EmitBytes([Op.Encode(setOp), arg]);
      } else {
        EmitBytes([Op.Encode(getOp), arg]);
      }
    }

    /**
     * `and`: if the left operand is falsy, jump over the right one (leaving
     * the left value); otherwise pop it and evaluate the right one.
     */
    method And()
      requires Valid() && current.Valid()
      modifies parser, parser.scanner, chunk
      ensures Extends()
      ensures var at := |old(chunk.code)|;
        at + 4 <= |chunk.code| &&
        chunk.code[at] == Op.Encode(Op.JumpIfFalse) && chunk.code[at + 3] == Op.Encode(Op.Pop) &&
        (|chunk.code| - at - 3 <= U16_MAX ==> JumpTarget(chunk.code, at) == |chunk.code|)
      decreases parser.Remaining(), 3
    {
      var endJump := EmitJump(Op.JumpIfFalse);
      EmitBytes([Op.Encode(Op.Pop)]);
      ghost var before := chunk.code;
      ParsePrecedence(Prec.And);
      assert chunk.code[endJump - 1] == before[endJump - 1];
      PatchJump(endJump);
    }

    /**
     * `or`: if the left operand is falsy, jump to a Pop and the right
     * operand; otherwise jump over both, leaving the left value.
     */
    method Or()
      requires Valid() && current.Valid()
      modifies parser, parser.scanner, chunk
      ensures Extends()
      ensures var at := |old(chunk.code)|;
        at + 7 <= |chunk.code| &&
        chunk.code[at] == Op.Encode(Op.JumpIfFalse) && JumpTarget(chunk.code, at) == at + 6 &&
        chunk.code[at + 3] == Op.Encode(Op.Jump) && chunk.code[at + 6] == Op.Encode(Op.Pop) &&
        (|chunk.code| - at - 6 <= U16_MAX ==> JumpTarget(chunk.code, at + 3) == |chunk.code|)
      decreases parser.Remaining(), 3
    {
      var endJump := OrJumps();
      ghost var before := chunk.code;
      ghost var beforeLines := chunk.lines;
      ghost var at := endJump - 4;
      ParsePrecedence(Prec.Or);
      ghost var parsed := chunk.code;
      ghost var parsedLines := chunk.lines;
      assert parsed[at..at + 7] == OrPrologue() by {
        assert parsed[..|before|] == before;
      }
      PatchJump(endJump);
      OrPatchedShape(parsed, at);
      assert old(chunk.lines) <= chunk.lines by {
        assert old(chunk.lines) <= beforeLines <= parsedLines == chunk.lines;
      }
    }

    /**
     * The part of `or` before its right operand: the jump over the else
     * jump, already patched to land on the Pop, the else jump with its
     * placeholder, and the Pop.
     */
    method OrJumps() returns (endJump: nat)
      requires Valid()
      modifies parser, chunk
      ensures Valid()
      ensures chunk.code == old(chunk.code) + OrPrologue()
      ensures chunk.lines == old(chunk.lines) + Copies(7, parser.previous.line)
      ensures endJump == |old(chunk.code)| + 4
      ensures chunk.constants == old(chunk.constants)
      ensures parser.current == old(parser.current) && parser.previous == old(parser.previous)
      ensures parser.hadError == old(parser.hadError)
    {
      ghost var code := chunk.code;
      ghost var lines := chunk.lines;
      var elseJump := EmitJump(Op.JumpIfFalse);
      endJump := EmitJump(Op.Jump);
      ghost var placed := chunk.code;
      PatchOrElseJump(code);
      PatchJump(elseJump);
      ghost var patched := chunk.code;
      assert patched == PatchedCode(placed, |code| + 1);
      EmitBytes([Op.Encode(Op.Pop)]);
      assert chunk.lines == lines + Copies(3, parser.previous.line) + Copies(3, parser.previous.line) + Copies(1, parser.previous.line);
    }
  }
}
