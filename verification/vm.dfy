/**
 * The toy stack machine of vm.rs: it runs a chunk of `f64` constants
 * (value.rs's `Value` newtype) one instruction at a time, reading bytes
 * through an instruction pointer and keeping a stack of numbers. It knows
 * only the seven opcodes declared in chunk.rs.
 */
module Vm {
  import opened Bytes
  import opened Wrappers
  import opened Float
  import opened Opcodes
  import opened Chunks

  /** `InterpretError`. */
  datatype InterpretError = Compile | Runtime

  /**
   * How a run ends: Return printed the popped value and left the rest of
   * the stack; an undecodable byte is a runtime error; an empty-stack pop,
   * a read past the code or a constant index past the pool panics in the
   * source (an `unwrap` or an index out of bounds).
   */
  datatype Outcome = Returned(printed: F64, stack: seq<F64>) | Failed(error: InterpretError) | Panicked

  /** One turn of the `run` loop: either the machine state after it, or how the run ends. */
  datatype Turn = Continue(ip: nat, stack: seq<F64>) | Stop(outcome: Outcome)

  /** `binary_op!`: pops `a` (the top), then `b`, and pushes `a op b`. */
  function BinaryTurn(f: (F64, F64) -> F64, ip: nat, stack: seq<F64>): (t: Turn)
    ensures t.Continue? <==> |stack| >= 2
  {
    if |stack| < 2 then Stop(Panicked)
    else
      var a := stack[|stack| - 1];
      var b := stack[|stack| - 2];
      Continue(ip + 1, stack[..|stack| - 2] + [f(a, b)])
  }

  /** The four opcodes `binary_op!` handles. */
  predicate IsArithmetic(op: Opcode) {
    op in {Add, Subtract, Multiply, Divide}
  }

  /** The `Value` operator each arithmetic opcode applies. */
  function Arithmetic(ops: FloatOps, op: Opcode): (F64, F64) -> F64
    requires IsArithmetic(op)
  {
    match op
    case Add => ops.add
    case Subtract => ops.sub
    case Multiply => ops.mul
    case Divide => ops.div
  }

  /**
   * The instruction at `ip`, as the `match` of `run` executes it. Every
   * turn that continues moves the instruction pointer forward, at most to
   * the end of the code.
   */
  function Step(code: seq<u8>, constants: seq<F64>, ops: FloatOps, ip: nat, stack: seq<F64>): (t: Turn)
    ensures t.Continue? ==> ip < t.ip <= |code|
  {
    if ip >= |code| then Stop(Panicked)
    else match DecodeVm(code[ip])
      case None => Stop(Failed(Runtime))
      case Some(op) =>
        if op == Constant then
          if ip + 1 < |code| && code[ip + 1] < |constants| then
            Continue(ip + 2, stack + [constants[code[ip + 1]]])
          else Stop(Panicked)
        else if IsArithmetic(op) then BinaryTurn(Arithmetic(ops, op), ip, stack)
        else if op == Negate then
          if |stack| >= 1 then Continue(ip + 1, stack[..|stack| - 1] + [ops.neg(stack[|stack| - 1])])
          else Stop(Panicked)
        else if |stack| >= 1 then Stop(Returned(stack[|stack| - 1], stack[..|stack| - 1]))
        else Stop(Panicked)
  }

  /** `run` from instruction pointer `ip` with stack `stack`: turns until one stops. */
  function Exec(code: seq<u8>, constants: seq<F64>, ops: FloatOps, ip: nat, stack: seq<F64>): (o: Outcome)
    decreases |code| - ip
  {
    match Step(code, constants, ops, ip, stack)
    case Continue(next, after) => Exec(code, constants, ops, next, after)
    case Stop(o) => o
  }

  /** The result `run` returns for an outcome that does not panic. */
  function RunResult(o: Outcome): (r: Result<(), InterpretError>)
    requires !o.Panicked?
    ensures r.Ok? <==> o.Returned?
  {
    match o
    case Returned(_, _) => Ok(())
    case Failed(e) => Err(e)
  }

  // ----- What one instruction does ---------------------------------------

  /** Constant pushes the pool entry its operand names and moves past the operand. */
  lemma ConstantTurn(code: seq<u8>, constants: seq<F64>, ops: FloatOps, ip: nat, stack: seq<F64>)
    requires ip + 1 < |code| && code[ip] == Encode(Constant) && code[ip + 1] < |constants|
    ensures Step(code, constants, ops, ip, stack) == Continue(ip + 2, stack + [constants[code[ip + 1]]])
  {
    DecodeEncode(Constant);
    DeclaredDiscriminants();
  }

  /**
   * The four arithmetic opcodes pop two numbers and push one, so the stack
   * shrinks by exactly one; the first value popped (the top) is the left
   * operand.
   */
  lemma ArithmeticTurn(code: seq<u8>, constants: seq<F64>, ops: FloatOps, ip: nat, stack: seq<F64>, op: Opcode)
    requires ip < |code| && IsArithmetic(op) && code[ip] == Encode(op) && |stack| >= 2
    ensures var t := Step(code, constants, ops, ip, stack);
      var top, second := stack[|stack| - 1], stack[|stack| - 2];
      t.Continue? && t.ip == ip + 1 && |t.stack| == |stack| - 1 &&
      t.stack[..|stack| - 2] == stack[..|stack| - 2] && t.stack[|stack| - 2] == Arithmetic(ops, op)(top, second)
  {
    DecodeEncode(op);
    DeclaredDiscriminants();
  }

  /** Negate replaces the top value by its negation; the height stays. */
  lemma NegateTurn(code: seq<u8>, constants: seq<F64>, ops: FloatOps, ip: nat, stack: seq<F64>)
    requires ip < |code| && code[ip] == Encode(Negate) && |stack| >= 1
    ensures var t := Step(code, constants, ops, ip, stack);
      t.Continue? && t.ip == ip + 1 && |t.stack| == |stack| &&
      t.stack[..|stack| - 1] == stack[..|stack| - 1] && t.stack[|stack| - 1] == ops.neg(stack[|stack| - 1])
  {
    DeclaredDiscriminants();
  }

  /** Return pops one value and ends the run with `Ok`. */
  lemma ReturnTurn(code: seq<u8>, constants: seq<F64>, ops: FloatOps, ip: nat, stack: seq<F64>)
    requires ip < |code| && code[ip] == Encode(Return) && |stack| >= 1
    ensures Step(code, constants, ops, ip, stack) == Stop(Returned(stack[|stack| - 1], stack[..|stack| - 1]))
    ensures RunResult(Exec(code, constants, ops, ip, stack)) == Ok(())
  {
    DeclaredDiscriminants();
  }

  /**
   * A byte that is none of the seven opcodes ends the run with a runtime
   * error (this includes every opcode only the compiler knows).
   */
  lemma UnknownByteTurn(code: seq<u8>, constants: seq<F64>, ops: FloatOps, ip: nat, stack: seq<F64>)
    requires ip < |code| && code[ip] > 6
    ensures Step(code, constants, ops, ip, stack) == Stop(Failed(Runtime))
    ensures RunResult(Exec(code, constants, ops, ip, stack)) == Err(Runtime)
  {
  }

  /**
   * A chunk the compiler could produce for `-(1 + 2)` style arithmetic
   * runs to Return: `Constant 0, Constant 1, Add, Negate, Return` leaves
   * `-(c1 + c0)` as the printed value and an empty stack.
   */
  lemma SampleRun(ops: FloatOps, c0: F64, c1: F64)
    ensures Exec([0, 0, 0, 1, 1, 5, 6], [c0, c1], ops, 0, []) == Returned(ops.neg(ops.add(c1, c0)), [])
  {
    var code: seq<u8> := [0, 0, 0, 1, 1, 5, 6];
    DeclaredDiscriminants();
    ConstantTurn(code, [c0, c1], ops, 0, []);
    ConstantTurn(code, [c0, c1], ops, 2, [c0]);
    assert Step(code, [c0, c1], ops, 4, [c0, c1]) == Continue(5, [ops.add(c1, c0)]);
    assert Step(code, [c0, c1], ops, 5, [ops.add(c1, c0)]) == Continue(6, [ops.neg(ops.add(c1, c0))]);
  }

  // ----- The machine ---------------------------------------------------

  /** `VM`: the chunk it runs, the instruction pointer into its code, and the stack. */
  class VM {
    const chunk: Chunk<F64>
    /** The `f64` operations the `Value` operators call. */
    const ops: FloatOps
    /** Index of the next byte the `ip` iterator yields. */
    var ip: nat
    var stack: seq<F64>

    /** `VM::new`: at the first byte, with an empty stack. */
    constructor (chunk: Chunk<F64>, ops: FloatOps)
      ensures this.chunk == chunk && this.ops == ops && ip == 0 && stack == []
    {
      this.chunk := chunk;
      this.ops := ops;
      ip := 0;
      stack := [];
    }

    /** `push`. */
    method Push(value: F64)
      modifies this
      ensures stack == old(stack) + [value] && ip == old(ip)
    {
      stack := stack + [value];
    }

    /** `pop`: the top value; the source unwraps, so the stack must not be empty. */
    method Pop() returns (value: F64)
      requires |stack| > 0
      modifies this
      ensures old(stack) == stack + [value] && ip == old(ip)
    {
      value := stack[|stack| - 1];
      stack := stack[..|stack| - 1];
    }

    /** `read_byte`: the next code byte; the source unwraps, so it must exist. */
    method ReadByte() returns (byte: u8)
      requires ip < |chunk.code|
      modifies this
      ensures byte == chunk.code[old(ip)] && ip == old(ip) + 1 && stack == old(stack)
    {
      byte := chunk.code[ip];
      ip := ip + 1;
    }

    /** `read_constant`: the pool entry the next byte names. */
    method ReadConstant() returns (value: F64)
      requires ip < |chunk.code| && chunk.code[ip] < |chunk.constants.items|
      modifies this
      ensures value == chunk.constants.items[chunk.code[old(ip)]]
      ensures ip == old(ip) + 1 && stack == old(stack)
    {
      var index := ReadByte();
      value := chunk.constants.items[index];
    }

    /**
     * One turn of the `run` loop: the instruction at `ip`, as `Step`
     * describes it. When it stops the run, `result` is what `run` returns.
     */
    method Turn() returns (stopped: bool, result: Result<(), InterpretError>)
      requires Step(chunk.code, chunk.constants.items, ops, ip, stack) != Stop(Panicked)
      modifies this
      ensures match Step(chunk.code, chunk.constants.items, ops, old(ip), old(stack))
        case Continue(next, after) => !stopped && ip == next && stack == after
        case Stop(o) => stopped && result == RunResult(o) && (o.Returned? ==> stack == o.stack)
    {
      stopped := false;
      result := Ok(());
      var byte := ReadByte();
      var op := DecodeVm(byte);
      if op.None? {
        return true, Err(Runtime);
      }
      match op.value
      case Constant =>
        var constant := ReadConstant();
        Push(constant);
      case Add => BinaryOp(ops.add);
      case Subtract => BinaryOp(ops.sub);
      case Multiply => BinaryOp(ops.mul);
      case Divide => BinaryOp(ops.div);
      case Negate =>
        var value := Pop();
        Push(ops.neg(value));
      case Return =>
        var _ := Pop();
        stopped := true;
      case _ =>
        assert false;
    }

    /** `binary_op!`: `a` is popped first, then `b`, and `a op b` is pushed. */
    method BinaryOp(f: (F64, F64) -> F64)
      requires |stack| >= 2
      modifies this
      ensures var n := |old(stack)|;
        stack == old(stack)[..n - 2] + [f(old(stack)[n - 1], old(stack)[n - 2])] && ip == old(ip)
    {
      var a := Pop();
      var b := Pop();
      Push(f(a, b));
    }

    /**
     * `run`: turns until Return or an undecodable byte. The source panics
     * on an empty-stack pop or a read past the code, so the run this
     * chunk makes must not come to either.
     */
    method Run() returns (result: Result<(), InterpretError>)
      requires !Exec(chunk.code, chunk.constants.items, ops, ip, stack).Panicked?
      modifies this
      ensures result == RunResult(Exec(chunk.code, chunk.constants.items, ops, old(ip), old(stack)))
      ensures var o := Exec(chunk.code, chunk.constants.items, ops, old(ip), old(stack));
        o.Returned? ==> stack == o.stack
    {
      var code, constants := chunk.code, chunk.constants.items;
      var stopped := false;
      result := Ok(());
      while !stopped
        invariant !stopped ==> Exec(code, constants, ops, ip, stack) == Exec(code, constants, ops, old(ip), old(stack))
        invariant stopped ==> var o := Exec(code, constants, ops, old(ip), old(stack));
          result == RunResult(o) && (o.Returned? ==> stack == o.stack)
        decreases !stopped, |code| - ip
      {
        stopped, result := Turn();
      }
    }
  }

  /** `VM::intepret`: a new machine on the chunk, run from its first byte. */
  method Interpret(chunk: Chunk<F64>, ops: FloatOps) returns (result: Result<(), InterpretError>)
    requires !Exec(chunk.code, chunk.constants.items, ops, 0, []).Panicked?
    ensures result == RunResult(Exec(chunk.code, chunk.constants.items, ops, 0, []))
  {
    var vm := new VM(chunk, ops);
    result := vm.Run();
  }
}
