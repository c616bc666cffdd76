/**
 * The disassembler (debug.rs) without its printing: how far each instruction
 * reaches, where a jump lands, and the walk over a whole chunk.
 */
module Debug {
  import opened Bytes
  import opened Wrappers
  import opened Opcodes
  import opened Chunks

  /** Opcodes printed by `simple_instruction`: no operand. */
  predicate IsSimple(op: Opcode) {
    op in {Nil, True, False, Pop, Equal, Greater, Less, Add, Subtract, Multiply,
           Divide, Not, Negate, Print, Return}
  }

  /** Opcodes whose one operand byte indexes the constant pool. */
  predicate IsConstantOperand(op: Opcode) {
    op in {Constant, GetGlobal, DefineGlobal, SetGlobal}
  }

  /** Opcodes whose one operand byte is a stack slot (`byte_instruction`). */
  predicate IsSlotOperand(op: Opcode) {
    op in {GetLocal, SetLocal}
  }

  /** Opcodes with a two-byte big-endian jump distance (`jump_instruction`). */
  predicate IsJump(op: Opcode) {
    op in {Jump, JumpIfFalse, Loop}
  }

  /** Every opcode falls into exactly one of the four shapes. */
  lemma ShapesPartitionOpcodes(op: Opcode)
    ensures IsSimple(op) || IsConstantOperand(op) || IsSlotOperand(op) || IsJump(op)
    ensures !(IsSimple(op) && (IsConstantOperand(op) || IsSlotOperand(op) || IsJump(op)))
    ensures !(IsConstantOperand(op) && (IsSlotOperand(op) || IsJump(op)))
    ensures !(IsSlotOperand(op) && IsJump(op))
  {
  }

  /**
   * The operands `disassemble_instruction` reads at `offset` exist: operand
   * bytes lie inside the code and a constant index lies inside the pool.
   */
  predicate OperandsReadable(code: seq<u8>, constantCount: nat, offset: nat)
    requires offset < |code|
  {
    match Decode(code[offset])
    case None => true
    case Some(op) =>
      if IsConstantOperand(op) then offset + 2 <= |code| && code[offset + 1] < constantCount
      else if IsSlotOperand(op) then offset + 2 <= |code|
      else if IsJump(op) then offset + 3 <= |code|
      else true
  }

  /** The offset `disassemble_instruction` returns for the instruction at `offset`. */
  function NextOffset(code: seq<u8>, offset: nat): (next: nat)
    requires offset < |code|
    ensures Decode(code[offset]).None? ==> next == offset + 1
    ensures Decode(code[offset]).Some? && IsSimple(Decode(code[offset]).value) ==> next == offset + 1
    ensures Decode(code[offset]).Some? && IsConstantOperand(Decode(code[offset]).value) ==> next == offset + 2
    ensures Decode(code[offset]).Some? && IsSlotOperand(Decode(code[offset]).value) ==> next == offset + 2
    ensures Decode(code[offset]).Some? && IsJump(Decode(code[offset]).value) ==> next == offset + 3
  {
    match Decode(code[offset])
    case None => offset + 1
    case Some(op) =>
      if IsConstantOperand(op) || IsSlotOperand(op) then offset + 2
      else if IsJump(op) then offset + 3
      else offset + 1
  }

  /** A readable instruction never reaches past the end of the code. */
  lemma NextOffsetWithinCode(code: seq<u8>, constantCount: nat, offset: nat)
    requires offset < |code| && OperandsReadable(code, constantCount, offset)
    ensures offset < NextOffset(code, offset) <= |code|
  {
  }

  /** The 16-bit distance stored big-endian after a jump opcode. */
  function JumpDistance(code: seq<u8>, offset: nat): (d: nat)
    requires offset + 3 <= |code|
    ensures d <= U16_MAX
    ensures U16BigEndian(d) == code[offset + 1..offset + 3]
  {
    var d := BigEndian(code[offset + 1], code[offset + 2]);
    assert U16BigEndian(d)[0] == code[offset + 1];
    d
  }

  /**
   * The target `jump_instruction` prints: `offset + 3 + distance` forward for
   * Jump and JumpIfFalse, `offset + 3 - distance` backward for Loop.
   */
  function JumpTarget(code: seq<u8>, offset: nat): (target: int)
    requires offset + 3 <= |code|
    requires Decode(code[offset]).Some? && IsJump(Decode(code[offset]).value)
    ensures Decode(code[offset]) == Some(Loop) ==> target <= offset + 3
    ensures Decode(code[offset]) != Some(Loop) ==> target >= offset + 3
    ensures offset + 3 - U16_MAX <= target <= offset + 3 + U16_MAX
  {
    var sign := if Decode(code[offset]) == Some(Loop) then -1 else 1;
    offset + 3 + sign * JumpDistance(code, offset)
  }

  /** The walk `disassemble_chunk` makes: from `offset`, every readable instruction in turn. */
  predicate ReadableFrom(code: seq<u8>, constantCount: nat, offset: nat)
    decreases |code| - offset
  {
    offset < |code| ==>
      OperandsReadable(code, constantCount, offset) &&
      (NextOffsetWithinCode(code, constantCount, offset);
       ReadableFrom(code, constantCount, NextOffset(code, offset)))
  }

  /** The offsets of the instructions met walking from `offset` to the end. */
  function InstructionStarts(code: seq<u8>, constantCount: nat, offset: nat): (starts: seq<nat>)
    requires ReadableFrom(code, constantCount, offset)
    decreases |code| - offset
  {
    if offset < |code| then
      NextOffsetWithinCode(code, constantCount, offset);
      [offset] + InstructionStarts(code, constantCount, NextOffset(code, offset))
    else []
  }

  /** Strictly increasing offsets, all in `[lo, hi)`. */
  predicate Increasing(s: seq<nat>, lo: nat, hi: nat) {
    (forall i :: 0 <= i < |s| ==> lo <= s[i] < hi) &&
    (forall i, j :: 0 <= i < j < |s| ==> s[i] < s[j])
  }

  /**
   * The walk starts at `offset`, visits strictly increasing offsets inside
   * the code, and each visited offset is the previous one's `NextOffset`.
   */
  lemma {:induction false} InstructionStartsIncreasing(code: seq<u8>, constantCount: nat, offset: nat)
    requires ReadableFrom(code, constantCount, offset)
    ensures var s := InstructionStarts(code, constantCount, offset);
      Increasing(s, offset, |code|) &&
      (offset < |code| ==> |s| > 0 && s[0] == offset) &&
      (forall i :: 0 <= i < |s| - 1 ==> s[i + 1] == NextOffset(code, s[i]))
    decreases |code| - offset
  {
    if offset < |code| {
      NextOffsetWithinCode(code, constantCount, offset);
      var next := NextOffset(code, offset);
      InstructionStartsIncreasing(code, constantCount, next);
      var rest := InstructionStarts(code, constantCount, next);
      var s := InstructionStarts(code, constantCount, offset);
      assert s == [offset] + rest;
      assert forall i :: 1 <= i < |s| ==> s[i] == rest[i - 1];
      if |rest| > 0 {
        assert s[1] == next;
      }
    }
  }

  lemma StartsUnfold(code: seq<u8>, constantCount: nat, offset: nat)
    requires offset < |code| && ReadableFrom(code, constantCount, offset)
    ensures NextOffset(code, offset) <= |code|
    ensures ReadableFrom(code, constantCount, NextOffset(code, offset))
    ensures InstructionStarts(code, constantCount, offset)
         == [offset] + InstructionStarts(code, constantCount, NextOffset(code, offset))
  {
    NextOffsetWithinCode(code, constantCount, offset);
  }

  lemma StepVisited(visited: seq<nat>, offset: nat, rest: seq<nat>)
    ensures visited + ([offset] + rest) == (visited + [offset]) + rest
  {
  }

  /**
   * `disassemble_chunk` without the printing: the offsets it passes to
   * `disassemble_instruction`, in order.
   */
  method DisassembleChunk<V>(chunk: Chunk<V>) returns (visited: seq<nat>)
    requires chunk.Valid()
    requires ReadableFrom(chunk.code, |chunk.constants.items|, 0)
    ensures visited == InstructionStarts(chunk.code, |chunk.constants.items|, 0)
    ensures Increasing(visited, 0, |chunk.code|)
    ensures |chunk.code| > 0 ==> |visited| > 0 && visited[0] == 0
  {
    visited := WalkInstructions(chunk.code, |chunk.constants.items|);
    InstructionStartsIncreasing(chunk.code, |chunk.constants.items|, 0);
  }

  /** The loop of `disassemble_chunk`: each offset, then the one after its instruction. */
  method WalkInstructions(code: seq<u8>, count: nat) returns (visited: seq<nat>)
    requires ReadableFrom(code, count, 0)
    ensures visited == InstructionStarts(code, count, 0)
  {
    ghost var all := InstructionStarts(code, count, 0);
    var offset: nat := 0;
    visited := [];
    while offset < |code|
      invariant offset <= |code|
      invariant ReadableFrom(code, count, offset)
      invariant visited + InstructionStarts(code, count, offset) == all
      decreases |code| - offset
    {
      var next := NextOffset(code, offset);
      StartsUnfold(code, count, offset);
      StepVisited(visited, offset, InstructionStarts(code, count, next));
      visited := visited + [offset];
      offset := next;
    }
    assert InstructionStarts(code, count, offset) == [];
    assert visited == all;
  }

}
