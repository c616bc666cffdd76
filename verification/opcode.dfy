/**
 * Instruction opcodes of the bytecode virtual machine and their one-byte
 * encoding (`Opcode as u8` and its inverse `Opcode::try_from(u8)`).
 *
 * The enum in chunk.rs declares seven opcodes, numbered 0..6 in declaration
 * order. The compiler and the disassembler use seventeen more; this model
 * gives them the bytes 7..23 in the order the disassembler lists them.
 */
module Opcodes {
  import opened Bytes
  import opened Wrappers

  datatype Opcode =
    | Constant | Add | Subtract | Multiply | Divide | Negate | Return
    | Nil | True | False | Pop
    | GetLocal | GetGlobal | DefineGlobal | SetLocal | SetGlobal
    | Equal | Greater | Less | Not | Print
    | Jump | JumpIfFalse | Loop

  /** Number of opcodes: every byte below this decodes. */
  const OPCODE_COUNT: nat := 24

  /** The discriminant, `op as u8`. */
  function Encode(op: Opcode): (b: u8)
    ensures b < OPCODE_COUNT
  {
    match op
    case Constant => 0
    case Add => 1
    case Subtract => 2
    case Multiply => 3
    case Divide => 4
    case Negate => 5
    case Return => 6
    case Nil => 7
    case True => 8
    case False => 9
    case Pop => 10
    case GetLocal => 11
    case GetGlobal => 12
    case DefineGlobal => 13
    case SetLocal => 14
    case SetGlobal => 15
    case Equal => 16
    case Greater => 17
    case Less => 18
    case Not => 19
    case Print => 20
    case Jump => 21
    case JumpIfFalse => 22
    case Loop => 23
  }

  /** `Opcode::try_from(byte)`: `None` for a byte that names no opcode. */
  function Decode(b: u8): (r: Option<Opcode>)
    ensures r.Some? <==> b < OPCODE_COUNT
    ensures r.Some? ==> Encode(r.value) == b
  {
    if b == 0 then Some(Constant)
    else if b == 1 then Some(Add)
    else if b == 2 then Some(Subtract)
    else if b == 3 then Some(Multiply)
    else if b == 4 then Some(Divide)
    else if b == 5 then Some(Negate)
    else if b == 6 then Some(Return)
    else if b == 7 then Some(Nil)
    else if b == 8 then Some(True)
    else if b == 9 then Some(False)
    else if b == 10 then Some(Pop)
    else if b == 11 then Some(GetLocal)
    else if b == 12 then Some(GetGlobal)
    else if b == 13 then Some(DefineGlobal)
    else if b == 14 then Some(SetLocal)
    else if b == 15 then Some(SetGlobal)
    else if b == 16 then Some(Equal)
    else if b == 17 then Some(Greater)
    else if b == 18 then Some(Less)
    else if b == 19 then Some(Not)
    else if b == 20 then Some(Print)
    else if b == 21 then Some(Jump)
    else if b == 22 then Some(JumpIfFalse)
    else if b == 23 then Some(Loop)
    else None
  }

  /** Decoding inverts encoding for every opcode. */
  lemma DecodeEncode(op: Opcode)
    ensures Decode(Encode(op)) == Some(op)
  {
  }

  /** The seven opcodes chunk.rs declares keep their declaration-order discriminants. */
  lemma DeclaredDiscriminants()
    ensures Encode(Constant) == 0 && Encode(Add) == 1 && Encode(Subtract) == 2
    ensures Encode(Multiply) == 3 && Encode(Divide) == 4 && Encode(Negate) == 5
    ensures Encode(Return) == 6
  {
  }

  /** Two different opcodes never share a byte. */
  lemma EncodeInjective(a: Opcode, b: Opcode)
    requires Encode(a) == Encode(b)
    ensures a == b
  {
    DecodeEncode(a);
    DecodeEncode(b);
  }

  /**
   * `Opcode::from_u8` as the virtual machine in vm.rs sees it: it knows only
   * the seven opcodes of chunk.rs.
   */
  function DecodeVm(b: u8): (r: Option<Opcode>)
    ensures r.Some? <==> b <= 6
    ensures r.Some? ==> Encode(r.value) == b
  {
    if b <= 6 then Decode(b) else None
  }
}
