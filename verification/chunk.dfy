/**
 * `Chunk` (chunk.rs): the compiled bytecode of one unit, held in three
 * append-only buffers: the code bytes, the source line of each byte, and the
 * constant pool. The constant type is a parameter because the compiler fills
 * the pool with `value::Value` and the virtual machine reads `f64` numbers.
 */
module Chunks {
  import opened Bytes
  import opened BcValue

  /** `(len as u8) - 1` with Rust's release-mode wrapping, for `len >= 1`. */
  function TruncatedIndex(len: nat): (r: u8)
    requires len >= 1
    ensures len <= 0x100 ==> r == len - 1
  {
    (len % 0x100 + 0xff) % 0x100
  }

  class Chunk<V> {
    var code: seq<u8>
    var lines: seq<nat>
    var constants: Values<V>

    /** Every code byte has its line. */
    ghost predicate Valid()
      reads this
    {
      |code| == |lines|
    }

    /** `Chunk::default()`. */
    constructor ()
      ensures Valid()
      ensures code == [] && lines == [] && constants.items == []
    {
      code, lines, constants := [], [], Values([]);
    }

    function Len(): nat
      reads this
    {
      |code|
    }

    /** `Chunk::write`: one byte and its line appended; nothing stored before changes. */
    method Write(byte: u8, line: nat)
      requires Valid()
      modifies this
      ensures Valid()
      ensures code == old(code) + [byte] && lines == old(lines) + [line]
      ensures constants == old(constants)
    {
      code := code + [byte];
      lines := lines + [line];
    }

    /**
     * `Chunk::add_constant` with the index widened, as the compiler's
     * `try_into` check expects: the value is appended and its index, the old
     * pool length, is returned.
     */
    method AddConstant(value: V) returns (index: nat)
      modifies this
      ensures constants == old(constants).Write(value)
      ensures index == |old(constants.items)| && constants.items[index] == value
      ensures code == old(code) && lines == old(lines)
    {
      constants := constants.Write(value);
      index := |constants.items| - 1;
    }

    /**
     * `Chunk::add_constant` as written: the index is `len as u8 - 1`, which
     * is only the right index while the pool holds at most 256 values.
     */
    method AddConstantAsWritten(value: V) returns (index: u8)
      modifies this
      ensures constants == old(constants).Write(value)
      ensures index == TruncatedIndex(|constants.items|)
      ensures |old(constants.items)| < 0x100 ==> index == |old(constants.items)|
      ensures code == old(code) && lines == old(lines)
    {
      constants := constants.Write(value);
      index := TruncatedIndex(|constants.items|);
    }
  }

  /**
   * The index `add_constant` reports for the 257th constant is 0, which
   * names the first constant, not the one just added.
   */
  lemma TruncatedIndexAliasesFirstConstant()
    ensures TruncatedIndex(257) == 0
  {
  }

  /** The truncated index is right exactly while the pool holds at most 256 values. */
  lemma TruncatedIndexCorrectIff(len: nat)
    requires len >= 1
    ensures TruncatedIndex(len) == len - 1 <==> len <= 0x100
  {
  }
}
