/**
 * The 32-bit FNV-1a hasher of table.rs (FNV, draft-eastlake-fnv, section 2):
 * start from the offset basis, then for each byte xor it in and multiply by
 * the FNV prime modulo 2^32.
 */
module Fnv {
  import opened Bytes

  const OFFSET_BASIS: bv32 := 2166136261
  const PRIME: bv32 := 16777619

  /** One byte folded in: `hash ^= byte; hash = hash.wrapping_mul(PRIME)`. */
  function Step(hash: bv32, byte: u8): bv32
  {
    (hash ^ (byte as bv32)) * PRIME
  }

  /** The state after writing `bytes`, first byte first. */
  function Fold(hash: bv32, bytes: seq<u8>): bv32
    decreases |bytes|
  {
    if bytes == [] then hash else Fold(Step(hash, bytes[0]), bytes[1..])
  }

  /** Writing nothing leaves the state as it was. */
  lemma FoldEmpty(hash: bv32)
    ensures Fold(hash, []) == hash
  {
  }

  /** Writing `xs` and then `ys` is the same as writing `xs + ys`. */
  lemma {:induction false} FoldConcat(hash: bv32, xs: seq<u8>, ys: seq<u8>)
    ensures Fold(Fold(hash, xs), ys) == Fold(hash, xs + ys)
    decreases |xs|
  {
    if xs != [] {
      assert (xs + ys)[0] == xs[0];
      assert (xs + ys)[1..] == xs[1..] + ys;
      FoldConcat(Step(hash, xs[0]), xs[1..], ys);
    } else {
      assert xs + ys == ys;
    }
  }

  /** Writing one more byte is one more step. */
  lemma FoldSnoc(hash: bv32, xs: seq<u8>, b: u8)
    ensures Fold(hash, xs + [b]) == Step(Fold(hash, xs), b)
  {
    FoldConcat(hash, xs, [b]);
    assert Fold(Fold(hash, xs), [b]) == Fold(Step(Fold(hash, xs), b), []);
  }

  /** `FNV1aHasher`: one mutable 32-bit state. */
  class Hasher {
    var hash: bv32

    /** `FNV1aHasher::default()`. */
    constructor Default()
      ensures hash == OFFSET_BASIS
    {
      hash := OFFSET_BASIS;
    }

    /** `Hasher::write`: folds every byte of the slice into the state. */
    method Write(bytes: seq<u8>)
      modifies this
      ensures hash == Fold(old(hash), bytes)
    {
      var i := 0;
      while i < |bytes|
        invariant 0 <= i <= |bytes|
        invariant hash == Fold(old(hash), bytes[..i])
      {
        FoldSnoc(old(hash), bytes[..i], bytes[i]);
        assert bytes[..i + 1] == bytes[..i] + [bytes[i]];
        hash := Step(hash, bytes[i]);
        i := i + 1;
      }
      assert bytes[..i] == bytes;
    }

    /** `Hasher::finish`: the 32-bit state widened to u64; the state is not changed. */
    function Finish(): (r: nat)
      reads this
      ensures r < 0x1_0000_0000
      ensures r as bv32 == hash
    {
      hash as nat
    }
  }

  /** `FNV1aBuilder`: builds fresh hashers. */
  datatype Builder = Builder {
    /** `BuildHasher::build_hasher`: a hasher in the same state as `Default`. */
    method BuildHasher() returns (h: Hasher)
      ensures fresh(h) && h.hash == OFFSET_BASIS
    {
      h := new Hasher.Default();
    }
  }

  /** What `finish` reports after a fresh hasher is fed `bytes`. */
  function HashOf(bytes: seq<u8>): (r: nat)
    ensures r < 0x1_0000_0000
    ensures r as bv32 == Fold(OFFSET_BASIS, bytes)
  {
    Fold(OFFSET_BASIS, bytes) as nat
  }
}
