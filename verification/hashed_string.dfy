/**
 * `HashedString` (value/string.rs): a string that carries its FNV-1a hash,
 * computed once when it is built and used in place of the text whenever the
 * string is hashed.
 */
module HashedStrings {
  import opened Bytes
  import Fnv

  /** The UTF-8 encoding of one character. */
  function Utf8(c: char): (r: seq<u8>)
    ensures 1 <= |r| <= 4
  {
    var cp := c as int;
    if cp < 0x80 then [cp]
    else if cp < 0x800 then [0xc0 + cp / 0x40, 0x80 + cp % 0x40]
    else if cp < 0x1_0000 then [0xe0 + cp / 0x1000, 0x80 + (cp / 0x40) % 0x40, 0x80 + cp % 0x40]
    else [0xf0 + cp / 0x4_0000, 0x80 + (cp / 0x1000) % 0x40, 0x80 + (cp / 0x40) % 0x40, 0x80 + cp % 0x40]
  }

  /** `str::as_bytes`. */
  function Utf8Bytes(s: seq<char>): seq<u8>
  {
    if s == [] then [] else Utf8(s[0]) + Utf8Bytes(s[1..])
  }

  /** What `impl Hash for str` writes into a hasher: the text's bytes, then one 0xff byte. */
  function StrHashBytes(s: seq<char>): seq<u8>
  {
    Utf8Bytes(s) + [0xff]
  }

  /** The hash a fresh FNV-1a hasher reports for `s`, cast to u32. */
  function StrHash(s: seq<char>): bv32
  {
    Fnv.Fold(Fnv.OFFSET_BASIS, StrHashBytes(s))
  }

  datatype HashedString = HashedString(hash: bv32, inner: seq<char>) {

    /** The cached hash is the hash of the text (every value built by `FromString` has this). */
    predicate Cached()
    {
      hash == StrHash(inner)
    }

    /** `Deref`: exactly the stored text. */
    function Text(): seq<char>
    {
      inner
    }

    /**
     * `PartialEq<str>`: hash the other string with a fresh hasher, then compare
     * the cached hash and the texts. For a cached string this is text equality.
     */
    function EqStr(other: seq<char>): (r: bool)
      ensures r ==> inner == other
      ensures Cached() ==> (r <==> inner == other)
    {
      hash == StrHash(other) && inner == other
    }

    /**
     * `impl Hash for HashedString`: only the cached u32 is written, as
     * `u32::hash` does it (its four bytes, least significant first on the
     * little-endian targets this model assumes).
     */
    function HashInto(state: bv32): (r: bv32)
    {
      Fnv.Fold(state, U32LeBytes(hash))
    }
  }

  /** `u32::to_ne_bytes` on a little-endian target. */
  function U32LeBytes(x: bv32): (r: seq<u8>)
    ensures |r| == 4
  {
    var n := x as int;
    var top := n / 0x100_0000;
    assert top < 0x100 by {
      assert n < 0x100 * 0x100_0000;
    }
    [n % 0x100, (n / 0x100) % 0x100, (n / 0x1_0000) % 0x100, top]
  }

  /** `From<String>`: keeps the text and caches its hash. */
  function FromString(s: seq<char>): (h: HashedString)
    ensures h.Text() == s
    ensures h.Cached()
  {
    HashedString(StrHash(s), s)
  }

  /** Hashing a `HashedString` never looks at its text: equal cached hashes hash alike. */
  lemma HashIgnoresText(a: HashedString, b: HashedString, state: bv32)
    requires a.hash == b.hash
    ensures a.HashInto(state) == b.HashInto(state)
  {
  }

  /**
   * For strings whose hash is cached, the derived `PartialEq` (hash and text)
   * is text equality, and equal strings hash alike: the agreement between
   * `Eq` and `Hash` that the table's lookups rely on.
   */
  lemma CachedEqualityIsTextEquality(a: HashedString, b: HashedString, state: bv32)
    requires a.Cached() && b.Cached()
    ensures a == b <==> a.Text() == b.Text()
    ensures a.Text() == b.Text() ==> a.HashInto(state) == b.HashInto(state)
  {
    if a.Text() == b.Text() {
      HashIgnoresText(a, b, state);
    }
  }

  /** Comparing a built string with a text is exactly comparing the texts. */
  lemma FromStringEqStr(s: seq<char>, other: seq<char>)
    ensures FromString(s).EqStr(other) <==> s == other
  {
  }
}
