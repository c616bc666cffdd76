/** Fixed-width unsigned integers of the Rust source. */
module Bytes {

  type u8 = x: int | 0 <= x < 0x100

  const U8_MAX: nat := 0xff
  const U16_MAX: nat := 0xffff

  /** Two bytes read as a big-endian u16: `(hi as u16) << 8 | lo as u16`. */
  function BigEndian(hi: u8, lo: u8): (r: nat)
    ensures r <= U16_MAX
  {
    hi as int * 0x100 + lo as int
  }

  /** `(x as u16).to_be_bytes()`: the truncating cast, then high byte first. */
  function U16BigEndian(x: nat): (r: seq<u8>)
    ensures |r| == 2
    ensures BigEndian(r[0], r[1]) == x % 0x1_0000
    ensures x <= U16_MAX ==> BigEndian(r[0], r[1]) == x
  {
    SplitU16(x);
    [(x % 0x1_0000) / 0x100, x % 0x100]
  }

  /** The low 16 bits of `x` are its high byte times 256 plus its low byte. */
  lemma SplitU16(x: nat)
    ensures var y := x % 0x1_0000;
      0 <= y / 0x100 < 0x100 && (y / 0x100) * 0x100 + x % 0x100 == y
  {
    var y := x % 0x1_0000;
    var q := x / 0x1_0000;
    assert x == q * 0x1_0000 + y;
    var h := y / 0x100;
    var l := y % 0x100;
    assert y == h * 0x100 + l;
    assert x == (q * 0x100 + h) * 0x100 + l;
    assert x % 0x100 == l;
  }
}
