/**
 * Rust's `f64`, kept opaque. A value is a 64-bit pattern, and every
 * operation on it (arithmetic, comparison, equality, parsing a lexeme,
 * formatting for Display) is supplied from outside as a `FloatOps` record.
 * The model never assumes anything about what these operations compute.
 */
module Float {

  datatype F64 = F64(bits: bv64)

  datatype FloatOps = FloatOps(
    add: (F64, F64) -> F64,
    sub: (F64, F64) -> F64,
    mul: (F64, F64) -> F64,
    div: (F64, F64) -> F64,
    neg: F64 -> F64,
    gt: (F64, F64) -> bool,
    ge: (F64, F64) -> bool,
    lt: (F64, F64) -> bool,
    le: (F64, F64) -> bool,
    eq: (F64, F64) -> bool,
    /** `str::parse::<f64>` on a lexeme that scanned as a number */
    parse: seq<char> -> F64,
    /** `Display for f64` */
    display: F64 -> seq<char>
  )
}
