/**
 * The bytecode virtual machine's runtime values (value/mod.rs): a tagged
 * union of booleans, numbers, nil and string objects, with its accessors,
 * truthiness and `From` conversions, and the `Values` constant pool.
 * String objects (raw heap pointers in the source) are plain values here.
 */
module BcValue {
  import opened Wrappers
  import opened Float
  import opened HashedStrings

  datatype Value = Bool(b: bool) | Double(d: F64) | Nil | String(s: HashedString)

  function AsDouble(v: Value): (r: Option<F64>)
    ensures r.Some? <==> v.Double?
    ensures r.Some? ==> r.value == v.d
  {
    if v.Double? then Some(v.d) else None
  }

  function AsBool(v: Value): (r: Option<bool>)
    ensures r.Some? <==> v.Bool?
    ensures r.Some? ==> r.value == v.b
  {
    if v.Bool? then Some(v.b) else None
  }

  /** `as_string`: the text behind a string object (through `Deref`). */
  function AsString(v: Value): (r: Option<seq<char>>)
    ensures r.Some? <==> v.String?
    ensures r.Some? ==> r.value == v.s.inner
  {
    if v.String? then Some(v.s.Text()) else None
  }

  function IsNil(v: Value): (r: bool)
    ensures r <==> v == Nil
  {
    v.Nil?
  }

  /** Only `nil` and `false` are falsy; every number (0 included) and every string is truthy. */
  function IsTruthy(v: Value): (r: bool)
    ensures !r <==> v == Nil || v == Bool(false)
    ensures v.Double? || v.String? ==> r
  {
    match v
    case Bool(b) => b
    case Nil => false
    case _ => true
  }

  function FromBool(b: bool): (v: Value)
    ensures AsBool(v) == Some(b)
  {
    Bool(b)
  }

  function FromDouble(d: F64): (v: Value)
    ensures AsDouble(v) == Some(d)
  {
    Double(d)
  }

  /** `From<()>`. */
  function FromUnit(): (v: Value)
    ensures IsNil(v)
  {
    Nil
  }

  /** `From<ObjString>`. */
  function FromObjString(s: HashedString): (v: Value)
    ensures AsString(v) == Some(s.inner)
    ensures v.String? && v.s == s
  {
    String(s)
  }

  /** `Values`, the growable constant pool (also the shape of the pool in value.rs). */
  datatype Values<V> = Values(items: seq<V>) {

    /** `Values::write`: one more value at the end, the existing ones kept. */
    function Write(v: V): (r: Values<V>)
      ensures |r.items| == |items| + 1
      ensures r.items[..|items|] == items && r.items[|items|] == v
    {
      Values(items + [v])
    }
  }
}
