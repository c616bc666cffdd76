/**
 * Nearest-binding lookup and update over a chain of maps, innermost map
 * first: the meaning of variable lookup, assignment and resolution in the
 * tree-walk interpreter, stated once on plain values. The environments
 * and the resolver are proved against these functions.
 */
module ScopeChain {
  import opened Wrappers

  /** Index of the nearest map in `ms` that binds `k`. */
  function Find<K, V>(ms: seq<map<K, V>>, k: K): (r: Option<nat>)
    ensures r.Some? ==> r.value < |ms| && k in ms[r.value]
    ensures r.Some? ==> forall j :: 0 <= j < r.value ==> k !in ms[j]
    ensures r.None? <==> forall j :: 0 <= j < |ms| ==> k !in ms[j]
  {
    if ms == [] then None
    else if k in ms[0] then Some(0)
    else match Find(ms[1..], k)
      case None => None
      case Some(i) => Some(i + 1)
  }

  /** The value of the nearest binding of `k`, if any. */
  function Lookup<K, V>(ms: seq<map<K, V>>, k: K): Option<V> {
    match Find(ms, k)
    case None => None
    case Some(i) => Some(ms[i][k])
  }

  /** Replace the value of the nearest binding of `k`; no map gains a key. */
  function Update<K, V>(ms: seq<map<K, V>>, k: K, v: V): (r: seq<map<K, V>>)
    ensures |r| == |ms|
    ensures Find(ms, k).None? ==> r == ms
    ensures Find(ms, k).Some? ==> r == ms[Find(ms, k).value := ms[Find(ms, k).value][k := v]]
  {
    if ms == [] then []
    else if k in ms[0] then [ms[0][k := v]] + ms[1..]
    else [ms[0]] + Update(ms[1..], k, v)
  }

  /** The chain read from the other end: `Reverse(s)[i] == s[|s| - 1 - i]`. */
  function Reverse<T>(s: seq<T>): (r: seq<T>)
    ensures |r| == |s|
    ensures forall i :: 0 <= i < |s| ==> r[i] == s[|s| - 1 - i]
  {
    if s == [] then [] else Reverse(s[1..]) + [s[0]]
  }

  /** After an update of a bound name, looking it up gives the new value. */
  lemma LookupAfterUpdate<K, V>(ms: seq<map<K, V>>, k: K, v: V)
    requires Find(ms, k).Some?
    ensures Lookup(Update(ms, k, v), k) == Some(v)
    ensures Find(Update(ms, k, v), k) == Find(ms, k)
  {
    var i := Find(ms, k).value;
    var r := Update(ms, k, v);
    assert forall j :: 0 <= j < i ==> r[j] == ms[j];
  }

  /** An update never adds or removes a name anywhere in the chain. */
  lemma UpdateKeepsNames<K, V>(ms: seq<map<K, V>>, k: K, v: V)
    ensures forall j :: 0 <= j < |ms| ==> Update(ms, k, v)[j].Keys == ms[j].Keys
  {
  }

  /** An update of one name leaves the lookup of every other name unchanged. */
  lemma UpdateOtherName<K, V>(ms: seq<map<K, V>>, k: K, v: V, other: K)
    requires other != k
    ensures Find(Update(ms, k, v), other) == Find(ms, other)
    ensures Lookup(Update(ms, k, v), other) == Lookup(ms, other)
  {
    var r := Update(ms, k, v);
    UpdateKeepsNames(ms, k, v);
    FindSameNames(ms, r, other);
    if Find(ms, k).Some? {
      var i := Find(ms, k).value;
      assert forall j :: 0 <= j < |ms| && j != i ==> r[j] == ms[j];
    }
  }

  /**
   * Chains with the same names in every map find a name at the same place,
   * whatever the values.
   */
  lemma {:induction false} FindSameNames<K, V, W>(ms: seq<map<K, V>>, ns: seq<map<K, W>>, k: K)
    requires |ms| == |ns| && forall j :: 0 <= j < |ms| ==> ms[j].Keys == ns[j].Keys
    ensures Find(ms, k) == Find(ns, k)
    decreases |ms|
  {
    if ms != [] {
      assert k in ms[0] <==> k in ns[0];
      FindSameNames(ms[1..], ns[1..], k);
    }
  }

  /** A name found in a prefix of the chain is found at the same place in the whole chain. */
  lemma FindInPrefix<K, V>(ms: seq<map<K, V>>, n: nat, k: K)
    requires n <= |ms| && Find(ms[..n], k).Some?
    ensures Find(ms, k) == Find(ms[..n], k)
  {
    var d := Find(ms[..n], k).value;
    assert ms[..n][d] == ms[d];
    assert forall j :: 0 <= j < d ==> ms[..n][j] == ms[j];
    assert Find(ms, k).Some?;
    var e := Find(ms, k).value;
    assert !(e < d) && !(d < e);
  }
}
