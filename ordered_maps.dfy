/**
 * A PHP array with string keys, as the CRUD methods build their command
 * arrays: an ordered list of key/value pairs. `$a[$k] = $v` replaces the
 * value in place when $k is already a key and appends ($k, $v) otherwise.
 */
module OrderedMaps {
  import opened PhpStrings

  type OrderedMap = seq<(string, string)>

  /** The keys, in order. */
  function KeysOf(m: OrderedMap): (ks: seq<string>)
    ensures |ks| == |m|
  {
    if m == [] then [] else [m[0].0] + KeysOf(m[1..])
  }

  /** No key occurs twice (every PHP array has this shape). */
  predicate DistinctKeys(m: OrderedMap)
  {
    m == [] || (m[0].0 !in KeysOf(m[1..]) && DistinctKeys(m[1..]))
  }

  /** `$a[$k]`, or None when $k is not a key. */
  function Lookup(m: OrderedMap, k: string): (r: Option<string>)
    ensures r.Some? <==> k in KeysOf(m)
  {
    if m == [] then None
    else if m[0].0 == k then Some(m[0].1)
    else Lookup(m[1..], k)
  }

  /** `$a[$k] = $v`. */
  function Put(m: OrderedMap, k: string, v: string): (r: OrderedMap)
    ensures Lookup(r, k) == Some(v)
    ensures forall k' :: k' != k ==> Lookup(r, k') == Lookup(m, k')
    ensures KeysOf(r) == if k in KeysOf(m) then KeysOf(m) else KeysOf(m) + [k]
    ensures DistinctKeys(m) ==> DistinctKeys(r)
    ensures k !in KeysOf(m) ==> r == m + [(k, v)]
  {
    if m == [] then [(k, v)]
    else if m[0].0 == k then [(k, v)] + m[1..]
    else
      var tail := Put(m[1..], k, v);
      assert ([m[0]] + tail)[1..] == tail;
      assert k !in KeysOf(m) ==> [m[0]] + (m[1..] + [(k, v)]) == m + [(k, v)];
      [m[0]] + tail
  }
}
