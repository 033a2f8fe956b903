/** Nested JSON-like data, as the API and the mappers handle it (map[string]interface{} in the source). */
module Values {
  import opened Text

  /** A Go nil, a string, another scalar by its text, a list, a map. A nil map stored as a value is Null. */
  datatype Value = Null | Scalar(text: string) | Plain(text: string) | List(items: seq<Value>)
                 | Map(fields: map<string, Value>)

  type Object = map<string, Value>

  /** Reading a Go map: a missing key reads as nil. */
  function Get(m: Object, k: string): Value { if k in m then m[k] else Null }

  /** convert.ToMapInterface, and the type assertions to a map. */
  function AsMap(v: Value): Option<Object> { if v.Map? then Some(v.fields) else None }

  /** The entries of a map that may be nil. */
  function Entries(m: Option<Object>): Object { if m.Some? then m.value else map[] }

  function FromMap(m: Option<Object>): Value { if m.Some? then Map(m.value) else Null }

  function Sub(m: Object, k: string): Object { Entries(AsMap(Get(m, k))) }

  /** Both maps have the key with the same value, or neither has it. */
  predicate SameSlot(m: Object, n: Object, k: string) {
    (k in m <==> k in n) && (k in m ==> m[k] == n[k])
  }

  lemma SameObject(m: Object, n: Object)
    requires forall k :: SameSlot(m, n, k)
    ensures m == n
  {
    assert forall k :: k in m ==> SameSlot(m, n, k);
    assert forall k :: k in n ==> SameSlot(m, n, k);
    assert m.Keys == n.Keys;
  }

  // ------------------------------- paths into nested maps (types/values/values.go)

  function GetValue(m: Object, keys: seq<string>): Option<Value>
    decreases |keys|
  {
    if keys == [] then None
    else if |keys| == 1 then (if keys[0] in m then Some(m[keys[0]]) else None)
    else GetValue(Sub(m, keys[0]), keys[1..])
  }

  lemma {:induction false} EmptyHasNothing(keys: seq<string>)
    ensures GetValue(map[], keys).None?
    decreases |keys|
  {
    if |keys| > 1 { EmptyHasNothing(keys[1..]); }
  }

  /** PutValue creates the maps that are missing on the way, and gives up at a value that is not a map. */
  function PutValue(m: Object, v: Value, keys: seq<string>): Object
    decreases |keys|
  {
    if keys == [] then m
    else if |keys| == 1 then m[keys[0] := v]
    else if keys[0] in m && !m[keys[0]].Map? then m
    else m[keys[0] := Map(PutValue(Sub(m, keys[0]), v, keys[1..]))]
  }

  /** RemoveValue's effect on the data; the removed value is what GetValue gives before. */
  function RemoveValue(m: Object, keys: seq<string>): Object
    decreases |keys|
  {
    if keys == [] then m
    else if |keys| == 1 then m - {keys[0]}
    else if keys[0] in m && m[keys[0]].Map? then m[keys[0] := Map(RemoveValue(m[keys[0]].fields, keys[1..]))]
    else m
  }

  /** The read-only walk of GetValue. */
  method FindValue(data: Object, keys: seq<string>) returns (r: Option<Value>)
    ensures r == GetValue(data, keys)
  {
    var m, i := data, 0;
    while i < |keys|
      invariant 0 <= i <= |keys|
      invariant GetValue(m, keys[i..]) == GetValue(data, keys)
    {
      if i == |keys| - 1 {
        return if keys[i] in m then Some(m[keys[i]]) else None;
      }
      m := if keys[i] in m && m[keys[i]].Map? then m[keys[i]].fields else map[];
      assert keys[i..][1..] == keys[i + 1..];
      i := i + 1;
    }
    r := None;
  }
}
