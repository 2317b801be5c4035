/** JSON-like values: agent metadata, database JSON columns and parsed scripture files. */
module Json {
  import opened Wrappers

  /** An object keeps its members in insertion order, as a Python dict does. */
  datatype Json =
    | JNull
    | JBool(b: bool)
    | JInt(i: int)
    | JReal(r: real)
    | JStr(s: string)
    | JArr(items: seq<Json>)
    | JObj(fields: seq<(string, Json)>)

  /** Python truthiness of a parsed JSON value. */
  predicate Truthy(j: Json) {
    match j
    case JNull => false
    case JBool(b) => b
    case JInt(i) => i != 0
    case JReal(r) => r != 0.0
    case JStr(s) => s != []
    case JArr(items) => items != []
    case JObj(fields) => fields != []
  }

  /** `d.get(key)` on an object's members: the value stored under `key`, if any. */
  function Get(fields: seq<(string, Json)>, key: string): (r: Option<Json>)
    ensures r.Some? <==> exists k :: 0 <= k < |fields| && fields[k].0 == key
    ensures r.Some? ==> exists k :: 0 <= k < |fields| && fields[k] == (key, r.value)
  {
    if |fields| == 0 then None
    else if fields[0].0 == key then Some(fields[0].1)
    else
      var r := Get(fields[1..], key);
      assert forall k :: 1 <= k < |fields| ==> fields[k] == fields[1..][k - 1];
      r
  }

  /** Adding a member at the end leaves every earlier key's value in place. */
  lemma {:induction false} GetAppend(fields: seq<(string, Json)>, key: string, k: string, v: Json)
    ensures Get(fields + [(k, v)], key) ==
            if Get(fields, key).Some? then Get(fields, key)
            else if k == key then Some(v) else None
    decreases |fields|
  {
    if |fields| > 0 {
      assert (fields + [(k, v)])[1..] == fields[1..] + [(k, v)];
      GetAppend(fields[1..], key, k, v);
    }
  }

  function StrArr(xs: seq<string>): (r: Json)
    ensures r.JArr? && |r.items| == |xs|
  {
    JArr(seq(|xs|, i requires 0 <= i < |xs| => JStr(xs[i])))
  }
}
