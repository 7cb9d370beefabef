/**
 * JSON values as the Jackson tree model presents them: objects keep their
 * fields in order, numbers are integers (floating point is not modelled).
 */
module Json {
  import opened Wrappers

  datatype Json =
    | JNull
    | JBool(b: bool)
    | JNumber(n: int)
    | JText(s: string)
    | JArray(items: seq<Json>)
    | JObject(fields: seq<(string, Json)>)

  /** `node.has(key)`: an object with a field of that name. */
  predicate Has(node: Json, key: string)
  {
    node.JObject? && exists i :: 0 <= i < |node.fields| && node.fields[i].0 == key
  }

  /** `node.get(key)`: the first field of that name, or Java `null` (`None`). */
  function Get(node: Json, key: string): (r: Option<Json>)
    ensures r.Some? <==> Has(node, key)
  {
    if node.JObject? then Lookup(node.fields, key) else None
  }

  function Lookup(fields: seq<(string, Json)>, key: string): (r: Option<Json>)
    ensures r.Some? <==> exists i :: 0 <= i < |fields| && fields[i].0 == key
    ensures r.Some? ==> exists i :: 0 <= i < |fields| && fields[i] == (key, r.value)
  {
    if fields == [] then None
    else if fields[0].0 == key then Some(fields[0].1)
    else
      var r := Lookup(fields[1..], key);
      assert r.Some? ==> exists i :: 0 <= i < |fields[1..]| && fields[1..][i] == (key, r.value);
      r
  }

  /** `node.textValue()`: the text of a text node, `null` for every other node. */
  function TextValue(node: Json): Option<string>
  {
    if node.JText? then Some(node.s) else None
  }

  /** The field names of an object in order; other nodes have none. */
  function FieldNames(node: Json): (r: seq<string>)
    ensures node.JObject? ==> |r| == |node.fields|
    ensures forall i :: 0 <= i < |r| ==> node.JObject? && r[i] == node.fields[i].0
  {
    if node.JObject? then seq(|node.fields|, i requires 0 <= i < |node.fields| => node.fields[i].0) else []
  }
}
