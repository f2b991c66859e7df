/** Decoded JSON values, as Python's `json` module hands them over. An
    object keeps its members in the order of the text, which matters because
    the code iterates over `dict.items()`. */
module Json {
  import opened Wrappers

  datatype Json =
    | JNull
    | JBool(b: bool)
    | JNumber(n: real)
    | JString(s: string)
    | JArray(items: seq<Json>)
    | JObject(members: seq<(string, Json)>)

  /** `key in d` and `d[key]` for a decoded object. When a key is repeated
      in the text, `json.loads` keeps its last value, so the search runs
      from the end. */
  function Lookup(members: seq<(string, Json)>, key: string): (r: Option<Json>)
    ensures r.None? <==> forall i :: 0 <= i < |members| ==> members[i].0 != key
    ensures r.Some? ==> exists i ::
      && 0 <= i < |members|
      && members[i] == (key, r.value)
      && forall j :: i < j < |members| ==> members[j].0 != key
  {
    if |members| == 0 then None
    else if members[|members| - 1].0 == key then Some(members[|members| - 1].1)
    else Lookup(members[..|members| - 1], key)
  }

  /** With the key repeated, the later value is the one found. */
  lemma LookupLastWins(key: string, v1: Json, v2: Json)
    ensures Lookup([(key, v1), (key, v2)], key) == Some(v2)
  {
  }

  /** Python truthiness of a decoded value (`if value:`). */
  predicate Truthy(j: Json) {
    match j
    case JNull => false
    case JBool(b) => b
    case JNumber(n) => n != 0.0
    case JString(s) => |s| > 0
    case JArray(items) => |items| > 0
    case JObject(members) => |members| > 0
  }
}
