/** The decoded JSON payload, as the Python code sees it after `json.loads`,
    and the few dynamic operations the code applies to it. */
module Json {
  import opened Results
  import opened Text

  /** A decoded JSON value: what `json.loads` gives back as `str`, `list`,
      `dict`, `None`, `bool`, `int` or `float`. An object keeps its fields
      in insertion order; being a Python dict, its keys are distinct. A
      float is kept as an exact number. */
  datatype Json =
    | JStr(s: string)
    | JList(items: seq<Json>)
    | JObject(fields: seq<Field>)
    | JNull
    | JBool(b: bool)
    | JInt(i: int)
    | JFloat(x: real)

  datatype Field = Field(key: string, value: Json)

  /** Python truthiness: None, False, zero and empty strings, lists and
      dicts are false. */
  predicate Truthy(v: Json) {
    match v
    case JStr(s) => s != ""
    case JList(items) => items != []
    case JObject(fields) => fields != []
    case JNull => false
    case JBool(b) => b
    case JInt(i) => i != 0
    case JFloat(x) => x != 0.0
  }

  /** The position of `key` among the fields, if present. */
  function KeyIndex(fields: seq<Field>, key: string): (r: Option<nat>)
    ensures r.Some? ==> r.value < |fields| && fields[r.value].key == key
    ensures r.Some? ==> forall j :: 0 <= j < r.value ==> fields[j].key != key
    ensures r.None? ==> forall j :: 0 <= j < |fields| ==> fields[j].key != key
  {
    if fields == [] then None
    else if fields[0].key == key then Some(0)
    else match KeyIndex(fields[1..], key)
      case None => None
      case Some(i) => Some(i + 1)
  }

  /** `d.get(key, default)` on a value already known to be a dict. */
  function Lookup(fields: seq<Field>, key: string, default: Json): Json {
    match KeyIndex(fields, key)
    case Some(i) => fields[i].value
    case None => default
  }

  /** `v.get(key, default)`: only a dict has `get`; anything else raises
      AttributeError. */
  function Get(v: Json, key: string, default: Json): Result<Json> {
    if v.JObject? then Ok(Lookup(v.fields, key, default)) else Raise
  }

  /** The characters of a string, each as a one-character string. */
  function Chars(s: string): (r: seq<Json>)
    ensures |r| == |s|
    ensures forall i :: 0 <= i < |s| ==> r[i] == JStr([s[i]])
  {
    seq(|s|, i requires 0 <= i < |s| => JStr([s[i]]))
  }

  /** The keys of a dict, in insertion order. */
  function Keys(fields: seq<Field>): (r: seq<Json>)
    ensures |r| == |fields|
    ensures forall i :: 0 <= i < |fields| ==> r[i] == JStr(fields[i].key)
  {
    seq(|fields|, i requires 0 <= i < |fields| => JStr(fields[i].key))
  }

  /** What `for x in v` visits: the items of a list, the characters of a
      string, the keys of a dict; None, a boolean or a number raises TypeError. */
  function Iterate(v: Json): Result<seq<Json>> {
    match v
    case JList(items) => Ok(items)
    case JStr(s) => Ok(Chars(s))
    case JObject(fields) => Ok(Keys(fields))
    case _ => Raise
  }
}
