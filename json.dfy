/** JSON values as Python holds them after `json.loads` (or before
    `json.dumps`): objects keep their key order. */
module JsonValues {
  import opened Wrappers
  import opened Dicts

  datatype Json =
    | JNull
    | JBool(b: bool)
    | JNumber(n: int)
    | JString(s: string)
    | JArray(items: seq<Json>)
    | JObject(members: Dict<Json>)

  /** `obj.get(key)` on a JSON object; None on anything else. */
  function Get(v: Json, key: string): Option<Json> {
    if v.JObject? then Lookup(v.members, key) else None
  }

  /** Each string of `s` as a JSON string, in order. */
  function JStrings(s: seq<string>): (r: seq<Json>)
    ensures |r| == |s|
    ensures forall i :: 0 <= i < |s| ==> r[i] == JString(s[i])
  {
    seq(|s|, i requires 0 <= i < |s| => JString(s[i]))
  }

  /** Python's `type(v).__name__` for the value `json.loads` produces. */
  function PyTypeName(v: Json): string {
    match v
    case JNull => "NoneType"
    case JBool(_) => "bool"
    case JNumber(_) => "int"
    case JString(_) => "str"
    case JArray(_) => "list"
    case JObject(_) => "dict"
  }

  /** Following a chain of object keys: `v[k0][k1]...`, None as soon as a
      step meets a non-object or a missing key. */
  function At(v: Json, path: seq<string>): Option<Json>
    decreases |path|
  {
    if path == [] then Some(v)
    else match Get(v, path[0])
      case None => None
      case Some(w) => At(w, path[1..])
  }

  /** A path of one key is a single lookup. */
  lemma AtOne(v: Json, a: string)
    ensures At(v, [a]) == Get(v, a)
  {
    assert [a][1..] == [];
  }

  /** In an object with distinct keys, the path of one key leads to its value. */
  lemma PathAt(d: Dict<Json>, i: nat)
    requires Distinct(Keys(d)) && i < |d|
    ensures At(JObject(d), [d[i].0]) == Some(d[i].1)
  {
    LookupDistinct(d, i);
    AtOne(JObject(d), d[i].0);
  }

  /** A path of two keys is a lookup in the first key's value. */
  lemma AtTwo(v: Json, a: string, b: string)
    ensures At(v, [a, b]) == if Get(v, a).Some? then Get(Get(v, a).value, b) else None
  {
    assert [a, b][1..] == [b];
    if Get(v, a).Some? {
      AtOne(Get(v, a).value, b);
    }
  }

  /** JStrings loses nothing: different string lists give different JSON lists. */
  lemma JStringsInjective(s: seq<string>, t: seq<string>)
    requires JStrings(s) == JStrings(t)
    ensures s == t
  {
    assert |s| == |t|;
    forall i | 0 <= i < |s| ensures s[i] == t[i] {
      assert JStrings(s)[i] == JStrings(t)[i];
    }
  }
}
