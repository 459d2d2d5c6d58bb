/**
 * A JSON value in the shape `serde_json::Value` exposes to the code: objects
 * are field lists looked up by key, numbers are integers.
 */
module Json {
  import opened Wrappers

  datatype Json =
    | JNull
    | JBool(b: bool)
    | JNum(n: int)
    | JStr(s: string)
    | JArr(items: seq<Json>)
    | JObj(fields: seq<(string, Json)>)

  /** The index of the first field named key at or after position i. */
  function FindFrom(fields: seq<(string, Json)>, key: string, i: nat): (r: Option<nat>)
    requires i <= |fields|
    ensures r.Some? ==> (i <= r.value < |fields| && fields[r.value].0 == key
      && forall j :: i <= j < r.value ==> fields[j].0 != key)
    ensures r.None? ==> forall j :: i <= j < |fields| ==> fields[j].0 != key
    decreases |fields| - i
  {
    if i == |fields| then None
    else if fields[i].0 == key then Some(i)
    else FindFrom(fields, key, i + 1)
  }

  /** The index of the first field named key. */
  function FindField(fields: seq<(string, Json)>, key: string): (r: Option<nat>)
    ensures r.Some? ==> (r.value < |fields| && fields[r.value].0 == key
      && forall j :: 0 <= j < r.value ==> fields[j].0 != key)
    ensures r.None? ==> forall j :: 0 <= j < |fields| ==> fields[j].0 != key
  {
    FindFrom(fields, key, 0)
  }

  /** The value of the first field named key, as `serde_json::Map::get` sees it. */
  function Lookup(fields: seq<(string, Json)>, key: string): (r: Option<Json>)
  {
    match FindField(fields, key)
    case None => None
    case Some(i) => Some(fields[i].1)
  }

  /** `Value::get(key)`: None for a missing key and for every non-object. */
  function Get(j: Json, key: string): (r: Option<Json>)
    ensures j.JObj? ==> r == Lookup(j.fields, key)
    ensures !j.JObj? ==> r.None?
  {
    if j.JObj? then Lookup(j.fields, key) else None
  }

  function AsStr(j: Option<Json>): (r: Option<string>)
    ensures r.Some? <==> j.Some? && j.value.JStr?
  {
    if j.Some? && j.value.JStr? then Some(j.value.s) else None
  }

  function AsBool(j: Option<Json>): (r: Option<bool>)
    ensures r.Some? <==> j.Some? && j.value.JBool?
  {
    if j.Some? && j.value.JBool? then Some(j.value.b) else None
  }

  /** `as_u64`: an integer in 0 .. 2^64 - 1. */
  function AsU64(j: Option<Json>): (r: Option<nat>)
    ensures r.Some? ==> r.value < 0x1_0000_0000_0000_0000
  {
    if j.Some? && j.value.JNum? && 0 <= j.value.n < 0x1_0000_0000_0000_0000 then Some(j.value.n) else None
  }

  /** `as_i64`: an integer in -2^63 .. 2^63 - 1. */
  function AsI64(j: Option<Json>): (r: Option<int>)
    ensures r.Some? ==> -0x8000_0000_0000_0000 <= r.value < 0x8000_0000_0000_0000
  {
    if j.Some? && j.value.JNum? && -0x8000_0000_0000_0000 <= j.value.n < 0x8000_0000_0000_0000 then Some(j.value.n) else None
  }

  function AsArray(j: Option<Json>): (r: Option<seq<Json>>)
    ensures r.Some? <==> j.Some? && j.value.JArr?
  {
    if j.Some? && j.value.JArr? then Some(j.value.items) else None
  }

  /** `value[key] = v` on an object: replace the first field of that name, or append one. */
  function SetField(fields: seq<(string, Json)>, key: string, v: Json): (r: seq<(string, Json)>)
  {
    match FindField(fields, key)
    case Some(i) => fields[i := (key, v)]
    case None => fields + [(key, v)]
  }

  /** After setting, the key reads back the new value and every other key reads as before. */
  lemma SetFieldLookup(fields: seq<(string, Json)>, key: string, v: Json, other: string)
    requires other != key
    ensures Lookup(SetField(fields, key, v), key) == Some(v)
    ensures Lookup(SetField(fields, key, v), other) == Lookup(fields, other)
  {
    var r := SetField(fields, key, v);
    assert |fields| <= |r|;
    assert forall j :: 0 <= j < |fields| && fields[j].0 != key ==> r[j] == fields[j];
    match FindField(fields, key) {
      case None =>
        assert r[|fields|] == (key, v);
        assert FindField(r, key) == Some(|fields|);
      case Some(i) =>
        assert r[i] == (key, v);
        assert FindField(r, key) == Some(i);
    }
    match FindField(fields, other) {
      case None =>
        assert forall j :: 0 <= j < |r| ==> r[j].0 != other;
      case Some(i) =>
        assert r[i] == fields[i];
        assert FindField(r, other) == Some(i);
    }
  }

  /** The field at position i is the one a lookup finds when no earlier field has its name. */
  lemma FindFieldAt(fields: seq<(string, Json)>, key: string, i: nat)
    requires i < |fields| && fields[i].0 == key
    requires forall j :: 0 <= j < i ==> fields[j].0 != key
    ensures FindField(fields, key) == Some(i) && Lookup(fields, key) == Some(fields[i].1)
  {
  }
}
