/** Decoded JSON values as Python's json module hands them to the comparison
    script, with the few dictionary operations and truthiness rules the script
    relies on. */
module Json {

  /** A decoded JSON value. Objects keep their members in insertion order, so
      that two dictionaries differing only in key order are distinct values.
      Integers and floats are kept apart because Python serialises 1 and 1.0
      differently; a float is its decimal literal mantissa * 10^exponent,
      not the binary double Python reads it as (so the sign of a zero float
      is lost). */
  datatype Json =
    | JNull
    | JBool(b: bool)
    | JInt(i: int)
    | JFloat(mantissa: int, exponent: int)
    | JString(s: string)
    | JArray(items: seq<Json>)
    | JObject(fields: seq<Field>)

  /** One member of an object: its key and its value. */
  type Field = (string, Json)

  datatype Option<T> = None | Some(value: T)

  /** The only exception the modelled code can raise: `.get` called on a value
      that is not a dictionary. */
  datatype PyError = AttributeError

  /** The outcome of a Python call: a value, or the exception it raises. */
  datatype Result<T> = Ok(value: T) | Raises(error: PyError)

  /** Python's truth value of a decoded JSON value (`if x:`, `x or y`, `bool(x)`). */
  predicate Truthy(j: Json) {
    match j
    case JNull => false
    case JBool(b) => b
    case JInt(i) => i != 0
    case JFloat(m, _) => m != 0
    case JString(s) => s != []
    case JArray(items) => items != []
    case JObject(fields) => fields != []
  }

  /** Python's `a or b`. */
  function Or(a: Json, b: Json): Json {
    if Truthy(a) then a else b
  }

  /** No key occurs twice among the members of an object. */
  predicate DistinctKeys(fields: seq<Field>) {
    forall i, j :: 0 <= i < j < |fields| ==> fields[i].0 != fields[j].0
  }

  /** Every object, at every depth, has distinct keys: true of everything
      `json.loads` returns, since a Python dictionary cannot repeat a key. */
  predicate WellFormed(j: Json) {
    match j
    case JArray(items) => forall i :: 0 <= i < |items| ==> WellFormed(items[i])
    case JObject(fields) =>
      DistinctKeys(fields) && forall i :: 0 <= i < |fields| ==> WellFormed(fields[i].1)
    case _ => true
  }

  /** Dictionary lookup `d[key]` when present: the value stored under `key`. */
  function Get(fields: seq<Field>, key: string): (r: Option<Json>)
    ensures r.None? <==> forall i :: 0 <= i < |fields| ==> fields[i].0 != key
    ensures r.Some? ==> (key, r.value) in fields
  {
    if fields == [] then None
    else if fields[0].0 == key then Some(fields[0].1)
    else Get(fields[1..], key)
  }

  /** Python's `d.get(key, default)` on a dictionary. */
  function GetOr(fields: seq<Field>, key: string, default: Json): Json {
    match Get(fields, key)
    case Some(v) => v
    case None => default
  }

  /** Dictionary assignment `d[key] = value`: replaces the member in place, or
      appends one when the key is new. */
  function Put(fields: seq<Field>, key: string, value: Json): (r: seq<Field>)
    ensures Get(r, key) == Some(value)
    ensures forall k :: k != key ==> Get(r, k) == Get(fields, k)
  {
    if fields == [] then [(key, value)]
    else if fields[0].0 == key then [(key, value)] + fields[1..]
    else [fields[0]] + Put(fields[1..], key, value)
  }

  /** In an object with distinct keys, looking up the key of a member gives
      that member's value. */
  lemma {:induction false} GetMember(fields: seq<Field>, key: string, value: Json)
    requires DistinctKeys(fields)
    requires (key, value) in fields
    ensures Get(fields, key) == Some(value)
  {
    if fields[0] != (key, value) {
      assert fields[0].0 != key by {
        var i :| 0 <= i < |fields| && fields[i] == (key, value);
      }
      assert (key, value) in fields[1..];
      GetMember(fields[1..], key, value);
    }
  }

  /** A value found by lookup in a well-formed object is itself well formed. */
  lemma GetWellFormed(fields: seq<Field>, key: string)
    requires WellFormed(JObject(fields))
    requires Get(fields, key).Some?
    ensures WellFormed(Get(fields, key).value)
  {
    var i :| 0 <= i < |fields| && fields[i] == (key, Get(fields, key).value);
    assert WellFormed(fields[i].1);
  }
}
