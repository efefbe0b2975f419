/** JSON values as Python's `json` module hands them to the integration:
    `null` is `None`, objects are dicts (key order kept), numbers are
    `int` or `float`. */
module Json {

  datatype Json =
    | JNull
    | JBool(b: bool)
    | JInt(i: int)
    | JFloat(r: real)
    | JStr(s: string)
    | JArr(items: seq<Json>)
    | JObj(fields: seq<Field>)

  datatype Field = Field(key: string, value: Json)

  /** The entries of a dict, in insertion order.  A dict decoded by `json`
      has distinct keys; nothing below depends on it. */
  type Object = seq<Field>

  /** `key in d` */
  predicate HasKey(o: Object, key: string) {
    exists i :: 0 <= i < |o| && o[i].key == key
  }

  /** `d.get(key)`: the value stored under `key`, or `None` (JSON null)
      when the key is absent. */
  function Get(o: Object, key: string): (v: Json)
    ensures !HasKey(o, key) ==> v == JNull
    ensures HasKey(o, key) ==> exists i :: 0 <= i < |o| && o[i].key == key && o[i].value == v
  {
    if o == [] then JNull
    else if o[0].key == key then o[0].value
    else
      var v := Get(o[1..], key);
      assert HasKey(o[1..], key) ==> exists i :: 0 <= i < |o[1..]| && o[1..][i].key == key && o[1..][i].value == v;
      v
  }

  /** Looking a key up in an object that starts with field `f`. */
  lemma GetCons(f: Field, rest: Object, key: string)
    ensures Get([f] + rest, key) == (if f.key == key then f.value else Get(rest, key))
    ensures HasKey([f] + rest, key) <==> f.key == key || HasKey(rest, key)
  {
    var o := [f] + rest;
    assert o[1..] == rest;
    if HasKey(rest, key) {
      var i :| 0 <= i < |rest| && rest[i].key == key;
      assert o[i + 1] == rest[i];
    }
  }

  /** Every key of the object is one of `keys`. */
  predicate KeysIn(o: Object, keys: set<string>) {
    forall i :: 0 <= i < |o| ==> o[i].key in keys
  }

  /** An object that starts with field `f` keeps to `keys` iff `f` and
      the rest do. */
  lemma KeysInCons(f: Field, rest: Object, keys: set<string>)
    ensures KeysIn([f] + rest, keys) <==> f.key in keys && KeysIn(rest, keys)
  {
    var o := [f] + rest;
    assert o[0] == f;
    assert forall i :: 0 <= i < |rest| ==> o[i + 1] == rest[i];
  }

  /** Python truthiness of a decoded value (`bool(v)`). */
  predicate Truthy(j: Json) {
    match j
    case JNull => false
    case JBool(b) => b
    case JInt(n) => n != 0
    case JFloat(r) => r != 0.0
    case JStr(s) => s != ""
    case JArr(xs) => xs != []
    case JObj(fs) => fs != []
  }

  /** Python's `a or b`: `a` when it is truthy, otherwise `b`. */
  function Or(a: Json, b: Json): (r: Json)
    ensures Truthy(r) <==> Truthy(a) || Truthy(b)
    ensures r == a || r == b
  {
    if Truthy(a) then a else b
  }
}
