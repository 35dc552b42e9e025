/**
 * The JavaScript values that request bodies, queries, headers and exception
 * responses carry, as far as the redaction and normalisation code looks at
 * them. Numbers are integers; an object is its own-enumerable entries in
 * insertion order, as `Object.entries` yields them.
 */
module Json {

  datatype Json =
    | JUndefined
    | JNull
    | JBool(b: bool)
    | JNum(n: int)
    | JStr(s: string)
    | JArr(items: seq<Json>)
    | JObj(entries: seq<Entry>)

  datatype Entry = Entry(key: string, value: Json)

  /** `v == null` in JavaScript: null and undefined. */
  predicate IsNullish(v: Json) {
    v.JUndefined? || v.JNull?
  }

  /** JavaScript truthiness (NaN is not modelled). */
  predicate Truthy(v: Json) {
    match v
    case JUndefined => false
    case JNull => false
    case JBool(b) => b
    case JNum(n) => n != 0
    case JStr(s) => s != ""
    case JArr(_) => true
    case JObj(_) => true
  }

  /** `obj[key]` on a plain object: the first entry with that key, else undefined. */
  function Get(entries: seq<Entry>, key: string): (r: Json)
    ensures r != JUndefined ==> exists i :: 0 <= i < |entries| && entries[i].key == key && entries[i].value == r
    ensures (forall i :: 0 <= i < |entries| ==> entries[i].key != key) ==> r == JUndefined
  {
    if entries == [] then JUndefined
    else if entries[0].key == key then entries[0].value
    else Get(entries[1..], key)
  }

  /** The keys of an object, in order. */
  function Keys(entries: seq<Entry>): (r: seq<string>)
    ensures |r| == |entries|
    ensures forall i :: 0 <= i < |entries| ==> r[i] == entries[i].key
  {
    if entries == [] then [] else [entries[0].key] + Keys(entries[1..])
  }

  /** `a || b`: the first operand when it is truthy, else the second. */
  function Or(a: Json, b: Json): (r: Json)
    ensures Truthy(r) <==> Truthy(a) || Truthy(b)
  {
    if Truthy(a) then a else b
  }

  /** `v[key]` on any value: an object's first entry with that key, else undefined. */
  function Field(v: Json, key: string): (r: Json)
    ensures !v.JObj? ==> r == JUndefined
  {
    if v.JObj? then Get(v.entries, key) else JUndefined
  }
}
