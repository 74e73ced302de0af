/** JSON values as Python's `json` module holds them: objects keep their
    keys in insertion order. */
module JsonValues {
  import opened Wrappers

  datatype Json =
    | Null
    | Bool(b: bool)
    | Num(n: real)
    | Str(s: string)
    | Arr(items: seq<Json>)
    | Obj(fields: seq<(string, Json)>)

  /** Python truthiness of a decoded JSON value (`if x:`). */
  predicate Truthy(j: Json) {
    match j
    case Null => false
    case Bool(b) => b
    case Num(n) => n != 0.0
    case Str(s) => s != ""
    case Arr(items) => items != []
    case Obj(fields) => fields != []
  }

  /** `d.get(key)` on a decoded object: when a key is repeated, the last
      occurrence wins, as in `json.loads`. */
  function Get(fields: seq<(string, Json)>, key: string): (r: Option<Json>)
    ensures r.None? <==> forall i :: 0 <= i < |fields| ==> fields[i].0 != key
    ensures r.Some? ==> exists i :: 0 <= i < |fields| && fields[i] == (key, r.value)
                                      && forall j :: i < j < |fields| ==> fields[j].0 != key
  {
    if fields == [] then None
    else if fields[|fields| - 1].0 == key then Some(fields[|fields| - 1].1)
    else Get(fields[..|fields| - 1], key)
  }

  /** Whether `key` names a field of some object anywhere inside `j`. */
  predicate HasKeyAnywhere(j: Json, key: string)
    decreases j
  {
    match j
    case Arr(items) => exists i :: 0 <= i < |items| && HasKeyAnywhere(items[i], key)
    case Obj(fields) =>
      exists i :: 0 <= i < |fields| && (fields[i].0 == key || HasKeyAnywhere(fields[i].1, key))
    case _ => false
  }

  /** No object inside `j` (nor `j` itself) is `{}`. */
  predicate NoEmptyObject(j: Json)
    decreases j
  {
    match j
    case Arr(items) => forall i :: 0 <= i < |items| ==> NoEmptyObject(items[i])
    case Obj(fields) => fields != [] && forall i :: 0 <= i < |fields| ==> NoEmptyObject(fields[i].1)
    case _ => true
  }
}
