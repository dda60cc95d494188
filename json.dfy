/** Decoded JSON (and YAML) documents as the Python code sees them, and the dictionary and
    list operations the mappers apply to them. */
module Json {
  import opened Errors

  /** A decoded value; `Null` is Python's `None`. */
  datatype Json =
    | Null
    | Bool(b: bool)
    | Int(i: int)
    | Str(s: string)
    | Arr(items: seq<Json>)
    | Obj(fields: map<string, Json>)

  /** Python truthiness: `None`, `False`, `0`, `""`, `[]` and `{}` are false. */
  predicate Truthy(v: Json) {
    match v
    case Null => false
    case Bool(b) => b
    case Int(i) => i != 0
    case Str(s) => s != ""
    case Arr(items) => items != []
    case Obj(fields) => fields != map[]
  }

  /** `d.get(key, default)`; `default` is `None` unless given. */
  function Get(d: map<string, Json>, key: string, default: Json := Null): Json {
    if key in d then d[key] else default
  }

  /** `d[key]`, which raises `KeyError` when `key` is absent. */
  function Lookup(d: map<string, Json>, key: string): Result<Json> {
    if key in d then Ok(d[key]) else Err(KeyError(key))
  }

  /** `list(map(f, items))`: `f` applied to every element in order; the first element `f`
      fails on aborts the whole list with that element's exception. */
  function MapAll<T>(f: Json --> Result<T>, items: seq<Json>): (r: Result<seq<T>>)
    requires forall i :: 0 <= i < |items| ==> f.requires(items[i])
    ensures r.Ok? <==> forall i :: 0 <= i < |items| ==> f(items[i]).Ok?
    ensures r.Ok? ==> |r.value| == |items|
                      && forall i :: 0 <= i < |items| ==> r.value[i] == f(items[i]).value
    ensures r.Err? ==> exists k :: 0 <= k < |items| && f(items[k]) == Err(r.error)
                                   && forall j :: 0 <= j < k ==> f(items[j]).Ok?
    decreases |items|
  {
    if items == [] then Ok([])
    else
      var head :- f(items[0]);
      var tail := MapAll(f, items[1..]);
      if tail.Err? then
        ghost var k :| 0 <= k < |items| - 1 && f(items[1..][k]) == Err(tail.error)
                       && forall j :: 0 <= j < k ==> f(items[1..][j]).Ok?;
        assert f(items[k + 1]) == Err(tail.error);
        assert forall j :: 1 <= j < k + 1 ==> f(items[j]) == f(items[1..][j - 1]);
        Err(tail.error)
      else
        assert forall i :: 1 <= i < |items| ==> items[i] == items[1..][i - 1];
        Ok([head] + tail.value)
  }
}
