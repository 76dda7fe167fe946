/** Opaque JSON-like payloads (`v.any()` / `unknown`) and JavaScript truthiness. */
module Values {
  import opened Wrappers

  /** A JavaScript value as it can travel through the session store. The store never looks
      inside one; the client only asks whether it is truthy. Numbers are reals, with `NaN`
      kept apart because it is the one falsy number other than zero. */
  datatype Value =
    | Undefined
    | Null
    | Bool(b: bool)
    | Num(x: real)
    | NaN
    | Str(s: string)
    | Arr(items: seq<Value>)
    | Obj(fields: seq<(string, Value)>)

  /** ToBoolean of ECMA-262 (section 7.1.2): the falsy values are `undefined`, `null`,
      `false`, `0`, `NaN` and the empty string; every array and object is truthy. */
  predicate Truthy(v: Value) {
    match v
    case Undefined => false
    case Null => false
    case Bool(b) => b
    case Num(x) => x != 0.0
    case NaN => false
    case Str(s) => s != ""
    case Arr(_) => true
    case Obj(_) => true
  }

  /** An argument as it reaches a Convex mutation: an `undefined` field is dropped from the
      call, so `v.optional` sees it as not supplied. */
  function Supplied(v: Value): (r: Option<Value>)
    ensures r.None? <==> v == Undefined
    ensures r.Some? ==> r.value == v
  {
    if v.Undefined? then None else Some(v)
  }

  /** A string-or-null field tested with `!field`: absent or empty is falsy. */
  predicate Present(s: Option<string>) {
    s.Some? && s.value != ""
  }

  /** The position of the last entry with that key, -1 when there is none. */
  function LastKey(fields: seq<(string, Value)>, key: string): (i: int)
    ensures -1 <= i < |fields|
    ensures i == -1 ==> forall j :: 0 <= j < |fields| ==> fields[j].0 != key
    ensures i >= 0 ==> fields[i].0 == key && forall j :: i < j < |fields| ==> fields[j].0 != key
  {
    if |fields| == 0 then -1
    else if fields[|fields| - 1].0 == key then |fields| - 1
    else
      var i := LastKey(fields[..|fields| - 1], key);
      assert forall j :: 0 <= j < |fields| - 1 ==> fields[..|fields| - 1][j] == fields[j];
      i
  }

  /** A field of a JSON object: the last entry with that key (later duplicates win when JSON
      is parsed), `undefined` when there is none. */
  function Field(fields: seq<(string, Value)>, key: string): (r: Value)
    ensures (forall i :: 0 <= i < |fields| ==> fields[i].0 != key) ==> r == Undefined
    ensures (exists i :: 0 <= i < |fields| && fields[i].0 == key) ==>
      exists i :: 0 <= i < |fields| && fields[i] == (key, r)
            && forall j :: i < j < |fields| ==> fields[j].0 != key
  {
    var i := LastKey(fields, key);
    if i == -1 then Undefined else fields[i].1
  }
}
