/** The untyped document tree that `json.load` hands to the loader.

    An object keeps its bindings in iteration order, because the order of a
    Python dict decides which of two entries mapping to the same key wins and
    which error is reported first. Python floats are modelled as `real`.
 */
module JsonValue {
  import opened Results

  datatype Json =
    | JNull
    | JBool(b: bool)
    | JInt(i: int)
    | JNum(r: real)
    | JStr(s: string)
    | JArr(items: seq<Json>)
    | JObj(fields: Fields)

  type Fields = seq<(string, Json)>

  /** The value bound to `key`: the first binding, as a dict has only one. */
  function Lookup(fields: Fields, key: string): Option<Json> {
    if fields == [] then None
    else if fields[0].0 == key then Some(fields[0].1)
    else Lookup(fields[1..], key)
  }

  /** A key is found exactly when some binding has it, and the value found
      is bound to it. */
  lemma {:induction false} LookupFound(fields: Fields, key: string)
    ensures Lookup(fields, key).None? <==> forall i :: 0 <= i < |fields| ==> fields[i].0 != key
    ensures Lookup(fields, key).Some? ==> exists i :: 0 <= i < |fields| && fields[i] == (key, Lookup(fields, key).value)
  {
    if fields != [] && fields[0].0 != key {
      LookupFound(fields[1..], key);
      assert forall i :: 1 <= i < |fields| ==> fields[i] == fields[1..][i - 1];
      if Lookup(fields, key).Some? {
        var i :| 0 <= i < |fields[1..]| && fields[1..][i] == (key, Lookup(fields, key).value);
        assert fields[i + 1] == (key, Lookup(fields, key).value);
      }
    }
  }

  /** `key in d` */
  predicate HasKey(fields: Fields, key: string) {
    Lookup(fields, key).Some?
  }

  /** `d.get(key, default)` */
  function GetOr(fields: Fields, key: string, default: Json): (v: Json)
    ensures HasKey(fields, key) ==> v == Lookup(fields, key).value
    ensures !HasKey(fields, key) ==> v == default
  {
    match Lookup(fields, key)
    case Some(x) => x
    case None => default
  }

  /** `d.get(key)`: a missing key reads as None, exactly like a present null. */
  function Get(fields: Fields, key: string): Json {
    GetOr(fields, key, JNull)
  }
}
