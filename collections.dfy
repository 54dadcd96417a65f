/** The two ways the loader builds collections from the document.

    A list is built element by element (`[parse(x, f"{ctx}[{i}]") for i, x in
    enumerate(xs)]`, or an `append` loop), a dict by assigning `result[k] = v`
    for each entry of an input object in order. Both stop at the first entry
    that fails, with that entry's error. The specifications are written from
    index `i` with the part already built in `acc`, which is how the loops
    that compute them proceed.
 */
module Collections {
  import opened Results
  import opened JsonValue
  import opened Coerce

  // ---------------------------------------------------------------- lists

  /** The enumerate comprehension from element `i` on, after `acc`. */
  function ParseEachFrom<T>(xs: seq<Json>, ctx: string, parse: (Json, string) -> Result<T>, i: nat, acc: seq<T>)
    : Result<seq<T>>
    requires i <= |xs|
    decreases |xs| - i
  {
    if i == |xs| then Ok(acc)
    else match parse(xs[i], Index(ctx, i))
      case Err(e) => Err(e)
      case Ok(x) => ParseEachFrom(xs, ctx, parse, i + 1, acc + [x])
  }

  /** It succeeds exactly when every remaining element parses, and then
      appends one value per element, in order. */
  lemma {:induction false} ParseEachFromContents<T>(
    xs: seq<Json>, ctx: string, parse: (Json, string) -> Result<T>, i: nat, acc: seq<T>)
    requires i <= |xs|
    ensures var r := ParseEachFrom(xs, ctx, parse, i, acc);
      && (r.Ok? <==> forall k :: i <= k < |xs| ==> parse(xs[k], Index(ctx, k)).Ok?)
      && (r.Ok? ==> |r.value| == |acc| + |xs| - i && r.value[..|acc|] == acc)
      && (r.Ok? ==> forall k :: i <= k < |xs| ==> parse(xs[k], Index(ctx, k)) == Ok(r.value[|acc| + k - i]))
    decreases |xs| - i
  {
    if i < |xs| {
      match parse(xs[i], Index(ctx, i))
      case Err(_) =>
      case Ok(x) =>
        ParseEachFromContents(xs, ctx, parse, i + 1, acc + [x]);
        var r := ParseEachFrom(xs, ctx, parse, i, acc);
        assert r == ParseEachFrom(xs, ctx, parse, i + 1, acc + [x]);
        if r.Ok? {
          assert r.value[..|acc| + 1] == acc + [x];
          assert r.value[..|acc|] == r.value[..|acc| + 1][..|acc|];
          forall k | i <= k < |xs| ensures parse(xs[k], Index(ctx, k)) == Ok(r.value[|acc| + k - i]) {
            if k > i {
              assert |acc + [x]| + k - (i + 1) == |acc| + k - i;
            }
          }
        }
    }
  }

  /** A failure is that of the first element that fails. */
  lemma {:induction false} ParseEachFromFirstError<T>(
    xs: seq<Json>, ctx: string, parse: (Json, string) -> Result<T>, i: nat, acc: seq<T>)
    requires i <= |xs|
    requires ParseEachFrom(xs, ctx, parse, i, acc).Err?
    ensures exists k :: i <= k < |xs| && parse(xs[k], Index(ctx, k)) == Err(ParseEachFrom(xs, ctx, parse, i, acc).error)
                        && forall j :: i <= j < k ==> parse(xs[j], Index(ctx, j)).Ok?
    decreases |xs| - i
  {
    var e := ParseEachFrom(xs, ctx, parse, i, acc).error;
    match parse(xs[i], Index(ctx, i))
    case Err(_) =>
      assert parse(xs[i], Index(ctx, i)) == Err(e);
    case Ok(x) =>
      ParseEachFromFirstError(xs, ctx, parse, i + 1, acc + [x]);
      var k :| i + 1 <= k < |xs| && parse(xs[k], Index(ctx, k)) == Err(e)
               && forall j :: i + 1 <= j < k ==> parse(xs[j], Index(ctx, j)).Ok?;
      assert forall j :: i <= j < k ==> parse(xs[j], Index(ctx, j)).Ok?;
  }

  /** Every element parsed, in order, or the first element's failure. */
  function ParseEach<T>(xs: seq<Json>, ctx: string, parse: (Json, string) -> Result<T>): (r: Result<seq<T>>)
    ensures r.Ok? ==> |r.value| == |xs|
    ensures r.Ok? ==> forall k :: 0 <= k < |xs| ==> parse(xs[k], Index(ctx, k)) == Ok(r.value[k])
    ensures r.Ok? <==> forall k :: 0 <= k < |xs| ==> parse(xs[k], Index(ctx, k)).Ok?
  {
    ParseEachFromContents(xs, ctx, parse, 0, []);
    ParseEachFrom(xs, ctx, parse, 0, [])
  }

  // ---------------------------------------------------------------- dicts

  function BuildMapFrom<K(==), V>(entries: Fields, ctx: string, parse: ((string, Json), string) -> Result<(K, V)>,
                              i: nat, acc: map<K, V>)
    : (r: Result<map<K, V>>)
    requires i <= |entries|
    ensures r.Ok? <==> forall k :: i <= k < |entries| ==> parse(entries[k], ctx).Ok?
    ensures r.Ok? ==> acc.Keys <= r.value.Keys
    ensures r.Ok? ==> forall k :: i <= k < |entries| ==> parse(entries[k], ctx).value.0 in r.value
    ensures r.Err? ==> exists k :: i <= k < |entries| && parse(entries[k], ctx) == Err(r.error)
                                  && forall j :: i <= j < k ==> parse(entries[j], ctx).Ok?
    decreases |entries| - i
  {
    if i == |entries| then Ok(acc)
    else
      var kv :- parse(entries[i], ctx);
      BuildMapFrom(entries, ctx, parse, i + 1, acc[kv.0 := kv.1])
  }

  function BuildMap<K(==), V>(entries: Fields, ctx: string, parse: ((string, Json), string) -> Result<(K, V)>)
    : Result<map<K, V>>
  {
    BuildMapFrom(entries, ctx, parse, 0, map[])
  }

  /** The key that entry `k` parses to. */
  function KeyAt<K(==), V>(entries: Fields, ctx: string, parse: ((string, Json), string) -> Result<(K, V)>, k: nat): K
    requires k < |entries| && parse(entries[k], ctx).Ok?
  {
    parse(entries[k], ctx).value.0
  }

  /** Entry `k` is the last one in `entries[i..]` that parses to its key. */
  predicate LastWithKey<K(==), V>(entries: Fields, ctx: string, parse: ((string, Json), string) -> Result<(K, V)>, k: nat)
    requires k < |entries|
    requires forall j :: k <= j < |entries| ==> parse(entries[j], ctx).Ok?
  {
    forall j :: k < j < |entries| ==> KeyAt(entries, ctx, parse, j) != KeyAt(entries, ctx, parse, k)
  }

  /** A key no later entry parses to keeps the value it had. */
  lemma {:induction false} BuildMapFromUntouched<K, V>(
    entries: Fields, ctx: string, parse: ((string, Json), string) -> Result<(K, V)>, i: nat, acc: map<K, V>, key: K)
    requires i <= |entries|
    requires BuildMapFrom(entries, ctx, parse, i, acc).Ok?
    requires key in acc
    requires forall k :: i <= k < |entries| ==> KeyAt(entries, ctx, parse, k) != key
    ensures BuildMapFrom(entries, ctx, parse, i, acc).value[key] == acc[key]
    decreases |entries| - i
  {
    if i < |entries| {
      var kv := parse(entries[i], ctx).value;
      assert KeyAt(entries, ctx, parse, i) == kv.0;
      BuildMapFromUntouched(entries, ctx, parse, i + 1, acc[kv.0 := kv.1], key);
    }
  }

  /** Under the key of an entry that no later entry repeats lies that entry's value. */
  lemma {:induction false} BuildMapFromLastWins<K, V>(
    entries: Fields, ctx: string, parse: ((string, Json), string) -> Result<(K, V)>, i: nat, acc: map<K, V>, k: nat)
    requires i <= k < |entries|
    requires BuildMapFrom(entries, ctx, parse, i, acc).Ok?
    requires LastWithKey(entries, ctx, parse, k)
    ensures BuildMapFrom(entries, ctx, parse, i, acc).value[KeyAt(entries, ctx, parse, k)] == parse(entries[k], ctx).value.1
    decreases |entries| - i
  {
    var kv := parse(entries[i], ctx).value;
    if k == i {
      BuildMapFromUntouched(entries, ctx, parse, i + 1, acc[kv.0 := kv.1], kv.0);
    } else {
      BuildMapFromLastWins(entries, ctx, parse, i + 1, acc[kv.0 := kv.1], k);
    }
  }

  /** Every key of the result was there before or comes from an entry, with its value. */
  lemma {:induction false} BuildMapFromOrigin<K, V>(
    entries: Fields, ctx: string, parse: ((string, Json), string) -> Result<(K, V)>, i: nat, acc: map<K, V>, key: K)
    requires i <= |entries|
    requires BuildMapFrom(entries, ctx, parse, i, acc).Ok?
    requires key in BuildMapFrom(entries, ctx, parse, i, acc).value
    ensures var m := BuildMapFrom(entries, ctx, parse, i, acc).value;
      (key in acc && m[key] == acc[key]) || exists k :: i <= k < |entries| && parse(entries[k], ctx).value == (key, m[key])
    decreases |entries| - i
  {
    if i < |entries| {
      var kv := parse(entries[i], ctx).value;
      var acc' := acc[kv.0 := kv.1];
      BuildMapFromOrigin(entries, ctx, parse, i + 1, acc', key);
      if key == kv.0 {
        var m := BuildMapFrom(entries, ctx, parse, i, acc).value;
        if key in acc' && m[key] == acc'[key] {
          assert parse(entries[i], ctx).value == (key, m[key]);
        }
      }
    }
  }

  /** The same, for a whole input object. */
  lemma BuildMapContents<K, V>(entries: Fields, ctx: string, parse: ((string, Json), string) -> Result<(K, V)>)
    requires BuildMap(entries, ctx, parse).Ok?
    ensures forall k :: 0 <= k < |entries| ==> parse(entries[k], ctx).Ok?
    ensures var m := BuildMap(entries, ctx, parse).value;
      && (forall k :: 0 <= k < |entries| ==> KeyAt(entries, ctx, parse, k) in m)
      && (forall key :: key in m ==> exists k :: 0 <= k < |entries| && parse(entries[k], ctx).value == (key, m[key]))
      && (forall k :: 0 <= k < |entries| && LastWithKey(entries, ctx, parse, k) ==> m[KeyAt(entries, ctx, parse, k)] == parse(entries[k], ctx).value.1)
  {
    var m := BuildMap(entries, ctx, parse).value;
    forall key | key in m
      ensures exists k :: 0 <= k < |entries| && parse(entries[k], ctx).value == (key, m[key])
    {
      BuildMapFromOrigin(entries, ctx, parse, 0, map[], key);
    }
    forall k | 0 <= k < |entries| && LastWithKey(entries, ctx, parse, k)
      ensures m[KeyAt(entries, ctx, parse, k)] == parse(entries[k], ctx).value.1
    {
      BuildMapFromLastWins(entries, ctx, parse, 0, map[], k);
    }
  }
}
