/** Autotile rules and groups: `_parse_rule`, whose two lists are built by
    append loops, and `_parse_group`. */
module RuleParsing {
  import opened Results
  import opened JsonValue
  import opened Coerce
  import opened Collections
  import opened TilemapModel

  /** One `neighbors` entry: an array of exactly two int-like values. */
  function ParsePair(pair: Json, ctx: string): (r: Result<Point>)
    ensures r.Ok? <==>
      && pair.JArr? && |pair.items| == 2
      && CoerceInt(pair.items[0], Index(ctx, 0)).Ok?
      && CoerceInt(pair.items[1], Index(ctx, 1)).Ok?
    ensures r.Ok? ==>
      && Ok(r.value.x) == CoerceInt(pair.items[0], Index(ctx, 0))
      && Ok(r.value.y) == CoerceInt(pair.items[1], Index(ctx, 1))
    ensures pair.JArr? && |pair.items| != 2 ==> r == Err(Error(ExpectedPair, ctx))
  {
    var pairList :- RequireList(pair, ctx);
    if |pairList| != 2 then Err(Error(ExpectedPair, ctx))
    else
      var x :- CoerceInt(pairList[0], Index(ctx, 0));
      var y :- CoerceInt(pairList[1], Index(ctx, 1));
      Ok(Point(x, y))
  }

  /** None when `tileset_index` is missing or null, otherwise coerced. */
  function TilesetIndex(ruleObj: Fields, ctx: string): (r: Result<Option<int>>)
    ensures Get(ruleObj, "tileset_index").JNull? ==> r == Ok(None)
    ensures !Get(ruleObj, "tileset_index").JNull? ==>
      && (r.Ok? <==> CoerceInt(Get(ruleObj, "tileset_index"), Field(ctx, "tileset_index")).Ok?)
      && (r.Ok? ==> r.value.Some? && Ok(r.value.value) == CoerceInt(Get(ruleObj, "tileset_index"), Field(ctx, "tileset_index")))
  {
    if Get(ruleObj, "tileset_index").JNull? then Ok(None)
    else
      var i :- CoerceInt(Get(ruleObj, "tileset_index"), Field(ctx, "tileset_index"));
      Ok(Some(i))
  }

  /** The rule a rule object parses to. `neighbors` and `variant_ids` are
      checked before `name`. */
  function RuleOf(ruleObj: Fields, ctx: string): Result<AutotileRule> {
    var neighborsRaw :- RequireList(Get(ruleObj, "neighbors"), Field(ctx, "neighbors"));
    var neighbors :- ParseEach(neighborsRaw, Field(ctx, "neighbors"), ParsePair);
    var variantIdsRaw :- RequireList(GetOr(ruleObj, "variant_ids", JArr([])), Field(ctx, "variant_ids"));
    var variantIds :- ParseEach(variantIdsRaw, Field(ctx, "variant_ids"), CoerceInt);
    var name :- RequireStr(Get(ruleObj, "name"), Field(ctx, "name"));
    var tilesetPath :- RequireStr(GetOr(ruleObj, "tileset_path", JStr("")), Field(ctx, "tileset_path"));
    var tilesetIndex :- TilesetIndex(ruleObj, ctx);
    Ok(AutotileRule(name, neighbors, tilesetPath, tilesetIndex, variantIds, Get(ruleObj, "group_id")))
  }

  method ParseRule(ruleObj: Fields, ctx: string) returns (r: Result<AutotileRule>)
    ensures r == RuleOf(ruleObj, ctx)
  {
    var neighborsCtx := Field(ctx, "neighbors");
    var neighborsRaw :- RequireList(Get(ruleObj, "neighbors"), neighborsCtx);
    var neighbors: seq<Point> := [];
    var idx := 0;
    while idx < |neighborsRaw|
      invariant 0 <= idx <= |neighborsRaw|
      invariant ParseEach(neighborsRaw, neighborsCtx, ParsePair) == ParseEachFrom(neighborsRaw, neighborsCtx, ParsePair, idx, neighbors)
    {
      var pairCtx := Index(neighborsCtx, idx);
      var pairList :- RequireList(neighborsRaw[idx], pairCtx);
      if |pairList| != 2 {
        return Err(Error(ExpectedPair, pairCtx));
      }
      var x :- CoerceInt(pairList[0], Index(pairCtx, 0));
      var y :- CoerceInt(pairList[1], Index(pairCtx, 1));
      neighbors := neighbors + [Point(x, y)];
      idx := idx + 1;
    }

    var variantIdsCtx := Field(ctx, "variant_ids");
    var variantIdsRaw :- RequireList(GetOr(ruleObj, "variant_ids", JArr([])), variantIdsCtx);
    var variantIds: seq<int> := [];
    var i := 0;
    while i < |variantIdsRaw|
      invariant 0 <= i <= |variantIdsRaw|
      invariant ParseEach(variantIdsRaw, variantIdsCtx, CoerceInt) == ParseEachFrom(variantIdsRaw, variantIdsCtx, CoerceInt, i, variantIds)
    {
      var v :- CoerceInt(variantIdsRaw[i], Index(variantIdsCtx, i));
      variantIds := variantIds + [v];
      i := i + 1;
    }

    var name :- RequireStr(Get(ruleObj, "name"), Field(ctx, "name"));
    var tilesetPath :- RequireStr(GetOr(ruleObj, "tileset_path", JStr("")), Field(ctx, "tileset_path"));
    var tilesetIndex: Option<int> := None;
    if !Get(ruleObj, "tileset_index").JNull? {
      var index :- CoerceInt(Get(ruleObj, "tileset_index"), Field(ctx, "tileset_index"));
      tilesetIndex := Some(index);
    }
    r := Ok(AutotileRule(name, neighbors, tilesetPath, tilesetIndex, variantIds, Get(ruleObj, "group_id")));
  }

  /** What a parsed rule holds: one point per `neighbors` entry, in order,
      each entry an array of two int-like values; the coerced `variant_ids`
      in order (none when missing); `tileset_path` defaulting to ""; no
      tileset index when it is missing or null; `group_id` verbatim. */
  lemma RuleContents(ruleObj: Fields, ctx: string)
    requires RuleOf(ruleObj, ctx).Ok?
    ensures var rule := RuleOf(ruleObj, ctx).value;
      && Get(ruleObj, "neighbors").JArr?
      && |rule.neighbors| == |Get(ruleObj, "neighbors").items|
      && (forall k :: 0 <= k < |rule.neighbors| ==>
            ParsePair(Get(ruleObj, "neighbors").items[k], Index(Field(ctx, "neighbors"), k)) == Ok(rule.neighbors[k]))
      && GetOr(ruleObj, "variant_ids", JArr([])).JArr?
      && |rule.variantIds| == |GetOr(ruleObj, "variant_ids", JArr([])).items|
      && (forall k :: 0 <= k < |rule.variantIds| ==>
            CoerceInt(GetOr(ruleObj, "variant_ids", JArr([])).items[k], Index(Field(ctx, "variant_ids"), k)) == Ok(rule.variantIds[k]))
      && (!HasKey(ruleObj, "variant_ids") ==> rule.variantIds == [])
      && Get(ruleObj, "name") == JStr(rule.name)
      && (!HasKey(ruleObj, "tileset_path") ==> rule.tilesetPath == "")
      && (HasKey(ruleObj, "tileset_path") ==> Get(ruleObj, "tileset_path") == JStr(rule.tilesetPath))
      && (rule.tilesetIndex.None? <==> Get(ruleObj, "tileset_index").JNull?)
      && rule.groupId == Get(ruleObj, "group_id")
  {
  }

  /** `neighbors` is an array of valid pairs and `variant_ids` (default
      empty) an array of int-like values. */
  predicate ListsValid(ruleObj: Fields, ctx: string) {
    var neighbors := Get(ruleObj, "neighbors");
    var variantIds := GetOr(ruleObj, "variant_ids", JArr([]));
    && neighbors.JArr?
    && (forall k :: 0 <= k < |neighbors.items| ==> ParsePair(neighbors.items[k], Index(Field(ctx, "neighbors"), k)).Ok?)
    && variantIds.JArr?
    && (forall k :: 0 <= k < |variantIds.items| ==> CoerceInt(variantIds.items[k], Index(Field(ctx, "variant_ids"), k)).Ok?)
  }

  /** A rule is accepted exactly when both lists are, `name` and
      `tileset_path` (default "") are strings, and `tileset_index` is null,
      missing or int-like. */
  lemma RuleAccepted(ruleObj: Fields, ctx: string)
    ensures RuleOf(ruleObj, ctx).Ok? <==>
      && ListsValid(ruleObj, ctx)
      && Get(ruleObj, "name").JStr?
      && GetOr(ruleObj, "tileset_path", JStr("")).JStr?
      && (Get(ruleObj, "tileset_index").JNull? || CoerceInt(Get(ruleObj, "tileset_index"), Field(ctx, "tileset_index")).Ok?)
  {
  }

  /** The fields are checked in the order `neighbors`, its entries,
      `variant_ids`, its entries, `name`, `tileset_path`, `tileset_index`: the first bad one is reported. */
  lemma RuleCheckOrder(ruleObj: Fields, ctx: string)
    ensures !Get(ruleObj, "neighbors").JArr? ==> RuleOf(ruleObj, ctx) == Err(Error(ExpectedArray, Field(ctx, "neighbors")))
    ensures Get(ruleObj, "neighbors").JArr?
            && ParseEach(Get(ruleObj, "neighbors").items, Field(ctx, "neighbors"), ParsePair).Err? ==>
      RuleOf(ruleObj, ctx) == Err(ParseEach(Get(ruleObj, "neighbors").items, Field(ctx, "neighbors"), ParsePair).error)
    ensures Get(ruleObj, "neighbors").JArr?
            && ParseEach(Get(ruleObj, "neighbors").items, Field(ctx, "neighbors"), ParsePair).Ok?
            && !GetOr(ruleObj, "variant_ids", JArr([])).JArr? ==>
      RuleOf(ruleObj, ctx) == Err(Error(ExpectedArray, Field(ctx, "variant_ids")))
    ensures Get(ruleObj, "neighbors").JArr?
            && ParseEach(Get(ruleObj, "neighbors").items, Field(ctx, "neighbors"), ParsePair).Ok?
            && GetOr(ruleObj, "variant_ids", JArr([])).JArr?
            && ParseEach(GetOr(ruleObj, "variant_ids", JArr([])).items, Field(ctx, "variant_ids"), CoerceInt).Err? ==>
      RuleOf(ruleObj, ctx) == Err(ParseEach(GetOr(ruleObj, "variant_ids", JArr([])).items, Field(ctx, "variant_ids"), CoerceInt).error)
    ensures ListsValid(ruleObj, ctx) && !Get(ruleObj, "name").JStr? ==>
      RuleOf(ruleObj, ctx) == Err(Error(ExpectedString, Field(ctx, "name")))
    ensures ListsValid(ruleObj, ctx) && Get(ruleObj, "name").JStr? && !GetOr(ruleObj, "tileset_path", JStr("")).JStr? ==>
      RuleOf(ruleObj, ctx) == Err(Error(ExpectedString, Field(ctx, "tileset_path")))
    ensures ListsValid(ruleObj, ctx) && Get(ruleObj, "name").JStr? && GetOr(ruleObj, "tileset_path", JStr("")).JStr?
            && !Get(ruleObj, "tileset_index").JNull?
            && CoerceInt(Get(ruleObj, "tileset_index"), Field(ctx, "tileset_index")).Err? ==>
      RuleOf(ruleObj, ctx) == Err(CoerceInt(Get(ruleObj, "tileset_index"), Field(ctx, "tileset_index")).error)
  {
  }

  /** A `neighbors` entry that is not an array of length two fails the rule. */
  lemma BadNeighborFails(ruleObj: Fields, ctx: string, k: nat)
    requires Get(ruleObj, "neighbors").JArr?
    requires k < |Get(ruleObj, "neighbors").items|
    requires var pair := Get(ruleObj, "neighbors").items[k]; !(pair.JArr? && |pair.items| == 2)
    ensures RuleOf(ruleObj, ctx).Err?
  {
    var raw := Get(ruleObj, "neighbors").items;
    assert ParsePair(raw[k], Index(Field(ctx, "neighbors"), k)).Err?;
  }

  /** An element of a group's `rules` list. */
  function RuleEntry(v: Json, ctx: string): (r: Result<AutotileRule>)
    ensures r.Ok? <==> v.JObj? && RuleOf(v.fields, ctx).Ok?
    ensures r.Ok? ==> r == RuleOf(v.fields, ctx)
  {
    var ruleDict :- RequireDict(v, ctx);
    RuleOf(ruleDict, ctx)
  }

  /** `rules` (default empty) is parsed element by element before `name` is checked. */
  function ParseGroup(groupObj: Fields, ctx: string): (r: Result<AutotileGroup>)
    ensures r.Ok? <==>
      && GetOr(groupObj, "rules", JArr([])).JArr?
      && (forall k :: 0 <= k < |GetOr(groupObj, "rules", JArr([])).items| ==>
            RuleEntry(GetOr(groupObj, "rules", JArr([])).items[k], Index(Field(ctx, "rules"), k)).Ok?)
      && Get(groupObj, "name").JStr?
    ensures !GetOr(groupObj, "rules", JArr([])).JArr? ==> r == Err(Error(ExpectedArray, Field(ctx, "rules")))
    ensures GetOr(groupObj, "rules", JArr([])).JArr?
            && ParseEach(GetOr(groupObj, "rules", JArr([])).items, Field(ctx, "rules"), RuleEntry).Err? ==>
      r == Err(ParseEach(GetOr(groupObj, "rules", JArr([])).items, Field(ctx, "rules"), RuleEntry).error)
    ensures GetOr(groupObj, "rules", JArr([])).JArr?
            && ParseEach(GetOr(groupObj, "rules", JArr([])).items, Field(ctx, "rules"), RuleEntry).Ok?
            && !Get(groupObj, "name").JStr? ==>
      r == Err(Error(ExpectedString, Field(ctx, "name")))
    ensures r.Ok? ==> GetOr(groupObj, "rules", JArr([])).JArr?
    ensures r.Ok? ==> |r.value.rules| == |GetOr(groupObj, "rules", JArr([])).items|
    ensures r.Ok? ==> forall k :: 0 <= k < |r.value.rules| ==>
      RuleEntry(GetOr(groupObj, "rules", JArr([])).items[k], Index(Field(ctx, "rules"), k)) == Ok(r.value.rules[k])
    ensures r.Ok? && !HasKey(groupObj, "rules") ==> r.value.rules == []
    ensures r.Ok? ==> Get(groupObj, "name") == JStr(r.value.name)
  {
    var rulesRaw :- RequireList(GetOr(groupObj, "rules", JArr([])), Field(ctx, "rules"));
    var rules :- ParseEach(rulesRaw, Field(ctx, "rules"), RuleEntry);
    var name :- RequireStr(Get(groupObj, "name"), Field(ctx, "name"));
    Ok(AutotileGroup(name, rules))
  }
}
