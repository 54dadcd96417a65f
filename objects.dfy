/** Sprites of an object layer: `_parse_object_area` and the dict-filling
    loop `_parse_objects`. */
module ObjectParsing {
  import opened Results
  import opened JsonValue
  import opened Numerals
  import opened Coerce
  import opened Collections
  import opened TilemapModel

  /** Four strict ints, checked in the order x, y, w, h. */
  function ParseObjectArea(areaObj: Fields, ctx: string): (r: Result<ObjectArea>)
    ensures r.Ok? <==> Get(areaObj, "x").JInt? && Get(areaObj, "y").JInt? && Get(areaObj, "w").JInt? && Get(areaObj, "h").JInt?
    ensures r.Ok? ==>
      && Get(areaObj, "x") == JInt(r.value.x) && Get(areaObj, "y") == JInt(r.value.y)
      && Get(areaObj, "w") == JInt(r.value.w) && Get(areaObj, "h") == JInt(r.value.h)
    ensures !Get(areaObj, "x").JInt? ==> r == Err(Error(ExpectedInt, Field(ctx, "x")))
    ensures Get(areaObj, "x").JInt? && !Get(areaObj, "y").JInt? ==> r == Err(Error(ExpectedInt, Field(ctx, "y")))
    ensures Get(areaObj, "x").JInt? && Get(areaObj, "y").JInt? && !Get(areaObj, "w").JInt? ==>
      r == Err(Error(ExpectedInt, Field(ctx, "w")))
    ensures Get(areaObj, "x").JInt? && Get(areaObj, "y").JInt? && Get(areaObj, "w").JInt? && !Get(areaObj, "h").JInt? ==>
      r == Err(Error(ExpectedInt, Field(ctx, "h")))
  {
    var x :- RequireInt(Get(areaObj, "x"), Field(ctx, "x"));
    var y :- RequireInt(Get(areaObj, "y"), Field(ctx, "y"));
    var w :- RequireInt(Get(areaObj, "w"), Field(ctx, "w"));
    var h :- RequireInt(Get(areaObj, "h"), Field(ctx, "h"));
    Ok(ObjectArea(x, y, w, h))
  }

  /** The sprite of one entry's value: `area` an object of four ints, `ttype`
      and `variant` strict ints, `tileset_type` a string, `properties` optional. */
  function ParseObjectSprite(objDict: Fields, ctx: string): (r: Result<ObjectSprite>)
    ensures r.Ok? <==>
      && Get(objDict, "area").JObj?
      && ParseObjectArea(Get(objDict, "area").fields, Field(ctx, "area")).Ok?
      && Get(objDict, "ttype").JInt?
      && Get(objDict, "tileset_type").JStr?
      && Get(objDict, "variant").JInt?
      && (Get(objDict, "properties").JNull? || Get(objDict, "properties").JObj?)
    ensures r.Ok? ==>
      && Ok(r.value.area) == ParseObjectArea(Get(objDict, "area").fields, Field(ctx, "area"))
      && Get(objDict, "ttype") == JInt(r.value.ttype)
      && Get(objDict, "tileset_type") == JStr(r.value.tilesetType)
      && Get(objDict, "variant") == JInt(r.value.variant)
      && (r.value.properties.None? <==> Get(objDict, "properties").JNull?)
      && (r.value.properties.Some? ==> Get(objDict, "properties") == JObj(r.value.properties.value))
    ensures !Get(objDict, "area").JObj? ==> r == Err(Error(ExpectedObject, Field(ctx, "area")))
    ensures Get(objDict, "area").JObj? && ParseObjectArea(Get(objDict, "area").fields, Field(ctx, "area")).Err? ==>
      r == Err(ParseObjectArea(Get(objDict, "area").fields, Field(ctx, "area")).error)
  {
    var areaDict :- RequireDict(Get(objDict, "area"), Field(ctx, "area"));
    var area :- ParseObjectArea(areaDict, Field(ctx, "area"));
    var ttype :- RequireInt(Get(objDict, "ttype"), Field(ctx, "ttype"));
    var tilesetType :- RequireStr(Get(objDict, "tileset_type"), Field(ctx, "tileset_type"));
    var variant :- RequireInt(Get(objDict, "variant"), Field(ctx, "variant"));
    var props :- OptionalDict(Get(objDict, "properties"), Field(ctx, "properties"));
    Ok(ObjectSprite(area, ttype, tilesetType, variant, props))
  }

  /** One entry `key: value` of an `objects` object: the id is `int(key)`,
      coerced before the value is looked at. */
  function ObjectEntry(entry: (string, Json), ctx: string): (r: Result<(int, ObjectSprite)>)
    ensures r.Ok? <==> ParseInt(entry.0).Some? && entry.1.JObj? && ParseObjectSprite(entry.1.fields, Field(ctx, entry.0)).Ok?
    ensures r.Ok? ==> Some(r.value.0) == ParseInt(entry.0)
    ensures r.Ok? ==> Ok(r.value.1) == ParseObjectSprite(entry.1.fields, Field(ctx, entry.0))
    ensures ParseInt(entry.0).None? ==> r == Err(Error(ExpectedIntLikeString, Field(ctx, "<id>")))
  {
    var objId :- CoerceInt(JStr(entry.0), Field(ctx, "<id>"));
    var objDict :- RequireDict(entry.1, Field(ctx, entry.0));
    var sprite :- ParseObjectSprite(objDict, Field(ctx, entry.0));
    Ok((objId, sprite))
  }

  method ParseObjects(objsObj: Fields, ctx: string) returns (r: Result<map<int, ObjectSprite>>)
    ensures r == BuildMap(objsObj, ctx, ObjectEntry)
  {
    var result: map<int, ObjectSprite> := map[];
    var i := 0;
    while i < |objsObj|
      invariant 0 <= i <= |objsObj|
      invariant BuildMap(objsObj, ctx, ObjectEntry) == BuildMapFrom(objsObj, ctx, ObjectEntry, i, result)
    {
      var (key, value) := objsObj[i];
      var objId :- CoerceInt(JStr(key), Field(ctx, "<id>"));
      var objDict :- RequireDict(value, Field(ctx, key));
      var sprite :- ParseObjectSprite(objDict, Field(ctx, key));
      result := result[objId := sprite];
      i := i + 1;
    }
    r := Ok(result);
  }

  /** The object map is keyed by the coerced ids of the raw keys: every
      entry's id is present, every id holds the sprite of an entry whose key
      reads as that id, and of two keys reading as the same id the later wins. */
  lemma ObjectsKeyedById(objsObj: Fields, ctx: string)
    requires BuildMap(objsObj, ctx, ObjectEntry).Ok?
    ensures forall k :: 0 <= k < |objsObj| ==> ParseInt(objsObj[k].0).Some? && ObjectEntry(objsObj[k], ctx).Ok?
    ensures var objects := BuildMap(objsObj, ctx, ObjectEntry).value;
      && (forall k :: 0 <= k < |objsObj| ==> ParseInt(objsObj[k].0).value in objects)
      && (forall id :: id in objects ==> exists k :: 0 <= k < |objsObj| && ParseInt(objsObj[k].0) == Some(id)
                                                     && ObjectEntry(objsObj[k], ctx).value.1 == objects[id])
      && (forall k :: 0 <= k < |objsObj| && LastWithKey(objsObj, ctx, ObjectEntry, k) ==>
            objects[ParseInt(objsObj[k].0).value] == ObjectEntry(objsObj[k], ctx).value.1)
  {
    BuildMapContents(objsObj, ctx, ObjectEntry);
  }

  /** `{"7": sprite}` gives the object map `{7: sprite}`. */
  lemma StringIdCoerced(value: Json, ctx: string)
    requires ObjectEntry(("7", value), ctx).Ok?
    ensures BuildMap([("7", value)], ctx, ObjectEntry).Ok?
    ensures BuildMap([("7", value)], ctx, ObjectEntry).value.Keys == {7}
  {
    assert DigitsValue("7") == 7 by { assert "7"[..0] == ""; }
    var kv := ObjectEntry(("7", value), ctx).value;
    assert BuildMapFrom([("7", value)], ctx, ObjectEntry, 1, map[kv.0 := kv.1]) == Ok(map[kv.0 := kv.1]);
  }
}
