/** `_parse_layer`: the seven shared fields, then a dispatch on the layer's
    `type` string. */
module LayerParsing {
  import opened Results
  import opened JsonValue
  import opened Coerce
  import opened Collections
  import opened TilemapModel
  import opened TileParsing
  import opened ObjectParsing

  /** `next_object_id` is read only when the key is present. */
  function NextObjectId(layerObj: Fields, ctx: string): (r: Result<Option<int>>)
    ensures !HasKey(layerObj, "next_object_id") ==> r == Ok(None)
    ensures HasKey(layerObj, "next_object_id") ==>
      r == (if Get(layerObj, "next_object_id").JInt? then Ok(Some(Get(layerObj, "next_object_id").i))
            else Err(Error(ExpectedInt, Field(ctx, "next_object_id"))))
  {
    if HasKey(layerObj, "next_object_id") then
      var n :- RequireInt(Get(layerObj, "next_object_id"), Field(ctx, "next_object_id"));
      Ok(Some(n))
    else
      Ok(None)
  }

  /** The seven shared fields have the kinds the loader requires. */
  predicate SharedFieldsValid(layerObj: Fields) {
    && Get(layerObj, "name").JStr?
    && Get(layerObj, "type").JStr?
    && Get(layerObj, "visible").JBool?
    && Get(layerObj, "locked").JBool?
    && (Get(layerObj, "opacity").JInt? || Get(layerObj, "opacity").JNum?)
    && Get(layerObj, "z_index").JInt?
    && (Get(layerObj, "properties").JNull? || Get(layerObj, "properties").JObj?)
  }

  /** The seven shared fields, in the order the loader checks them: the
      first field of the wrong kind is the one reported. */
  function ParseBaseLayer(layerObj: Fields, ctx: string): (r: Result<BaseLayer>)
    ensures r.Ok? <==> SharedFieldsValid(layerObj)
    ensures r.Ok? ==>
      && Get(layerObj, "name") == JStr(r.value.name)
      && Get(layerObj, "type") == JStr(r.value.layerType)
      && Get(layerObj, "visible") == JBool(r.value.visible)
      && Get(layerObj, "locked") == JBool(r.value.locked)
      && RequireFloat(Get(layerObj, "opacity"), Field(ctx, "opacity")) == Ok(r.value.opacity)
      && Get(layerObj, "z_index") == JInt(r.value.zIndex)
      && OptionalDict(Get(layerObj, "properties"), Field(ctx, "properties")) == Ok(r.value.properties)
    ensures !Get(layerObj, "name").JStr? ==> r == Err(Error(ExpectedString, Field(ctx, "name")))
    ensures Get(layerObj, "name").JStr? && !Get(layerObj, "type").JStr? ==>
      r == Err(Error(ExpectedString, Field(ctx, "type")))
    ensures Get(layerObj, "name").JStr? && Get(layerObj, "type").JStr? && !Get(layerObj, "visible").JBool? ==>
      r == Err(Error(ExpectedBool, Field(ctx, "visible")))
    ensures Get(layerObj, "name").JStr? && Get(layerObj, "type").JStr? && Get(layerObj, "visible").JBool?
            && !Get(layerObj, "locked").JBool? ==>
      r == Err(Error(ExpectedBool, Field(ctx, "locked")))
    ensures Get(layerObj, "name").JStr? && Get(layerObj, "type").JStr? && Get(layerObj, "visible").JBool?
            && Get(layerObj, "locked").JBool? && !(Get(layerObj, "opacity").JInt? || Get(layerObj, "opacity").JNum?) ==>
      r == Err(Error(ExpectedFloat, Field(ctx, "opacity")))
    ensures Get(layerObj, "name").JStr? && Get(layerObj, "type").JStr? && Get(layerObj, "visible").JBool?
            && Get(layerObj, "locked").JBool? && (Get(layerObj, "opacity").JInt? || Get(layerObj, "opacity").JNum?)
            && !Get(layerObj, "z_index").JInt? ==>
      r == Err(Error(ExpectedInt, Field(ctx, "z_index")))
    ensures Get(layerObj, "name").JStr? && Get(layerObj, "type").JStr? && Get(layerObj, "visible").JBool?
            && Get(layerObj, "locked").JBool? && (Get(layerObj, "opacity").JInt? || Get(layerObj, "opacity").JNum?)
            && Get(layerObj, "z_index").JInt? && !(Get(layerObj, "properties").JNull? || Get(layerObj, "properties").JObj?) ==>
      r == Err(Error(ExpectedObject, Field(ctx, "properties")))
  {
    var name :- RequireStr(Get(layerObj, "name"), Field(ctx, "name"));
    var layerType :- RequireStr(Get(layerObj, "type"), Field(ctx, "type"));
    var visible :- RequireBool(Get(layerObj, "visible"), Field(ctx, "visible"));
    var locked :- RequireBool(Get(layerObj, "locked"), Field(ctx, "locked"));
    var opacity :- RequireFloat(Get(layerObj, "opacity"), Field(ctx, "opacity"));
    var zIndex :- RequireInt(Get(layerObj, "z_index"), Field(ctx, "z_index"));
    var props :- OptionalDict(Get(layerObj, "properties"), Field(ctx, "properties"));
    Ok(BaseLayer(name, layerType, visible, locked, opacity, zIndex, props))
  }

  function ObjectLayerOf(layerObj: Fields, ctx: string, base: BaseLayer): Result<Layer> {
    var objsObj :- RequireDict(GetOr(layerObj, "objects", JObj([])), Field(ctx, "objects"));
    var objects :- BuildMap(objsObj, Field(ctx, "objects"), ObjectEntry);
    var nextId :- NextObjectId(layerObj, ctx);
    Ok(ObjectLayer(base, objects, nextId))
  }

  function TileLayerOf(layerObj: Fields, ctx: string, base: BaseLayer): Result<Layer> {
    var tilesObj :- RequireDict(GetOr(layerObj, "tiles", JObj([])), Field(ctx, "tiles"));
    var tiles :- BuildMap(tilesObj, Field(ctx, "tiles"), TileEntry);
    Ok(TileLayer(base, tiles))
  }

  /** The layer a layer object parses to. */
  function LayerOf(layerObj: Fields, ctx: string): Result<Layer> {
    var base :- ParseBaseLayer(layerObj, ctx);
    if base.layerType == "object" then ObjectLayerOf(layerObj, ctx, base) else TileLayerOf(layerObj, ctx, base)
  }

  /** The layer is built with its shared fields, and its collection (and
      next id) are assigned afterwards. */
  method ParseLayer(layerObj: Fields, ctx: string) returns (r: Result<Layer>)
    ensures r == LayerOf(layerObj, ctx)
  {
    var name :- RequireStr(Get(layerObj, "name"), Field(ctx, "name"));
    var layerType :- RequireStr(Get(layerObj, "type"), Field(ctx, "type"));
    var visible :- RequireBool(Get(layerObj, "visible"), Field(ctx, "visible"));
    var locked :- RequireBool(Get(layerObj, "locked"), Field(ctx, "locked"));
    var opacity :- RequireFloat(Get(layerObj, "opacity"), Field(ctx, "opacity"));
    var zIndex :- RequireInt(Get(layerObj, "z_index"), Field(ctx, "z_index"));
    var props :- OptionalDict(Get(layerObj, "properties"), Field(ctx, "properties"));
    var base := BaseLayer(name, layerType, visible, locked, opacity, zIndex, props);
    if layerType == "object" {
      var layer := ObjectLayer(base, map[], None);
      var objsObj :- RequireDict(GetOr(layerObj, "objects", JObj([])), Field(ctx, "objects"));
      var objects :- ParseObjects(objsObj, Field(ctx, "objects"));
      layer := layer.(objects := objects);
      if HasKey(layerObj, "next_object_id") {
        var nextId :- RequireInt(Get(layerObj, "next_object_id"), Field(ctx, "next_object_id"));
        layer := layer.(nextObjectId := Some(nextId));
      }
      r := Ok(layer);
    } else {
      var layer := TileLayer(base, map[]);
      var tilesObj :- RequireDict(GetOr(layerObj, "tiles", JObj([])), Field(ctx, "tiles"));
      var tiles :- ParseTiles(tilesObj, Field(ctx, "tiles"));
      layer := layer.(tiles := tiles);
      r := Ok(layer);
    }
  }

  /** A parsed layer is an object layer exactly when its `type` is the
      string "object"; the shared fields are the document's, with the
      opacity widened to a float. */
  lemma LayerDispatch(layerObj: Fields, ctx: string)
    requires LayerOf(layerObj, ctx).Ok?
    ensures var layer := LayerOf(layerObj, ctx).value;
      && (layer.ObjectLayer? <==> Get(layerObj, "type") == JStr("object"))
      && Ok(layer.base) == ParseBaseLayer(layerObj, ctx)
  {
  }

  /** The collection of an object layer is accepted: `objects` (default
      empty) is an object whose every entry parses, and `next_object_id`,
      when present, is an int. */
  predicate ObjectPartValid(layerObj: Fields, ctx: string) {
    var objs := GetOr(layerObj, "objects", JObj([]));
    && objs.JObj?
    && (forall k :: 0 <= k < |objs.fields| ==> ObjectEntry(objs.fields[k], Field(ctx, "objects")).Ok?)
    && (HasKey(layerObj, "next_object_id") ==> Get(layerObj, "next_object_id").JInt?)
  }

  /** The collection of a tile layer is accepted: `tiles` (default empty) is
      an object whose every entry parses. */
  predicate TilePartValid(layerObj: Fields, ctx: string) {
    var tiles := GetOr(layerObj, "tiles", JObj([]));
    && tiles.JObj?
    && (forall k :: 0 <= k < |tiles.fields| ==> TileEntry(tiles.fields[k], Field(ctx, "tiles")).Ok?)
  }

  /** A layer is accepted exactly when its shared fields are, and then the
      collection its `type` selects; a failing shared field is reported
      before anything about the collection. */
  lemma LayerAccepted(layerObj: Fields, ctx: string)
    ensures LayerOf(layerObj, ctx).Ok? <==>
      && SharedFieldsValid(layerObj)
      && (if Get(layerObj, "type") == JStr("object") then ObjectPartValid(layerObj, ctx)
          else TilePartValid(layerObj, ctx))
    ensures ParseBaseLayer(layerObj, ctx).Err? ==> LayerOf(layerObj, ctx) == Err(ParseBaseLayer(layerObj, ctx).error)
  {
    var base := ParseBaseLayer(layerObj, ctx);
    if base.Ok? {
      if base.value.layerType == "object" {
        ObjectPartAccepted(layerObj, ctx, base.value);
      } else {
        TilePartAccepted(layerObj, ctx, base.value);
      }
    }
  }

  lemma ObjectPartAccepted(layerObj: Fields, ctx: string, base: BaseLayer)
    ensures ObjectLayerOf(layerObj, ctx, base).Ok? <==> ObjectPartValid(layerObj, ctx)
  {
    var objs := GetOr(layerObj, "objects", JObj([]));
    if objs.JObj? {
      assert BuildMap(objs.fields, Field(ctx, "objects"), ObjectEntry)
          == BuildMapFrom(objs.fields, Field(ctx, "objects"), ObjectEntry, 0, map[]);
    }
  }

  lemma TilePartAccepted(layerObj: Fields, ctx: string, base: BaseLayer)
    ensures TileLayerOf(layerObj, ctx, base).Ok? <==> TilePartValid(layerObj, ctx)
  {
    var tiles := GetOr(layerObj, "tiles", JObj([]));
    if tiles.JObj? {
      assert BuildMap(tiles.fields, Field(ctx, "tiles"), TileEntry)
          == BuildMapFrom(tiles.fields, Field(ctx, "tiles"), TileEntry, 0, map[]);
    }
  }

  /** The two layer objects bind every key outside `keys` alike. */
  ghost predicate AgreeExcept(a: Fields, b: Fields, keys: set<string>) {
    forall k :: k !in keys ==> Lookup(a, k) == Lookup(b, k)
  }

  /** The keys of the collections, none of which is a shared field. */
  lemma CollectionKeys(key: string)
    requires key in {"tiles", "objects", "next_object_id"}
    ensures key != "name" && key != "type" && key != "visible" && key != "locked"
    ensures key != "opacity" && key != "z_index" && key != "properties"
  {
  }

  /** The shared fields do not involve `tiles`, `objects` or `next_object_id`. */
  lemma SameBaseLayer(a: Fields, b: Fields, keys: set<string>, ctx: string)
    requires AgreeExcept(a, b, keys)
    requires keys <= {"tiles", "objects", "next_object_id"}
    ensures ParseBaseLayer(a, ctx) == ParseBaseLayer(b, ctx)
  {
    forall key | key in keys
      ensures key != "name" && key != "type" && key != "visible" && key != "locked"
      ensures key != "opacity" && key != "z_index" && key != "properties"
    {
      CollectionKeys(key);
    }
    assert Lookup(a, "name") == Lookup(b, "name");
    assert Lookup(a, "type") == Lookup(b, "type");
    assert Lookup(a, "visible") == Lookup(b, "visible");
    assert Lookup(a, "locked") == Lookup(b, "locked");
    assert Lookup(a, "opacity") == Lookup(b, "opacity");
    assert Lookup(a, "z_index") == Lookup(b, "z_index");
    assert Lookup(a, "properties") == Lookup(b, "properties");
    SameSharedFields(a, b, ctx);
  }

  lemma SameSharedFields(a: Fields, b: Fields, ctx: string)
    requires Lookup(a, "name") == Lookup(b, "name")
    requires Lookup(a, "type") == Lookup(b, "type")
    requires Lookup(a, "visible") == Lookup(b, "visible")
    requires Lookup(a, "locked") == Lookup(b, "locked")
    requires Lookup(a, "opacity") == Lookup(b, "opacity")
    requires Lookup(a, "z_index") == Lookup(b, "z_index")
    requires Lookup(a, "properties") == Lookup(b, "properties")
    ensures ParseBaseLayer(a, ctx) == ParseBaseLayer(b, ctx)
  {
    SameGet(a, b, "name");
    SameGet(a, b, "type");
    SameGet(a, b, "visible");
    SameGet(a, b, "locked");
    SameGet(a, b, "opacity");
    SameGet(a, b, "z_index");
    SameGet(a, b, "properties");
    SameShared(a, b, ctx);
  }

  lemma SameGet(a: Fields, b: Fields, key: string)
    requires Lookup(a, key) == Lookup(b, key)
    ensures Get(a, key) == Get(b, key)
  {
  }

  lemma SameShared(a: Fields, b: Fields, ctx: string)
    requires Get(a, "name") == Get(b, "name") && Get(a, "type") == Get(b, "type")
    requires Get(a, "visible") == Get(b, "visible") && Get(a, "locked") == Get(b, "locked")
    requires Get(a, "opacity") == Get(b, "opacity") && Get(a, "z_index") == Get(b, "z_index")
    requires Get(a, "properties") == Get(b, "properties")
    ensures ParseBaseLayer(a, ctx) == ParseBaseLayer(b, ctx)
  {
  }

  /** An object layer does not look at `tiles`. */
  lemma ObjectLayerIgnoresTiles(a: Fields, b: Fields, ctx: string)
    requires AgreeExcept(a, b, {"tiles"})
    requires Get(a, "type") == JStr("object")
    ensures LayerOf(a, ctx) == LayerOf(b, ctx)
  {
    SameBaseLayer(a, b, {"tiles"}, ctx);
    SameObjectKeys(a, b);
    SameObjectLayer(a, b, ctx);
  }

  lemma SameObjectKeys(a: Fields, b: Fields)
    requires AgreeExcept(a, b, {"tiles"})
    ensures Lookup(a, "objects") == Lookup(b, "objects")
    ensures Lookup(a, "next_object_id") == Lookup(b, "next_object_id")
  {
    assert "objects" !in {"tiles"} && "next_object_id" !in {"tiles"};
  }

  lemma SameObjectLayer(a: Fields, b: Fields, ctx: string)
    requires ParseBaseLayer(a, ctx) == ParseBaseLayer(b, ctx)
    requires Lookup(a, "objects") == Lookup(b, "objects")
    requires Lookup(a, "next_object_id") == Lookup(b, "next_object_id")
    requires Get(a, "type") == JStr("object")
    ensures LayerOf(a, ctx) == LayerOf(b, ctx)
  {
    assert GetOr(a, "objects", JObj([])) == GetOr(b, "objects", JObj([]));
    assert NextObjectId(a, ctx) == NextObjectId(b, ctx);
  }

  /** A layer of any other type does not look at `objects` or `next_object_id`. */
  lemma TileLayerIgnoresObjects(a: Fields, b: Fields, ctx: string)
    requires AgreeExcept(a, b, {"objects", "next_object_id"})
    requires Get(a, "type").JStr? && Get(a, "type") != JStr("object")
    ensures LayerOf(a, ctx) == LayerOf(b, ctx)
  {
    SameBaseLayer(a, b, {"objects", "next_object_id"}, ctx);
    SameTileKey(a, b);
    SameTileLayer(a, b, ctx);
  }

  lemma SameTileKey(a: Fields, b: Fields)
    requires AgreeExcept(a, b, {"objects", "next_object_id"})
    ensures Lookup(a, "tiles") == Lookup(b, "tiles")
  {
    assert "tiles" !in {"objects", "next_object_id"};
  }

  lemma SameTileLayer(a: Fields, b: Fields, ctx: string)
    requires ParseBaseLayer(a, ctx) == ParseBaseLayer(b, ctx)
    requires Lookup(a, "tiles") == Lookup(b, "tiles")
    requires Get(a, "type") != JStr("object")
    ensures LayerOf(a, ctx) == LayerOf(b, ctx)
  {
    assert GetOr(a, "tiles", JObj([])) == GetOr(b, "tiles", JObj([]));
  }

  /** A missing collection is an empty one. */
  lemma AbsentCollectionIsEmpty(layerObj: Fields, ctx: string)
    requires LayerOf(layerObj, ctx).Ok?
    ensures var layer := LayerOf(layerObj, ctx).value;
      && (layer.TileLayer? && !HasKey(layerObj, "tiles") ==> layer.tiles == map[])
      && (layer.ObjectLayer? && !HasKey(layerObj, "objects") ==> layer.objects == map[])
  {
  }

  /** An explicit null is not a missing key: it fails. */
  lemma NullCollectionFails(layerObj: Fields, ctx: string)
    requires Get(layerObj, "type").JStr?
    requires Get(layerObj, "type") == JStr("object") ==> Lookup(layerObj, "objects") == Some(JNull)
    requires Get(layerObj, "type") != JStr("object") ==> Lookup(layerObj, "tiles") == Some(JNull)
    ensures LayerOf(layerObj, ctx).Err?
  {
  }

  /** `next_object_id` is set exactly when the key is present, and then holds
      its int; a present null (or any non-int) fails. */
  lemma NextObjectIdPresence(layerObj: Fields, ctx: string)
    requires LayerOf(layerObj, ctx).Ok?
    requires LayerOf(layerObj, ctx).value.ObjectLayer?
    ensures var layer := LayerOf(layerObj, ctx).value;
      && (layer.nextObjectId.Some? <==> HasKey(layerObj, "next_object_id"))
      && (layer.nextObjectId.Some? ==> Get(layerObj, "next_object_id") == JInt(layer.nextObjectId.value))
  {
  }
}
