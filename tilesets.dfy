/** Tileset resources: `_parse_tilesets`, an append loop over `tilesets`. */
module TilesetParsing {
  import opened Results
  import opened JsonValue
  import opened Coerce
  import opened Collections
  import opened TilemapModel

  /** One element of `tilesets`. Only the outer kind of `tile_properties` is
      checked: its values may be anything. */
  function TilesetEntry(ts: Json, ctx: string): (r: Result<TilesetResource>)
    ensures r.Ok? <==>
      && ts.JObj?
      && Get(ts.fields, "path").JStr?
      && Get(ts.fields, "type").JStr?
      && (Get(ts.fields, "properties").JNull? || Get(ts.fields, "properties").JObj?)
      && (Get(ts.fields, "tile_properties").JNull? || Get(ts.fields, "tile_properties").JObj?)
    ensures r.Ok? ==>
      && Get(ts.fields, "path") == JStr(r.value.path)
      && Get(ts.fields, "type") == JStr(r.value.tilesetType)
      && OptionalDict(Get(ts.fields, "properties"), Field(ctx, "properties")) == Ok(r.value.properties)
      && OptionalDict(Get(ts.fields, "tile_properties"), Field(ctx, "tile_properties")) == Ok(r.value.tileProperties)
  {
    var tsObj :- RequireDict(ts, ctx);
    var path :- RequireStr(Get(tsObj, "path"), Field(ctx, "path"));
    var tilesetType :- RequireStr(Get(tsObj, "type"), Field(ctx, "type"));
    var props :- OptionalDict(Get(tsObj, "properties"), Field(ctx, "properties"));
    var tileProps :- OptionalDict(Get(tsObj, "tile_properties"), Field(ctx, "tile_properties"));
    Ok(TilesetResource(path, tilesetType, props, tileProps))
  }

  /** The tileset list of a `resources` object (missing `tilesets`: none). */
  function TilesetsOf(resourcesObj: Fields, ctx: string): (r: Result<seq<TilesetResource>>)
    ensures r.Ok? <==>
      && GetOr(resourcesObj, "tilesets", JArr([])).JArr?
      && (forall k :: 0 <= k < |GetOr(resourcesObj, "tilesets", JArr([])).items| ==>
            TilesetEntry(GetOr(resourcesObj, "tilesets", JArr([])).items[k], Index(Field(ctx, "tilesets"), k)).Ok?)
    ensures !GetOr(resourcesObj, "tilesets", JArr([])).JArr? ==> r == Err(Error(ExpectedArray, Field(ctx, "tilesets")))
    ensures r.Ok? ==> GetOr(resourcesObj, "tilesets", JArr([])).JArr?
    ensures r.Ok? ==> |r.value| == |GetOr(resourcesObj, "tilesets", JArr([])).items|
    ensures r.Ok? ==> forall k :: 0 <= k < |r.value| ==>
      TilesetEntry(GetOr(resourcesObj, "tilesets", JArr([])).items[k], Index(Field(ctx, "tilesets"), k)) == Ok(r.value[k])
  {
    var tilesetsRaw :- RequireList(GetOr(resourcesObj, "tilesets", JArr([])), Field(ctx, "tilesets"));
    ParseEach(tilesetsRaw, Field(ctx, "tilesets"), TilesetEntry)
  }

  method ParseTilesets(resourcesObj: Fields, ctx: string) returns (r: Result<seq<TilesetResource>>)
    ensures r == TilesetsOf(resourcesObj, ctx)
  {
    var tilesetsCtx := Field(ctx, "tilesets");
    var tilesetsRaw :- RequireList(GetOr(resourcesObj, "tilesets", JArr([])), tilesetsCtx);
    var tilesets: seq<TilesetResource> := [];
    var i := 0;
    while i < |tilesetsRaw|
      invariant 0 <= i <= |tilesetsRaw|
      invariant ParseEach(tilesetsRaw, tilesetsCtx, TilesetEntry) == ParseEachFrom(tilesetsRaw, tilesetsCtx, TilesetEntry, i, tilesets)
    {
      var tsCtx := Index(tilesetsCtx, i);
      var tsObj :- RequireDict(tilesetsRaw[i], tsCtx);
      var path :- RequireStr(Get(tsObj, "path"), Field(tsCtx, "path"));
      var tilesetType :- RequireStr(Get(tsObj, "type"), Field(tsCtx, "type"));
      var props :- OptionalDict(Get(tsObj, "properties"), Field(tsCtx, "properties"));
      var tileProps :- OptionalDict(Get(tsObj, "tile_properties"), Field(tsCtx, "tile_properties"));
      tilesets := tilesets + [TilesetResource(path, tilesetType, props, tileProps)];
      i := i + 1;
    }
    r := Ok(tilesets);
  }
}
