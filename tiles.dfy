/** Tiles of a tile layer: `_parse_tile` and the dict-filling loop `_parse_tiles`. */
module TileParsing {
  import opened Results
  import opened JsonValue
  import opened Coerce
  import opened Collections
  import opened TilemapModel

  /** The checks run in the order `pos` is a string, `ttype`, `variant`,
      `properties`, and only then is `pos` decoded. */
  function ParseTile(tileData: Fields, ctx: string): (r: Result<Tile>)
    ensures r.Ok? <==>
      && Get(tileData, "pos").JStr?
      && CoerceInt(Get(tileData, "ttype"), Field(ctx, "ttype")).Ok?
      && Get(tileData, "variant").JInt?
      && (Get(tileData, "properties").JNull? || Get(tileData, "properties").JObj?)
      && ParsePoint(Get(tileData, "pos").s, Field(ctx, "pos")).Ok?
    ensures r.Ok? ==>
      && Ok(r.value.pos) == ParsePoint(Get(tileData, "pos").s, Field(ctx, "pos"))
      && Ok(r.value.ttype) == CoerceInt(Get(tileData, "ttype"), Field(ctx, "ttype"))
      && Get(tileData, "variant") == JInt(r.value.variant)
      && (r.value.properties.None? <==> Get(tileData, "properties").JNull?)
      && (r.value.properties.Some? ==> Get(tileData, "properties") == JObj(r.value.properties.value))
    ensures !Get(tileData, "pos").JStr? ==> r == Err(Error(ExpectedString, Field(ctx, "pos")))
    ensures Get(tileData, "pos").JStr? && CoerceInt(Get(tileData, "ttype"), Field(ctx, "ttype")).Ok?
            && !Get(tileData, "variant").JInt? ==>
      r == Err(Error(ExpectedInt, Field(ctx, "variant")))
    ensures Get(tileData, "pos").JStr? && CoerceInt(Get(tileData, "ttype"), Field(ctx, "ttype")).Ok?
            && Get(tileData, "variant").JInt?
            && !(Get(tileData, "properties").JNull? || Get(tileData, "properties").JObj?) ==>
      r == Err(Error(ExpectedObject, Field(ctx, "properties")))
    ensures Get(tileData, "pos").JStr? && CoerceInt(Get(tileData, "ttype"), Field(ctx, "ttype")).Ok?
            && Get(tileData, "variant").JInt?
            && (Get(tileData, "properties").JNull? || Get(tileData, "properties").JObj?)
            && ParsePoint(Get(tileData, "pos").s, Field(ctx, "pos")).Err? ==>
      r == Err(ParsePoint(Get(tileData, "pos").s, Field(ctx, "pos")).error)
  {
    var posStr :- RequireStr(Get(tileData, "pos"), Field(ctx, "pos"));
    var ttype :- CoerceInt(Get(tileData, "ttype"), Field(ctx, "ttype"));
    var variant :- RequireInt(Get(tileData, "variant"), Field(ctx, "variant"));
    var props :- OptionalDict(Get(tileData, "properties"), Field(ctx, "properties"));
    var pos :- ParsePoint(posStr, Field(ctx, "pos"));
    Ok(Tile(pos, ttype, variant, props))
  }

  /** A bad `ttype` is reported before a malformed `pos`. */
  lemma TtypeCheckedBeforePos(tileData: Fields, ctx: string)
    requires Get(tileData, "pos").JStr?
    requires CoerceInt(Get(tileData, "ttype"), Field(ctx, "ttype")).Err?
    ensures ParseTile(tileData, ctx) == Err(CoerceInt(Get(tileData, "ttype"), Field(ctx, "ttype")).error)
  {
  }

  /** The context label only ever shows up in an error: a tile that parses,
      parses the same under any label. */
  lemma TileIgnoresContext(tileData: Fields, ctx: string, ctx': string)
    requires ParseTile(tileData, ctx).Ok?
    ensures ParseTile(tileData, ctx') == ParseTile(tileData, ctx)
  {
    var pos := Get(tileData, "pos").s;
    assert ParsePoint(pos, Field(ctx', "pos")).Ok?;
    assert CoerceInt(Get(tileData, "ttype"), Field(ctx', "ttype")).Ok?;
  }

  /** One entry `key: value` of a `tiles` object, keyed by the position the
      value holds; the raw key only names the entry in the context label. */
  function TileEntry(entry: (string, Json), ctx: string): (r: Result<(Point, Tile)>)
    ensures r.Ok? <==> entry.1.JObj? && ParseTile(entry.1.fields, Field(ctx, entry.0)).Ok?
    ensures r.Ok? ==> r.value.1 == ParseTile(entry.1.fields, Field(ctx, entry.0)).value
    ensures r.Ok? ==> r.value.0 == r.value.1.pos
  {
    var tileDict :- RequireDict(entry.1, Field(ctx, entry.0));
    var tile :- ParseTile(tileDict, Field(ctx, entry.0));
    Ok((tile.pos, tile))
  }

  method ParseTiles(tilesObj: Fields, ctx: string) returns (r: Result<map<Point, Tile>>)
    ensures r == BuildMap(tilesObj, ctx, TileEntry)
  {
    var result: map<Point, Tile> := map[];
    var i := 0;
    while i < |tilesObj|
      invariant 0 <= i <= |tilesObj|
      invariant BuildMap(tilesObj, ctx, TileEntry) == BuildMapFrom(tilesObj, ctx, TileEntry, i, result)
    {
      var (key, value) := tilesObj[i];
      var tileDict :- RequireDict(value, Field(ctx, key));
      var tile :- ParseTile(tileDict, Field(ctx, key));
      result := result[tile.pos := tile];
      i := i + 1;
    }
    r := Ok(result);
  }

  /** In the tile map, every key is the position of its own tile; every entry
      is present under its position; and when several entries decode to the
      same position, the later one in input order wins. */
  lemma TilesKeyedByPosition(tilesObj: Fields, ctx: string)
    requires BuildMap(tilesObj, ctx, TileEntry).Ok?
    ensures forall k :: 0 <= k < |tilesObj| ==> TileEntry(tilesObj[k], ctx).Ok?
    ensures var tiles := BuildMap(tilesObj, ctx, TileEntry).value;
      && (forall p :: p in tiles ==> tiles[p].pos == p)
      && (forall p :: p in tiles ==> exists k :: 0 <= k < |tilesObj| && TileEntry(tilesObj[k], ctx).value.1 == tiles[p])
      && (forall k :: 0 <= k < |tilesObj| ==> TileEntry(tilesObj[k], ctx).value.1.pos in tiles)
      && (forall k :: 0 <= k < |tilesObj| && LastWithKey(tilesObj, ctx, TileEntry, k) ==>
            tiles[TileEntry(tilesObj[k], ctx).value.1.pos] == TileEntry(tilesObj[k], ctx).value.1)
  {
    BuildMapContents(tilesObj, ctx, TileEntry);
    var tiles := BuildMap(tilesObj, ctx, TileEntry).value;
    forall p | p in tiles
      ensures tiles[p].pos == p
      ensures exists k :: 0 <= k < |tilesObj| && TileEntry(tilesObj[k], ctx).value.1 == tiles[p]
    {
      var k :| 0 <= k < |tilesObj| && TileEntry(tilesObj[k], ctx).value == (p, tiles[p]);
    }
  }

  /** Two entries at the same position: the map holds only the second. */
  lemma DuplicatePositionLastWins(first: (string, Json), second: (string, Json), ctx: string)
    requires TileEntry(first, ctx).Ok? && TileEntry(second, ctx).Ok?
    requires TileEntry(first, ctx).value.0 == TileEntry(second, ctx).value.0
    ensures var t := TileEntry(second, ctx).value.1;
      BuildMap([first, second], ctx, TileEntry) == Ok(map[t.pos := t])
  {
    var entries := [first, second];
    var a := TileEntry(first, ctx).value;
    var b := TileEntry(second, ctx).value;
    assert BuildMapFrom(entries, ctx, TileEntry, 2, map[a.0 := a.1][b.0 := b.1]) == Ok(map[a.0 := a.1][b.0 := b.1]);
    assert BuildMapFrom(entries, ctx, TileEntry, 1, map[a.0 := a.1]) == Ok(map[a.0 := a.1][b.0 := b.1]);
    assert map[a.0 := a.1][b.0 := b.1] == map[b.1.pos := b.1];
  }
}
