/** The typed tilemap the loader builds (the dataclasses of the loader). */
module TilemapModel {
  import opened Results
  import opened JsonValue
  import opened Coerce

  datatype Tile = Tile(pos: Point, ttype: int, variant: int, properties: Option<Fields>)

  datatype ObjectArea = ObjectArea(x: int, y: int, w: int, h: int)

  datatype ObjectSprite = ObjectSprite(
    area: ObjectArea,
    ttype: int,
    tilesetType: string,
    variant: int,
    properties: Option<Fields>)

  /** The fields every layer has. */
  datatype BaseLayer = BaseLayer(
    name: string,
    layerType: string,
    visible: bool,
    locked: bool,
    opacity: real,
    zIndex: int,
    properties: Option<Fields>)

  /** The two subclasses of `BaseLayer`. */
  datatype Layer =
    | TileLayer(base: BaseLayer, tiles: map<Point, Tile>)
    | ObjectLayer(base: BaseLayer, objects: map<int, ObjectSprite>, nextObjectId: Option<int>)

  /** `group_id` is carried as whatever value the document holds there. */
  datatype AutotileRule = AutotileRule(
    name: string,
    neighbors: seq<Point>,
    tilesetPath: string,
    tilesetIndex: Option<int>,
    variantIds: seq<int>,
    groupId: Json)

  datatype AutotileGroup = AutotileGroup(name: string, rules: seq<AutotileRule>)

  datatype TilesetResource = TilesetResource(
    path: string,
    tilesetType: string,
    properties: Option<Fields>,
    tileProperties: Option<Fields>)

  datatype TilemapMeta = TilemapMeta(
    tileSize: Point,
    mapSize: Point,
    initialMapSize: Point,
    zoomLevel: real,
    scroll: Point,
    version: string)

  datatype TilemapProjectState = TilemapProjectState(rules: seq<AutotileRule>, groups: seq<AutotileGroup>)

  datatype TilemapData = TilemapData(layers: seq<Layer>)

  datatype TilemapResources = TilemapResources(tilesets: seq<TilesetResource>)

  /** The root; `raw` keeps the whole input object. */
  datatype Tilemap = Tilemap(
    meta: TilemapMeta,
    projectState: TilemapProjectState,
    data: TilemapData,
    resources: TilemapResources,
    raw: Fields)
}
