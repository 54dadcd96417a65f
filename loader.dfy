/** `parse_tilemap_dict`: the root object, its metadata with their defaults,
    and the four top-level collections in document order. */
module TilemapLoader {
  import opened Results
  import opened JsonValue
  import opened Coerce
  import opened Collections
  import opened TilemapModel
  import opened LayerParsing
  import opened RuleParsing
  import opened TilesetParsing

  /** A point-valued meta field: a string, then decoded. */
  function MetaPoint(v: Json, ctx: string): (r: Result<Point>)
    ensures r.Ok? <==> v.JStr? && ParsePoint(v.s, ctx).Ok?
    ensures r.Ok? ==> ParsePoint(v.s, ctx) == r
  {
    var text :- RequireStr(v, ctx);
    ParsePoint(text, ctx)
  }

  /** `meta`: `tile_size` and `map_size` are required, then the optional
      fields are read. */
  function ParseMeta(metaObj: Fields): Result<TilemapMeta> {
    var tileSize :- MetaPoint(Get(metaObj, "tile_size"), "payload.meta.tile_size");
    var mapSize :- MetaPoint(Get(metaObj, "map_size"), "payload.meta.map_size");
    MetaOptionals(metaObj, tileSize, mapSize)
  }

  /** The optional meta fields: `initial_map_size` defaults to the text of
      `map_size`, `zoom_level` to 1.0, `scroll` to "0;0" and `version` to
      "1.1". */
  function MetaOptionals(metaObj: Fields, tileSize: Point, mapSize: Point): Result<TilemapMeta> {
    var initialMapSize :- MetaPoint(GetOr(metaObj, "initial_map_size", JStr(FormatPoint(mapSize))), "payload.meta.initial_map_size");
    var zoomLevel :- RequireFloat(GetOr(metaObj, "zoom_level", JNum(1.0)), "payload.meta.zoom_level");
    var scroll :- MetaPoint(GetOr(metaObj, "scroll", JStr("0;0")), "payload.meta.scroll");
    var version :- RequireStr(GetOr(metaObj, "version", JStr("1.1")), "payload.meta.version");
    Ok(TilemapMeta(tileSize, mapSize, initialMapSize, zoomLevel, scroll, version))
  }

  function LayerEntry(v: Json, ctx: string): Result<Layer> {
    var layerDict :- RequireDict(v, ctx);
    LayerOf(layerDict, ctx)
  }

  function GroupEntry(v: Json, ctx: string): Result<AutotileGroup> {
    var groupDict :- RequireDict(v, ctx);
    ParseGroup(groupDict, ctx)
  }

  /** The raw lists the root reads, with their defaults. */
  function LayersRaw(dataObj: Fields): Json {
    GetOr(dataObj, "layers", JArr([]))
  }

  function ProjectStateRaw(root: Fields): Json {
    GetOr(root, "project_state", JObj([]))
  }

  function ResourcesRaw(root: Fields): Json {
    GetOr(root, "resources", JObj([("tilesets", JArr([]))]))
  }

  /** The tilemap a document parses to: the root object, `meta`, `data`,
      `project_state` and `resources`, in that order; the first failure
      aborts the parse. */
  function TilemapOf(payload: Json): Result<Tilemap> {
    var root :- RequireDict(payload, "payload");
    var metaObj :- RequireDict(Get(root, "meta"), "payload.meta");
    var meta :- ParseMeta(metaObj);
    var data :- DataOf(root);
    var projectState :- ProjectStateOf(root);
    var resources :- ResourcesOf(root);
    Ok(Tilemap(meta, projectState, data, resources, root))
  }

  /** `data`, required, with its `layers` list (default empty). */
  function DataOf(root: Fields): Result<TilemapData> {
    var dataObj :- RequireDict(Get(root, "data"), "payload.data");
    var layersRaw :- RequireList(LayersRaw(dataObj), "payload.data.layers");
    var layers :- ParseEach(layersRaw, "payload.data.layers", LayerEntry);
    Ok(TilemapData(layers))
  }

  /** `project_state` (default empty) with its `rules`, then its `groups`. */
  function ProjectStateOf(root: Fields): Result<TilemapProjectState> {
    var projectStateObj :- RequireDict(ProjectStateRaw(root), "payload.project_state");
    var rulesRaw :- RequireList(GetOr(projectStateObj, "rules", JArr([])), "payload.project_state.rules");
    var rules :- ParseEach(rulesRaw, "payload.project_state.rules", RuleEntry);
    var groupsRaw :- RequireList(GetOr(projectStateObj, "groups", JArr([])), "payload.project_state.groups");
    var groups :- ParseEach(groupsRaw, "payload.project_state.groups", GroupEntry);
    Ok(TilemapProjectState(rules, groups))
  }

  /** `resources` (default: no tilesets). */
  function ResourcesOf(root: Fields): Result<TilemapResources> {
    var resourcesObj :- RequireDict(ResourcesRaw(root), "payload.resources");
    var tilesets :- TilesetsOf(resourcesObj, "payload.resources");
    Ok(TilemapResources(tilesets))
  }

  method ParseTilemapDict(payload: Json) returns (r: Result<Tilemap>)
    ensures r == TilemapOf(payload)
  {
    var root :- RequireDict(payload, "payload");
    var metaObj :- RequireDict(Get(root, "meta"), "payload.meta");
    var meta :- ParseMeta(metaObj);

    var dataObj :- RequireDict(Get(root, "data"), "payload.data");
    var layersRaw :- RequireList(LayersRaw(dataObj), "payload.data.layers");
    var layers: seq<Layer> := [];
    var i := 0;
    while i < |layersRaw|
      invariant 0 <= i <= |layersRaw|
      invariant ParseEach(layersRaw, "payload.data.layers", LayerEntry)
             == ParseEachFrom(layersRaw, "payload.data.layers", LayerEntry, i, layers)
    {
      var layerCtx := Index("payload.data.layers", i);
      var layerDict :- RequireDict(layersRaw[i], layerCtx);
      var layer :- ParseLayer(layerDict, layerCtx);
      layers := layers + [layer];
      i := i + 1;
    }

    var projectStateObj :- RequireDict(ProjectStateRaw(root), "payload.project_state");
    var rulesRaw :- RequireList(GetOr(projectStateObj, "rules", JArr([])), "payload.project_state.rules");
    var rules: seq<AutotileRule> := [];
    i := 0;
    while i < |rulesRaw|
      invariant 0 <= i <= |rulesRaw|
      invariant ParseEach(rulesRaw, "payload.project_state.rules", RuleEntry)
             == ParseEachFrom(rulesRaw, "payload.project_state.rules", RuleEntry, i, rules)
    {
      var ruleCtx := Index("payload.project_state.rules", i);
      var ruleDict :- RequireDict(rulesRaw[i], ruleCtx);
      var rule :- ParseRule(ruleDict, ruleCtx);
      rules := rules + [rule];
      i := i + 1;
    }
    var groupsRaw :- RequireList(GetOr(projectStateObj, "groups", JArr([])), "payload.project_state.groups");
    var groups :- ParseEach(groupsRaw, "payload.project_state.groups", GroupEntry);

    var resourcesObj :- RequireDict(ResourcesRaw(root), "payload.resources");
    var tilesets :- ParseTilesets(resourcesObj, "payload.resources");

    r := Ok(Tilemap(meta, TilemapProjectState(rules, groups), TilemapData(layers), TilemapResources(tilesets), root));
  }

  /** The two required sizes are decoded from their fields, and the optional
      fields that are missing take their defaults; in particular
      `initial_map_size` equals `map_size`, since the formatted size reads
      back as itself. */
  lemma MetaDefaults(metaObj: Fields)
    requires ParseMeta(metaObj).Ok?
    ensures var meta := ParseMeta(metaObj).value;
      && MetaPoint(Get(metaObj, "tile_size"), "payload.meta.tile_size") == Ok(meta.tileSize)
      && MetaPoint(Get(metaObj, "map_size"), "payload.meta.map_size") == Ok(meta.mapSize)
      && (!HasKey(metaObj, "initial_map_size") ==> meta.initialMapSize == meta.mapSize)
      && (!HasKey(metaObj, "zoom_level") ==> meta.zoomLevel == 1.0)
      && (!HasKey(metaObj, "scroll") ==> meta.scroll == Point(0, 0))
      && (!HasKey(metaObj, "version") ==> meta.version == "1.1")
    ensures var meta := ParseMeta(metaObj).value;
      && (HasKey(metaObj, "initial_map_size") ==>
            MetaPoint(Get(metaObj, "initial_map_size"), "payload.meta.initial_map_size") == Ok(meta.initialMapSize))
      && (HasKey(metaObj, "zoom_level") ==>
            RequireFloat(Get(metaObj, "zoom_level"), "payload.meta.zoom_level") == Ok(meta.zoomLevel))
      && (HasKey(metaObj, "scroll") ==> MetaPoint(Get(metaObj, "scroll"), "payload.meta.scroll") == Ok(meta.scroll))
      && (HasKey(metaObj, "version") ==> Get(metaObj, "version") == JStr(meta.version))
  {
    var tileSize := MetaPoint(Get(metaObj, "tile_size"), "payload.meta.tile_size").value;
    var mapSize := MetaPoint(Get(metaObj, "map_size"), "payload.meta.map_size").value;
    assert ParseMeta(metaObj) == MetaOptionals(metaObj, tileSize, mapSize);
    OptionalDefaults(metaObj, tileSize, mapSize);
    OptionalsPresent(metaObj, tileSize, mapSize);
  }

  /** The meta object is accepted exactly when `tile_size` and `map_size`
      are point strings and the optional fields present are well formed;
      `tile_size` is checked first, then `map_size`, then the rest. */
  lemma MetaAccepted(metaObj: Fields)
    ensures var tileSize := MetaPoint(Get(metaObj, "tile_size"), "payload.meta.tile_size");
      var mapSize := MetaPoint(Get(metaObj, "map_size"), "payload.meta.map_size");
      && (ParseMeta(metaObj).Ok? <==> tileSize.Ok? && mapSize.Ok? && OptionalsValid(metaObj))
      && (tileSize.Err? ==> ParseMeta(metaObj) == Err(tileSize.error))
      && (tileSize.Ok? && mapSize.Err? ==> ParseMeta(metaObj) == Err(mapSize.error))
  {
    var tileSize := MetaPoint(Get(metaObj, "tile_size"), "payload.meta.tile_size");
    var mapSize := MetaPoint(Get(metaObj, "map_size"), "payload.meta.map_size");
    if tileSize.Ok? && mapSize.Ok? {
      assert ParseMeta(metaObj) == MetaOptionals(metaObj, tileSize.value, mapSize.value);
      OptionalsAccepted(metaObj, tileSize.value, mapSize.value);
    }
  }

  lemma OptionalDefaults(metaObj: Fields, tileSize: Point, mapSize: Point)
    requires MetaOptionals(metaObj, tileSize, mapSize).Ok?
    ensures var meta := MetaOptionals(metaObj, tileSize, mapSize).value;
      && meta.tileSize == tileSize && meta.mapSize == mapSize
      && (!HasKey(metaObj, "initial_map_size") ==> meta.initialMapSize == mapSize)
      && (!HasKey(metaObj, "zoom_level") ==> meta.zoomLevel == 1.0)
      && (!HasKey(metaObj, "scroll") ==> meta.scroll == Point(0, 0))
      && (!HasKey(metaObj, "version") ==> meta.version == "1.1")
  {
    if !HasKey(metaObj, "initial_map_size") {
      PointRoundTrip(mapSize, "payload.meta.initial_map_size");
    }
    if !HasKey(metaObj, "scroll") {
      ZeroPoint("payload.meta.scroll");
    }
  }

  /** Every optional meta field that is present has the right form. */
  predicate OptionalsValid(metaObj: Fields) {
    && (HasKey(metaObj, "initial_map_size") ==>
          MetaPoint(Get(metaObj, "initial_map_size"), "payload.meta.initial_map_size").Ok?)
    && (HasKey(metaObj, "zoom_level") ==> RequireFloat(Get(metaObj, "zoom_level"), "payload.meta.zoom_level").Ok?)
    && (HasKey(metaObj, "scroll") ==> MetaPoint(Get(metaObj, "scroll"), "payload.meta.scroll").Ok?)
    && (HasKey(metaObj, "version") ==> Get(metaObj, "version").JStr?)
  }

  /** The optional fields are accepted exactly when those present are well
      formed: the defaults always are. */
  lemma OptionalsAccepted(metaObj: Fields, tileSize: Point, mapSize: Point)
    ensures MetaOptionals(metaObj, tileSize, mapSize).Ok? <==> OptionalsValid(metaObj)
  {
    PointRoundTrip(mapSize, "payload.meta.initial_map_size");
    ZeroPoint("payload.meta.scroll");
  }

  /** A present optional field is decoded from its own value. */
  lemma OptionalsPresent(metaObj: Fields, tileSize: Point, mapSize: Point)
    ensures var r := MetaOptionals(metaObj, tileSize, mapSize);
      && (r.Ok? && HasKey(metaObj, "initial_map_size") ==>
            MetaPoint(Get(metaObj, "initial_map_size"), "payload.meta.initial_map_size") == Ok(r.value.initialMapSize))
      && (r.Ok? && HasKey(metaObj, "zoom_level") ==>
            RequireFloat(Get(metaObj, "zoom_level"), "payload.meta.zoom_level") == Ok(r.value.zoomLevel))
      && (r.Ok? && HasKey(metaObj, "scroll") ==>
            MetaPoint(Get(metaObj, "scroll"), "payload.meta.scroll") == Ok(r.value.scroll))
      && (r.Ok? && HasKey(metaObj, "version") ==> Get(metaObj, "version") == JStr(r.value.version))
  {
  }

  /** The optional fields are read in the order `initial_map_size`,
      `zoom_level`, `scroll`, `version`: the first malformed one is reported. */
  lemma OptionalsCheckOrder(metaObj: Fields, tileSize: Point, mapSize: Point)
    ensures var initial := MetaPoint(Get(metaObj, "initial_map_size"), "payload.meta.initial_map_size");
      HasKey(metaObj, "initial_map_size") && initial.Err? ==>
        MetaOptionals(metaObj, tileSize, mapSize) == Err(initial.error)
    ensures (HasKey(metaObj, "initial_map_size") ==>
               MetaPoint(Get(metaObj, "initial_map_size"), "payload.meta.initial_map_size").Ok?)
            && HasKey(metaObj, "zoom_level") && !RequireFloat(Get(metaObj, "zoom_level"), "payload.meta.zoom_level").Ok? ==>
      MetaOptionals(metaObj, tileSize, mapSize) == Err(Error(ExpectedFloat, "payload.meta.zoom_level"))
    ensures var scroll := MetaPoint(Get(metaObj, "scroll"), "payload.meta.scroll");
      (HasKey(metaObj, "initial_map_size") ==>
         MetaPoint(Get(metaObj, "initial_map_size"), "payload.meta.initial_map_size").Ok?)
      && (HasKey(metaObj, "zoom_level") ==> RequireFloat(Get(metaObj, "zoom_level"), "payload.meta.zoom_level").Ok?)
      && HasKey(metaObj, "scroll") && scroll.Err? ==>
        MetaOptionals(metaObj, tileSize, mapSize) == Err(scroll.error)
    ensures (HasKey(metaObj, "initial_map_size") ==>
               MetaPoint(Get(metaObj, "initial_map_size"), "payload.meta.initial_map_size").Ok?)
            && (HasKey(metaObj, "zoom_level") ==> RequireFloat(Get(metaObj, "zoom_level"), "payload.meta.zoom_level").Ok?)
            && (HasKey(metaObj, "scroll") ==> MetaPoint(Get(metaObj, "scroll"), "payload.meta.scroll").Ok?)
            && HasKey(metaObj, "version") && !Get(metaObj, "version").JStr? ==>
      MetaOptionals(metaObj, tileSize, mapSize) == Err(Error(ExpectedString, "payload.meta.version"))
  {
    PointRoundTrip(mapSize, "payload.meta.initial_map_size");
    ZeroPoint("payload.meta.scroll");
  }

  lemma ZeroPoint(ctx: string)
    ensures ParsePoint("0;0", ctx) == Ok(Point(0, 0))
  {
    PointRoundTrip(Point(0, 0), ctx);
    assert FormatPoint(Point(0, 0)) == "0;0";
  }

  /** A meta object with only valid `tile_size` and `map_size` parses, to
      the defaults for everything else. */
  lemma MinimalMeta(tileSize: string, mapSize: string)
    requires ParsePoint(tileSize, "payload.meta.tile_size").Ok?
    requires ParsePoint(mapSize, "payload.meta.map_size").Ok?
    ensures var metaObj := [("tile_size", JStr(tileSize)), ("map_size", JStr(mapSize))];
      var m := ParsePoint(mapSize, "payload.meta.map_size").value;
      ParseMeta(metaObj) == Ok(TilemapMeta(ParsePoint(tileSize, "payload.meta.tile_size").value,
                                           m, m, 1.0, Point(0, 0), "1.1"))
  {
    var metaObj := [("tile_size", JStr(tileSize)), ("map_size", JStr(mapSize))];
    var t := ParsePoint(tileSize, "payload.meta.tile_size").value;
    var m := ParsePoint(mapSize, "payload.meta.map_size").value;
    assert "tile_size"[0] != "map_size"[0];
    assert Lookup(metaObj, "map_size") == Lookup(metaObj[1..], "map_size");
    assert metaObj[1..] == [("map_size", JStr(mapSize))];
    assert ParseMeta(metaObj) == MetaOptionals(metaObj, t, m);
    LookupFound(metaObj, "initial_map_size");
    LookupFound(metaObj, "zoom_level");
    LookupFound(metaObj, "scroll");
    LookupFound(metaObj, "version");
    MinimalOptionals(metaObj, t, m);
  }

  lemma MinimalOptionals(metaObj: Fields, tileSize: Point, mapSize: Point)
    requires !HasKey(metaObj, "initial_map_size") && !HasKey(metaObj, "zoom_level")
    requires !HasKey(metaObj, "scroll") && !HasKey(metaObj, "version")
    ensures MetaOptionals(metaObj, tileSize, mapSize)
         == Ok(TilemapMeta(tileSize, mapSize, mapSize, 1.0, Point(0, 0), "1.1"))
  {
    PointRoundTrip(mapSize, "payload.meta.initial_map_size");
    ZeroPoint("payload.meta.scroll");
  }

  /** The smallest document: `meta` with the two sizes, an empty `data`. It
      parses to the defaults and to empty collections. */
  lemma MinimalDocument(tileSize: string, mapSize: string)
    requires ParsePoint(tileSize, "payload.meta.tile_size").Ok?
    requires ParsePoint(mapSize, "payload.meta.map_size").Ok?
    ensures var metaObj := [("tile_size", JStr(tileSize)), ("map_size", JStr(mapSize))];
      var root := [("meta", JObj(metaObj)), ("data", JObj([]))];
      var m := ParsePoint(mapSize, "payload.meta.map_size").value;
      var meta := TilemapMeta(ParsePoint(tileSize, "payload.meta.tile_size").value, m, m, 1.0, Point(0, 0), "1.1");
      TilemapOf(JObj(root)) == Ok(Tilemap(meta, TilemapProjectState([], []), TilemapData([]),
                                          TilemapResources([]), root))
  {
    var metaObj := [("tile_size", JStr(tileSize)), ("map_size", JStr(mapSize))];
    var root := [("meta", JObj(metaObj)), ("data", JObj([]))];
    MinimalMeta(tileSize, mapSize);
    MinimalRoot(metaObj);
    MissingSections(root);
    TilemapAssembled(root);
  }

  lemma MinimalRoot(metaObj: Fields)
    ensures var root := [("meta", JObj(metaObj)), ("data", JObj([]))];
      && Get(root, "meta") == JObj(metaObj) && Get(root, "data") == JObj([])
      && !HasKey(root, "project_state") && !HasKey(root, "resources")
  {
    var root := [("meta", JObj(metaObj)), ("data", JObj([]))];
    assert "meta"[0] != "data"[0];
    assert Lookup(root, "data") == Lookup(root[1..], "data");
    assert root[1..] == [("data", JObj([]))];
    LookupFound(root, "project_state");
    LookupFound(root, "resources");
  }

  /** An empty `data`, and `project_state` and `resources` that are absent,
      give empty collections. */
  lemma MissingSections(root: Fields)
    requires Get(root, "data") == JObj([])
    requires !HasKey(root, "project_state") && !HasKey(root, "resources")
    ensures DataOf(root) == Ok(TilemapData([]))
    ensures ProjectStateOf(root) == Ok(TilemapProjectState([], []))
    ensures ResourcesOf(root) == Ok(TilemapResources([]))
  {
    assert LayersRaw([]) == JArr([]);
    assert ProjectStateRaw(root) == JObj([]);
    assert ResourcesRaw(root) == JObj([("tilesets", JArr([]))]);
    assert GetOr([("tilesets", JArr([]))], "tilesets", JArr([])) == JArr([]);
  }

  /** A parsed tilemap is made of its parts: `raw` is the input root, and
      `meta`, `data`, `project_state` and `resources` are each section
      parsed on its own. */
  lemma TilemapStructure(payload: Json)
    requires TilemapOf(payload).Ok?
    ensures var t := TilemapOf(payload).value;
      && payload == JObj(t.raw)
      && Get(t.raw, "meta").JObj?
      && ParseMeta(Get(t.raw, "meta").fields) == Ok(t.meta)
      && DataOf(t.raw) == Ok(t.data)
      && ProjectStateOf(t.raw) == Ok(t.projectState)
      && ResourcesOf(t.raw) == Ok(t.resources)
  {
    assert payload.JObj?;
    var root := payload.fields;
    assert Get(root, "meta").JObj?;
    assert ParseMeta(Get(root, "meta").fields).Ok?;
    assert DataOf(root).Ok?;
    assert ProjectStateOf(root).Ok?;
    assert ResourcesOf(root).Ok?;
    TilemapAssembled(root);
  }

  /** Conversely, a root whose sections all parse gives the tilemap made of
      them. */
  lemma TilemapAssembled(root: Fields)
    requires Get(root, "meta").JObj? && ParseMeta(Get(root, "meta").fields).Ok?
    requires DataOf(root).Ok? && ProjectStateOf(root).Ok? && ResourcesOf(root).Ok?
    ensures TilemapOf(JObj(root)) == Ok(Tilemap(ParseMeta(Get(root, "meta").fields).value,
      ProjectStateOf(root).value, DataOf(root).value, ResourcesOf(root).value, root))
  {
  }

  /** The layers are the `layers` list parsed element by element, in order
      and with the same count. */
  lemma DataStructure(root: Fields)
    requires DataOf(root).Ok?
    ensures var data := DataOf(root).value;
      && Get(root, "data").JObj?
      && LayersRaw(Get(root, "data").fields).JArr?
      && var layersRaw := LayersRaw(Get(root, "data").fields).items;
      && |data.layers| == |layersRaw|
      && (forall i :: 0 <= i < |layersRaw| ==>
            LayerEntry(layersRaw[i], Index("payload.data.layers", i)) == Ok(data.layers[i]))
  {
  }

  /** The rules and the groups are their lists parsed element by element. */
  lemma ProjectStateStructure(root: Fields)
    requires ProjectStateOf(root).Ok?
    ensures var state := ProjectStateOf(root).value;
      && ProjectStateRaw(root).JObj?
      && GetOr(ProjectStateRaw(root).fields, "rules", JArr([])).JArr?
      && var rulesRaw := GetOr(ProjectStateRaw(root).fields, "rules", JArr([])).items;
      && |state.rules| == |rulesRaw|
      && (forall i :: 0 <= i < |rulesRaw| ==>
            RuleEntry(rulesRaw[i], Index("payload.project_state.rules", i)) == Ok(state.rules[i]))
      && GetOr(ProjectStateRaw(root).fields, "groups", JArr([])).JArr?
      && var groupsRaw := GetOr(ProjectStateRaw(root).fields, "groups", JArr([])).items;
      && |state.groups| == |groupsRaw|
      && (forall i :: 0 <= i < |groupsRaw| ==>
            GroupEntry(groupsRaw[i], Index("payload.project_state.groups", i)) == Ok(state.groups[i]))
  {
  }

  /** A document that is not an object is refused before anything else. */
  lemma NonObjectRefused(payload: Json)
    requires !payload.JObj?
    ensures TilemapOf(payload) == Err(Error(ExpectedObject, "payload"))
  {
  }
}
