# Tilemap loader model

A Dafny model of the tilemap loader of the game (`src/lib/loader/maploader.py`).
The loader is a schema-validating deserialiser. It takes the untyped tree that
`json.load` produces and checks every field. It then builds the typed tilemap:

- metadata with defaults;
- layers, each either a tile layer whose tiles are keyed by position or an
  object layer whose sprites are keyed by integer id;
- autotile rules and groups;
- tileset resources.

It reports the first schema violation as an error that carries a dotted
context label, for example `payload.data.layers[2].tiles.a.pos`. After
parsing a file, it rewrites the relative tileset paths against the directory
of that file.

The modules follow the source:

| file | module | models |
|---|---|---|
| `results.dfy` | `Results` | the failure outcome: an `ErrorKind` plus the context label |
| `json.dfy` | `JsonValue` | the raw document tree, `key in d`, `d.get(key, default)` |
| `numerals.dfy` | `Numerals` | `str.split`, `str(int)`, `int(str)` and `int(float(str))` |
| `coerce.dfy` | `Coerce` | the `_require_*` checks, `_optional_dict`, `_coerce_int`, `_parse_point` |
| `collections.dfy` | `Collections` | the list comprehensions and the dict-filling loops |
| `model.dfy` | `TilemapModel` | the dataclasses of the typed tilemap |
| `tiles.dfy` | `TileParsing` | `_parse_tile`, `_parse_tiles` |
| `objects.dfy` | `ObjectParsing` | `_parse_object_area`, `_parse_objects` |
| `layers.dfy` | `LayerParsing` | `_parse_layer` |
| `rules.dfy` | `RuleParsing` | `_parse_rule`, `_parse_group` |
| `tilesets.dfy` | `TilesetParsing` | `_parse_tilesets` |
| `loader.dfy` | `TilemapLoader` | `parse_tilemap_dict` |
| `paths.dfy` | `PathResolution` | `_resolve_tileset_paths`, `parse_tilemap_file` |

Every parser is a function that returns a `Result`. Where the source builds a
collection with a loop, a method runs that loop with its invariants. The
method's postcondition equates its result with the specification function.
The method is `ParseTiles`, `ParseObjects`, `ParseRule`, `ParseTilesets`,
`ParseTilemapDict`, `ResolveRulePaths` or `ResolveTilesetPaths`.

`_parse_layer` builds the layer object first and assigns its collection
afterwards. `ParseLayer` does the same on a datatype value.

Calls the model cannot see become parameters:

- `Path.resolve()` uses the current directory, which is the `cwd` parameter.
- `parse_tilemap_file` reads a document from a file. The model takes the
  document as the `payload` parameter and the file's path as a string.

## Model

| member | source | states |
|---|---|---|
| JsonValue.LookupFound | src/lib/loader/maploader.py:251 | `key in d` holds exactly when some binding has the key, and the value found is bound to that key |
| JsonValue.GetOr | src/lib/loader/maploader.py:282 | `d.get(key, default)` is the bound value when the key is present and the default otherwise |
| Numerals.SplitJoin | src/lib/loader/maploader.py:56 | splitting the join of separator-free parts gives the parts back |
| Numerals.JoinSplit | src/lib/loader/maploader.py:56 | joining what `split` returns rebuilds the text |
| Numerals.ParseIntFormat | src/lib/loader/maploader.py:62-72 | `int(str(i)) == i` for every integer |
| Numerals.IntLiteralIsDecimal | src/lib/loader/maploader.py:57 | every literal `int()` accepts, `int(float(.))` accepts with the same value, reading the literal as an exact decimal (see Left out for where a double differs) |
| Numerals.TruncatesFraction | src/lib/loader/maploader.py:57 | a fraction after an integer literal is dropped: truncation toward zero, not rounding, of the exact decimal value |
| Coerce.RequireDict | src/lib/loader/maploader.py:12-15 | succeeds exactly on an object and returns it unchanged; otherwise fails "expected object" at the context |
| Coerce.RequireList | src/lib/loader/maploader.py:18-21 | succeeds exactly on an array and returns it unchanged; otherwise "expected array" |
| Coerce.RequireStr | src/lib/loader/maploader.py:24-27 | succeeds exactly on a string and returns it unchanged; otherwise "expected string" |
| Coerce.RequireInt | src/lib/loader/maploader.py:30-33 | succeeds exactly on an int, never on a bool; otherwise "expected int" |
| Coerce.RequireFloat | src/lib/loader/maploader.py:36-39 | succeeds exactly on an int or a float, never on a bool; an int is widened to the same value |
| Coerce.RequireBool | src/lib/loader/maploader.py:42-45 | succeeds exactly on a bool and returns it unchanged; otherwise "expected bool" |
| Coerce.OptionalDict | src/lib/loader/maploader.py:48-51 | null gives None, an object gives itself, anything else fails "expected object" |
| Coerce.CoerceInt | src/lib/loader/maploader.py:62-72 | succeeds exactly on an int (returned unchanged) or a string that `int()` reads; a bad string fails "expected int-like string", any other value "expected int" |
| Coerce.CoerceIntFormatted | src/lib/loader/maploader.py:62-72 | the text of any integer coerces back to that integer |
| Coerce.CoerceIntExamples | src/lib/loader/maploader.py:62-72 | 5 and "5" give 5, "-3" gives -3; true, null, "5.0" and "abc" fail with their error kinds |
| Coerce.ParsePoint | src/lib/loader/maploader.py:54-59 | succeeds exactly when `split(";")` gives two parts that both read as decimals; the components are those parts truncated; every failure is "invalid point" at the context |
| Coerce.PointOfParts | src/lib/loader/maploader.py:54-59 | two decimal literals around one `;` give the point of their truncated values |
| Coerce.PointRoundTrip | src/lib/loader/maploader.py:54-59 | the text `f"{x};{y}"` parses back to (x, y) |
| Coerce.PointTruncates | src/lib/loader/maploader.py:54-59 | `"3.9;-2.1"` gives (3, -2) |
| Coerce.PointNeedsSeparator | src/lib/loader/maploader.py:54-59 | a text without `;` fails |
| Coerce.PointRejectsTwoSeparators | src/lib/loader/maploader.py:54-59 | a text with two `;` fails |
| Coerce.PointRejectsNonNumeric | src/lib/loader/maploader.py:54-59 | a part that is not a decimal literal, the empty part included, fails |
| Coerce.PointRejectsEmpty | src/lib/loader/maploader.py:54-59 | the empty text fails |
| Collections.ParseEachFromContents | src/lib/loader/maploader.py:300-303 | an enumerate comprehension succeeds exactly when every element parses, and then yields one value per element, in order |
| Collections.ParseEachFromFirstError | src/lib/loader/maploader.py:300-303 | a failing comprehension fails with the error of the first element that fails, every element before it having parsed |
| Collections.ParseEach | src/lib/loader/maploader.py:300-303 | the whole list parsed element by element, in order and with the same count |
| Collections.BuildMapFrom | src/lib/loader/maploader.py:194-200 | the dict-filling loop succeeds exactly when every entry parses; earlier keys stay, every entry's key is present, and a failure is that of an entry |
| Collections.BuildMapFromUntouched | src/lib/loader/maploader.py:194-200 | a key no later entry writes keeps its value |
| Collections.BuildMapFromLastWins | src/lib/loader/maploader.py:194-200 | under a key lies the value of the last entry that writes it |
| Collections.BuildMapFromOrigin | src/lib/loader/maploader.py:194-200 | every key of the result was already there or comes from an entry, with that entry's value |
| Collections.BuildMapContents | src/lib/loader/maploader.py:194-200 | for a whole object: every entry parsed, every key comes from an entry, and the last entry for a key wins |
| TileParsing.ParseTile | src/lib/loader/maploader.py:181-191 | succeeds exactly when `pos` is a string, `ttype` coerces, `variant` is an int, `properties` is null or an object and `pos` decodes; the tile holds those values; the first failing check in that order is the one reported, so `pos` is decoded only after `properties` |
| TileParsing.TtypeCheckedBeforePos | src/lib/loader/maploader.py:181-187 | a bad `ttype` is reported even when `pos` is malformed |
| TileParsing.TileIgnoresContext | src/lib/loader/maploader.py:181-191 | the context label only appears in errors: a tile that parses is the same under any label |
| TileParsing.TileEntry | src/lib/loader/maploader.py:196-199 | an entry parses exactly when its value is an object holding a tile; its key is the tile's own position, and the raw key is only a label |
| TileParsing.ParseTiles | src/lib/loader/maploader.py:194-200 | the loop computes the dict-filling specification of the tiles object |
| TileParsing.TilesKeyedByPosition | src/lib/loader/maploader.py:194-200 | in the tile map every key is the position of its tile, every tile comes from an entry, and the last entry at a position wins |
| TileParsing.DuplicatePositionLastWins | src/lib/loader/maploader.py:196-199 | two entries at the same position leave only the second tile |
| ObjectParsing.ParseObjectArea | src/lib/loader/maploader.py:203-209 | succeeds exactly when x, y, w and h are strict ints; the area holds them; the first field, in that order, that is not a strict int is the one reported |
| ObjectParsing.ParseObjectSprite | src/lib/loader/maploader.py:216-225 | succeeds exactly when `area` is an object of four ints, `ttype` and `variant` are strict ints, `tileset_type` is a string and `properties` is null or an object; present properties are copied unchanged; a non-object `area`, or the area's own error, is reported before the other fields |
| ObjectParsing.ObjectEntry | src/lib/loader/maploader.py:214-226 | the id is `int(key)` and is checked first, with the label `<id>`; the sprite is the entry's value parsed |
| ObjectParsing.ParseObjects | src/lib/loader/maploader.py:212-227 | the loop computes the dict-filling specification of the objects object |
| ObjectParsing.ObjectsKeyedById | src/lib/loader/maploader.py:212-227 | every key of the sprite map is the coerced id of an entry, and the last entry with an id wins |
| ObjectParsing.StringIdCoerced | src/lib/loader/maploader.py:214-226 | an object keyed `"7"` gives a map whose only key is 7 |
| LayerParsing.NextObjectId | src/lib/loader/maploader.py:251-252 | None when the key is absent; when it is present, a strict int, so a present null fails |
| LayerParsing.ParseBaseLayer | src/lib/loader/maploader.py:231-237 | succeeds exactly when the seven shared fields have their kinds; they are copied unchanged and opacity is widened to a float; the first malformed field in source order (`name`, `type`, `visible`, `locked`, `opacity`, `z_index`, `properties`) is the one reported |
| LayerParsing.ParseLayer | src/lib/loader/maploader.py:230-266 | builds the layer, then assigns its collection; the result is the layer specification |
| LayerParsing.LayerAccepted | src/lib/loader/maploader.py:230-266 | a layer is accepted exactly when its shared fields are valid and, for an object layer, `objects` (default empty) is an object of valid objects and a present `next_object_id` is an int, or, for any other layer, `tiles` (default empty) is an object of valid tiles; an error in the shared fields is reported before the collection is read |
| LayerParsing.LayerDispatch | src/lib/loader/maploader.py:239-266 | a layer is an object layer exactly when its `type` is `"object"`; its shared fields are those of the layer object, whatever its kind |
| LayerParsing.SameBaseLayer | src/lib/loader/maploader.py:231-237 | the shared fields do not depend on `tiles`, `objects` or `next_object_id` |
| LayerParsing.ObjectLayerIgnoresTiles | src/lib/loader/maploader.py:239-253 | an object layer does not look at `tiles` |
| LayerParsing.TileLayerIgnoresObjects | src/lib/loader/maploader.py:254-266 | any other layer does not look at `objects` or `next_object_id` |
| LayerParsing.AbsentCollectionIsEmpty | src/lib/loader/maploader.py:249-265 | an absent `tiles` or `objects` gives an empty map |
| LayerParsing.NullCollectionFails | src/lib/loader/maploader.py:249-265 | an explicit null `tiles` or `objects` fails |
| LayerParsing.NextObjectIdPresence | src/lib/loader/maploader.py:251-252 | `next_object_id` is set exactly when the key is present, to its int value |
| RuleParsing.ParsePair | src/lib/loader/maploader.py:272-281 | a neighbour is an array of exactly two int-coercible values; any other length fails "expected [x, y]" |
| RuleParsing.TilesetIndex | src/lib/loader/maploader.py:290-294 | None when absent or null, otherwise the coerced value |
| RuleParsing.ParseRule | src/lib/loader/maploader.py:269-297 | the two append loops plus the remaining fields compute the rule specification |
| RuleParsing.RuleAccepted | src/lib/loader/maploader.py:269-297 | a rule is accepted exactly when `neighbors` is an array of valid pairs, `variant_ids` (default empty) an array of int-coercible values, `name` a string, `tileset_path` (default "") a string and `tileset_index` absent, null or int-coercible |
| RuleParsing.RuleCheckOrder | src/lib/loader/maploader.py:269-297 | the fields are checked in the order `neighbors`, its entries, `variant_ids`, its entries, `name`, `tileset_path`, `tileset_index`, and the first failure is the one reported |
| RuleParsing.RuleContents | src/lib/loader/maploader.py:269-297 | one point per `neighbors` entry and one id per `variant_ids` entry, in order (default empty); `tileset_path` defaults to ""; `group_id` is passed through verbatim |
| RuleParsing.BadNeighborFails | src/lib/loader/maploader.py:272-275 | a `neighbors` entry that is not a two-element array fails the rule |
| RuleParsing.RuleEntry | src/lib/loader/maploader.py:302 | an element of `rules` must be an object holding a rule |
| RuleParsing.ParseGroup | src/lib/loader/maploader.py:300-303 | succeeds exactly when `rules` (default empty) is an array of valid rule objects and `name` is a string; the rules are parsed element by element, in order, and a non-array `rules` or a bad rule is reported before `name` is checked |
| TilesetParsing.TilesetEntry | src/lib/loader/maploader.py:309-321 | succeeds exactly when `path` and `type` are strings and `properties` and `tile_properties` are null or objects; only the outer kind of `tile_properties` is checked |
| TilesetParsing.TilesetsOf | src/lib/loader/maploader.py:306-322 | succeeds exactly when `tilesets` (default empty) is an array of valid tileset objects, and then gives one resource per element, in order; a non-array fails `expected array` |
| TilesetParsing.ParseTilesets | src/lib/loader/maploader.py:306-322 | the append loop computes the tileset specification |
| TilemapLoader.MetaPoint | src/lib/loader/maploader.py:329-336 | a point field must be a string that decodes as a point |
| TilemapLoader.ParseTilemapDict | src/lib/loader/maploader.py:325-390 | the layer loop, the rule loop and the rest compute the tilemap specification |
| TilemapLoader.MetaDefaults | src/lib/loader/maploader.py:328-355 | the two sizes are their fields decoded; a missing `initial_map_size` equals `map_size`, a missing zoom is 1.0, a missing scroll is (0, 0) and a missing version is "1.1"; a present optional field is decoded from its own value |
| TilemapLoader.MetaAccepted | src/lib/loader/maploader.py:328-355 | the meta object is accepted exactly when `tile_size` and `map_size` are point strings and every present optional field is well formed; `tile_size` is reported first, then `map_size` |
| TilemapLoader.OptionalDefaults | src/lib/loader/maploader.py:337-347 | the same defaults, for the optional fields on their own |
| TilemapLoader.OptionalsAccepted | src/lib/loader/maploader.py:337-347 | the optional fields are accepted exactly when each one present is well formed: a point string, a number, a point string and a string respectively |
| TilemapLoader.OptionalsPresent | src/lib/loader/maploader.py:337-347 | a present optional field is decoded from its own value, by the same decoder as its default |
| TilemapLoader.OptionalsCheckOrder | src/lib/loader/maploader.py:337-347 | the optional fields are checked in the order `initial_map_size`, `zoom_level`, `scroll`, `version`, and the first malformed one is reported |
| TilemapLoader.ZeroPoint | src/lib/loader/maploader.py:343-346 | the default scroll text `"0;0"` is the point (0, 0) |
| TilemapLoader.MinimalMeta | src/lib/loader/maploader.py:328-355 | a meta object with only valid `tile_size` and `map_size` parses to those sizes and the defaults |
| TilemapLoader.MinimalOptionals | src/lib/loader/maploader.py:337-347 | with no optional field present, the optional part succeeds with every default |
| TilemapLoader.MinimalDocument | src/lib/loader/maploader.py:325-390 | the smallest document parses to the default metadata, no layers, rules, groups or tilesets, and `raw` is the root |
| TilemapLoader.MissingSections | src/lib/loader/maploader.py:357-388 | an empty `data` and missing `project_state` and `resources` give empty collections |
| TilemapLoader.TilemapStructure | src/lib/loader/maploader.py:325-390 | a parsed tilemap is made of its sections, each parsed on its own, and `raw` is the input root |
| TilemapLoader.TilemapAssembled | src/lib/loader/maploader.py:325-390 | conversely, when every section parses, the document gives the tilemap made of them |
| TilemapLoader.DataStructure | src/lib/loader/maploader.py:357-366 | `layers[i]` is input layer i parsed, in order and with the same count |
| TilemapLoader.ProjectStateStructure | src/lib/loader/maploader.py:368-385 | the rules and the groups are their lists parsed element by element, in order and with the same count |
| TilemapLoader.NonObjectRefused | src/lib/loader/maploader.py:326 | a document that is not an object fails "expected object" at `payload` |
| PathResolution.SegmentsAppend | src/lib/loader/maploader.py:411 | the segments of `a/b` are those of `a` followed by those of `b` |
| PathResolution.SegmentsRender | src/lib/loader/maploader.py:411 | a rendered canonical path reads back as its segments |
| PathResolution.CollapseAppend | src/lib/loader/maploader.py:411 | collapsing a path is collapsing its prefix, then its suffix from there |
| PathResolution.NormalizeCanonical | src/lib/loader/maploader.py:411 | a resolved path is absolute and holds no empty, `.` or `..` segment |
| PathResolution.NormalizeIdempotent | src/lib/loader/maploader.py:411 | resolving a resolved path changes nothing |
| PathResolution.NormalizeJoin | src/lib/loader/maploader.py:411 | normalising the string `a + "/" + b` is normalising the segments of `b` after the normal form of `a`; this is the string join, which differs from pathlib's `/` when `b` is absolute |
| PathResolution.BaseDirNormalised | src/lib/loader/maploader.py:411 | for an absolute base directory, resolving against it is resolving against its canonical form |
| PathResolution.EmptyPathIsBase | src/lib/loader/maploader.py:409-411 | `Path("")` is the current directory, so an empty path resolves to the base directory |
| PathResolution.ResolveRendered | src/lib/loader/maploader.py:411 | a relative path walks its segments from a canonical base |
| PathResolution.ResolveIntoSubdirectory | src/lib/loader/maploader.py:411 | `/maps` and `tiles/a.png` give `/maps/tiles/a.png` |
| PathResolution.ResolveParentSegment | src/lib/loader/maploader.py:411 | `/maps/level` and `../a.png` give `/maps/a.png` |
| PathResolution.ResolveTileset | src/lib/loader/maploader.py:408-411 | the result is absolute; an absolute path is kept; a relative path is joined to the base directory and resolved; only `path` changes |
| PathResolution.ResolveRule | src/lib/loader/maploader.py:413-417 | an empty or absolute `tileset_path` is kept; otherwise it is joined to the base directory and resolved, and so becomes absolute; only `tileset_path` changes |
| PathResolution.ResolvedTilemap | src/lib/loader/maploader.py:407-424 | every tileset is resolved as `ResolveTileset` says and every rule, top-level or in a group, as `ResolveRule` says; only tileset `path` and rule `tileset_path` fields change, and every list keeps its length; afterwards every tileset path is absolute and every rule path, top-level or in a group, is absolute or was and stays empty |
| PathResolution.ResolveRulePaths | src/lib/loader/maploader.py:413-417 | the loop rewrites each rule as the specification says |
| PathResolution.ResolveTilesetPaths | src/lib/loader/maploader.py:407-424 | the three loops, the last one nested, compute the resolved tilemap |
| PathResolution.RelativeTilesetResolved | src/lib/loader/maploader.py:408-411 | a relative tileset path becomes the resolved join of the base and the path; an empty path becomes the base directory |
| PathResolution.PassIdempotent | src/lib/loader/maploader.py:407-424 | running the pass twice is running it once |
| PathResolution.GroupRulesLikeTopLevel | src/lib/loader/maploader.py:419-424 | a rule gives the same result in a group as at the top level |
| PathResolution.ParentOfRendered | src/lib/loader/maploader.py:403 | `Path(file).parent` drops the last segment |
| PathResolution.FileDirectoryExample | src/lib/loader/maploader.py:398-404 | a file `/maps/0.json` resolves its tileset `tiles/a.png` to `/maps/tiles/a.png` |
| PathResolution.LoadTilemapOf | src/lib/loader/maploader.py:398-404 | a file fails exactly as its document does; otherwise it gives the parsed tilemap with its paths resolved against the file's directory |
| PathResolution.ParseTilemapFile | src/lib/loader/maploader.py:398-404 | the parse method followed by the resolve method computes the loaded tilemap |

## Left out

- `parse_tilemap_json` and the file reading of `parse_tilemap_file`. JSON text decoding, `open` and `json.load` are I/O: the model starts from the decoded tree.
- Duplicate keys in a JSON object. The decoded dict holds one binding per key, so `Lookup` takes the first binding. A `Fields` value with repeated keys never comes from the decoder.
- A top level that is not an object fails with the same error as every other object check: `ExpectedObject` at `payload` (maploader.py:326 and 402). It is not a separate kind of error.
- Error message text. The TypeError/ValueError split and the wording are reduced to an `ErrorKind`. The context label is kept verbatim.
- Python floats. `opacity` and `zoom_level` are modelled as `real`, so binary rounding, infinities and NaN are left out. `RequireFloat` widens any JSON int exactly, where Python raises `OverflowError` for an int beyond the double range.
- Coerce.ParsePoint: `float()` is restricted to a sign, then digits with an optional fraction, at least one digit in all. Exponents, `inf`/`nan`, underscores and surrounding whitespace are not accepted by the model, although Python accepts them. Digits are ASCII only, where Python also takes other Unicode decimal digits. The literal is read as an exact decimal, where Python rounds it to a binary double first: a literal with more than about 15 significant digits can round across an integer (`"2.9999999999999999;0"` is (3, 0) in Python and (2, 0) here), and an integer part of 310 or more digits, or of 309 digits from about 1.8e308, overflows to infinity, which `int` rejects, so Python reports an invalid point where the model accepts one.
- Coerce.CoerceInt: `int()` is restricted to a sign and ASCII digits. Underscores, non-ASCII digits and surrounding whitespace are not accepted by the model. The model also has no limit on length, where Python 3.11 and later (and the 3.7.14 to 3.10.7 security releases) reject a decimal string of more than 4300 digits (`sys.int_max_str_digits`), which `_coerce_int` reports as an int-like-string error; such a string is accepted by the model for `ttype`, object ids, `neighbors`, `variant_ids` and `tileset_index`.
- The order of entries in the tile and object dicts. A `map` has no insertion order, so the model keeps which keys there are and which entry won, but not the order the dict lists them in.
- Update in place and aliasing. `_parse_layer` and `_resolve_tileset_paths` assign fields of existing objects. The model builds new datatype values, so sharing between objects is not represented.
- `Path.resolve()` is modelled lexically on `/`-separated segments. Symbolic links, the filesystem, Windows paths and the special case of a path that starts with exactly `//` are left out. The current directory is a parameter.
- The renderer, the entry point, the logging helpers and the constants file are not part of this model; they deal with pygame surfaces, the window and the environment.
