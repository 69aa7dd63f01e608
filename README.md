# Collision outlines for LDtk and Tiled layers, in Dafny

This project models the collision part of the Cocos Creator scripts of Test_DLtk. The scripts turn a tile
layer into polygon colliders:

- **`LDtkLayer`** (`LDtk_Layer.ts`) reads the collision CSV exported by LDtk into an integer
  matrix. Row 0 of the matrix is the bottom line of the map.
- **`Colliders`** (`Colliders.ts`) builds the same matrix from a Tiled layer's tile array. It also
  records, in first-seen order, the tile ids it meets.
- Both components then run the same pipeline:
  - flood-fill the matrix into groups of 4-connected collidable tiles, keyed `"<row>_<col>"`
    by the group's first cell in row-major order; a tile is collidable when it is not in the
    comma-separated `ignoredTiles` list;
  - turn each tile of a group into a one-tile rectangle in world space;
  - emit colliders: either one rectangle per tile, or one outline per group, obtained by
    folding the group's rectangles through a polygon-union library.
- **`LDtk_Utilities.ts`** holds three coordinate helpers.
- **`Convert.ts`** is the runtime validator of the level file. `transform` checks a parsed JSON
  value against a type descriptor. Along the way it renames object properties: JSON to
  JavaScript for `cast`, back for `uncast`.

How the model is laid out:

- Flood fill: the `TileGrouping` class. Its methods mark cells visited and append to the group
  map, as the recursive `checkMatrixAtPosition` does. `CreateTileGroups` is proved to leave a
  partition of the collidable cells into exactly their connected regions.
- Rectangles and collider emission: the `TileRectGroups` class, shared by both components.
- Components: the `LDtkLayer` and `Colliders` classes. Each has an `InitComponent` whose
  contract gives its whole new state.
- Converter: pure functions (`Transform`, `Dispatch`, `ObjectResult`) plus methods for its loops
  (`ResolveRef`, `TransformUnion`, `TransformObject`).

Modules, one per file, in dependency order:

| module | file | contents |
|---|---|---|
| `Wrappers` | `wrappers.dfy` | `Option`, `Result` |
| `Text` | `text.dfy` | `split`, `join`, `trim`, and integers to and from decimal strings |
| `Grid` | `grid.dfy` | the CSV matrix and the ignore list |
| `Paths` | `paths.dfy` | cells, collidable cells, walks, the fill-safety condition |
| `Regions` | `regions.dfy` | the flood fill (`TileGrouping`) and its invariants |
| `Geometry` | `geometry.dfy` | rectangles, corner lists, number-array converters, the union fold |
| `Outlines` | `outlines.dfy` | the rectangle groups (`TileRectGroups`) and collider emission |
| `TiledColliders` | `colliders.dfy` | the `Colliders` component |
| `Layer` | `layer.dfy` | the `LDtkLayer` component |
| `Convert` | `convert.dfy` | `transform` and its laws |
| `LevelTypes` | `level_types.dfy` | `cast`, `uncast`, the level file's type map |
| `Utilities` | `utilities.dfy` | the coordinate helpers |

Source paths below are relative to the repository root.

## Model

| member | source | states |
|---|---|---|
| Text.Split | assets/Scripts/LDtk_Layer.ts:155 | `split` always yields at least one piece |
| Text.SplitPiecesFree | assets/Scripts/LDtk_Layer.ts:155 | no piece of a split contains the separator |
| Text.JoinSplit | assets/Scripts/LDtk_Layer.ts:155 | joining the pieces of a split with the separator gives back the string |
| Text.SplitJoin | assets/Scripts/LDtk_Layer.ts:155 | splitting a join of separator-free pieces gives back the pieces |
| Text.SplitFree | assets/Scripts/LDtk_Layer.ts:161 | a string without the separator splits into itself alone |
| Text.SplitPrefix | assets/Scripts/LDtk_Layer.ts:161 | a separator-free prefix before a separator becomes the first piece |
| Text.SplitAppendSep | assets/Scripts/LDtk_Layer.ts:161 | a trailing separator adds exactly one empty piece |
| Text.TrimStart | assets/Scripts/LDtk_Layer.ts:155 | result is a suffix; everything removed is JS whitespace; result starts with non-whitespace or is empty |
| Text.TrimEnd | assets/Scripts/LDtk_Layer.ts:155 | result is a prefix; everything removed is JS whitespace; result ends with non-whitespace or is empty |
| Text.TrimSlice | assets/Scripts/LDtk_Layer.ts:155 | the trimmed string is a contiguous slice of the input |
| Text.TrimEnds | assets/Scripts/LDtk_Layer.ts:155 | the trimmed string is empty or begins and ends with non-whitespace |
| Text.TrimCutsWhitespace | assets/Scripts/LDtk_Layer.ts:155 | every character cut from either end is whitespace |
| Text.TrimNoop | assets/Scripts/LDtk_Layer.ts:220 | trim leaves a string without outer whitespace unchanged |
| Text.TrimLeadingSpaces | assets/Scripts/LDtk_Layer.ts:220 | trim removes a leading run of whitespace before such a string |
| Text.TrimStartLeading | assets/Scripts/LDtk_Layer.ts:220 | the start trim removes exactly the leading whitespace run |
| Text.DigitRoundTrip | assets/Scripts/LDtk_Layer.ts:163 | a digit's character reads back as the digit |
| Text.NatToString | assets/Scripts/LDtk_Layer.ts:221 | decimal text of a natural number: non-empty, all digits, no leading zero |
| Text.NatToStringValue | assets/Scripts/LDtk_Layer.ts:221 | the digits of a natural number's text have its value |
| Text.ParseIntToString | assets/Scripts/LDtk_Layer.ts:163 | `parseInt` reads back any integer from its `toString` text |
| Text.IntToStringInjective | assets/Scripts/LDtk_Layer.ts:221 | distinct integers have distinct texts, so the ignore test compares ids exactly |
| Text.IntToStringChars | assets/Scripts/LDtk_Layer.ts:221 | an integer's text is non-empty and has only digits and `-` |
| Grid.DropEmpty | assets/Scripts/LDtk_Layer.ts:162 | the filter keeps exactly the non-empty pieces |
| Grid.ReverseAt | assets/Scripts/LDtk_Layer.ts:165 | element k of a reversal is element n-1-k of the input |
| Grid.CreateMatrixFromCSV | assets/Scripts/LDtk_Layer.ts:154-167 | one row per line of the trimmed text; row i is the parsed line n-1-i |
| Grid.MatrixCells | assets/Scripts/LDtk_Layer.ts:154-167 | row i has one cell per non-empty token of line n-1-i, and each cell is that token's integer value |
| Grid.TrailingCommaAddsNoCell | assets/Scripts/LDtk_Layer.ts:158-162 | a trailing comma on a line adds no cell |
| Grid.DropEmptyNone | assets/Scripts/LDtk_Layer.ts:162 | the filter leaves a list without empty pieces unchanged |
| Grid.CsvLineTokens | assets/Scripts/LDtk_Layer.ts:161-162 | the tokens of a printed row are its id texts |
| Grid.CsvLineRow | assets/Scripts/LDtk_Layer.ts:159-163 | parsing a printed row gives back the row |
| Grid.CsvTextLines | assets/Scripts/LDtk_Layer.ts:155 | the lines of a printed matrix are its printed rows |
| Grid.CsvWellFormed | assets/Scripts/LDtk_Layer.ts:154-167 | every printed matrix of non-empty rows is an admitted CSV |
| Grid.CsvRoundTrip | assets/Scripts/LDtk_Layer.ts:154-167 | reading a printed matrix gives its rows bottom-up: the CSV loader inverts the LDtk export |
| Grid.DefaultIgnoresOnlyZero | assets/Scripts/LDtk_Layer.ts:67 | with the default list `"0"`, exactly tile 0 is ignored |
| Grid.JoinCommaSpace | assets/Scripts/Colliders.ts:144-146 | joining with `", "` equals joining with `","` after prefixing every piece but the first with a space |
| Grid.IgnoreTokensOfList | assets/Scripts/LDtk_Layer.ts:216-220 | splitting and trimming a list printed with `", "` recovers the id texts |
| Grid.IgnoreListOfIds | assets/Scripts/LDtk_Layer.ts:216-221 | a tile is ignored by a printed id list if and only if it is in the list |
| Grid.IgnoreNothing | assets/Scripts/LDtk_Layer.ts:216-221 | the empty list ignores no tile |
| Paths.RectangularFillSafe | assets/Scripts/Colliders.ts:200-227 | a rectangular matrix never sends the fill to a missing cell |
| Paths.HoleNextToTileUnsafe | assets/Scripts/LDtk_Layer.ts:196-221 | a collidable cell next to an in-bounds missing cell makes the fill throw |
| Paths.ShorterUpperRowUnsafe | assets/Scripts/LDtk_Layer.ts:196-221 | the matrix of `"1\n1,1"` makes the fill throw unless tile 1 is ignored |
| Paths.AdjacentIsNeighbour | assets/Scripts/LDtk_Layer.ts:228-231 | adjacency is exactly the four recursive calls' neighbours |
| Paths.OpenCellsAreOpen | assets/Scripts/LDtk_Layer.ts:196-225 | the collidable-cell set holds exactly the in-bounds non-ignored cells |
| Paths.OpenNeighboursSafe | assets/Scripts/LDtk_Layer.ts:228-231 | in a fill-safe matrix no neighbour of a collidable cell is a missing cell |
| Paths.ConnectedRefl | assets/Scripts/LDtk_Layer.ts:228-231 | every collidable cell reaches itself |
| Paths.ConnectedPrepend | assets/Scripts/LDtk_Layer.ts:228-231 | a step to a neighbour extends a walk |
| Paths.ConnectedSym | assets/Scripts/LDtk_Layer.ts:228-231 | connection is symmetric |
| Paths.ConnectedTrans | assets/Scripts/LDtk_Layer.ts:228-231 | connection is transitive |
| Paths.LeavesThroughNeighbour | assets/Scripts/LDtk_Layer.ts:228-231 | a walk to another cell leaves through one of the four neighbours |
| Paths.KeyInjective | assets/Scripts/LDtk_Layer.ts:176-180 | the group key `"<row>_<col>"` determines row and column |
| Regions.TileCellsMembership | assets/Scripts/LDtk_Layer.ts:173-174 | the scanned cells are those of each row within the first row's width |
| Regions.WideRowTilesOutside | assets/Scripts/LDtk_Layer.ts:196-201 | a cell beyond the first row's width is neither scanned nor collidable: it is never grouped |
| Regions.OpenCellsInside | assets/Scripts/LDtk_Layer.ts:196-201 | every collidable cell is a scanned cell |
| Regions.ScanStep | assets/Scripts/LDtk_Layer.ts:172-184 | one scan step keeps the grouping invariant |
| Regions.WalkStaysInGroup | assets/Scripts/LDtk_Layer.ts:228-231 | a walk through collidable cells never changes group |
| Regions.GroupsAreRegions | assets/Scripts/LDtk_Layer.ts:172-241 | after the scan, a group holds exactly the collidable cells connected to any of its members |
| Regions.GroupsPartition | assets/Scripts/LDtk_Layer.ts:172-241 | after the scan, every collidable cell is in exactly one group and no other cell is in any |
| Regions.DiagonalTilesStaySeparate | assets/Scripts/LDtk_Layer.ts:228-231 | diagonal tiles are not connected |
| Regions.TileGrouping.constructor | assets/Scripts/LDtk_Layer.ts:401-403 | a fresh fill: nothing visited, no group |
| Regions.Fill | assets/Scripts/LDtk_Layer.ts:194-241 | the recursive visit as a function of the marks it starts from: marks only grow, and only positions the fill can visit are marked |
| Regions.TileGrouping.CheckMatrixAtPosition | assets/Scripts/LDtk_Layer.ts:194-241 | out of bounds or already visited changes nothing; otherwise the cells appended to the group and the new marks are `Fill` from the old marks: the newly marked collidable cells, each once, each joined to the cell, the cell last |
| Regions.TileGrouping.VisitNeighbours | assets/Scripts/LDtk_Layer.ts:228-240 | the appended cells are the fills of up, down, left and right, in that order and each from the marks the previous one left, followed by the cell itself |
| Regions.TileGrouping.AddToGroup | assets/Scripts/LDtk_Layer.ts:235-240 | the cell is appended to its group; the key is created and ordered when new |
| Regions.TileGrouping.CreateTileGroups | assets/Scripts/LDtk_Layer.ts:172-184 | every scanned cell ends visited; the groups, their order and the owner map satisfy the grouping invariant; the final state is the row-major scan in which every unvisited position starts a fill keyed by it, so member order and key order are fixed |
| Geometry.CreateRectCoordinates | assets/Scripts/LDtk_Layer.ts:262-269 | four corners per rectangle |
| Geometry.CornersRoundTrip | assets/Scripts/LDtk_Layer.ts:250-269 | the corners determine the rectangle; every axis-aligned corner list is some rectangle's corners |
| Geometry.CornersCounterClockwise | assets/Scripts/LDtk_Layer.ts:262-269 | the corners run counter-clockwise: signed area width times height |
| Geometry.TileRectsTile | assets/Scripts/LDtk_Layer.ts:295-300 | neighbouring tiles' rectangles share their common edge |
| Geometry.ToNumberArrays | assets/Scripts/LDtk_Layer.ts:279-281 | one `[x, y]` pair per point |
| Geometry.ToVec2Array | assets/Scripts/LDtk_Layer.ts:284-286 | one point per pair |
| Geometry.ConvertersRoundTrip | assets/Scripts/LDtk_Layer.ts:279-286 | the two converters are inverse on points and on well-formed pairs |
| Geometry.MergedAppend | assets/Scripts/LDtk_Layer.ts:313-320 | each rectangle is one union step after the previous ones |
| Geometry.SingleTileOutline | assets/Scripts/LDtk_Layer.ts:311-323 | a one-tile group's outline is its corner list, for a union with an empty-polygon identity |
| Outlines.TileRectsShape | assets/Scripts/LDtk_Layer.ts:294-302 | each tile's rectangle: origin at column times width minus offset, row times height minus offset; tile-sized; axis-aligned |
| Outlines.TileRectsAppend | assets/Scripts/LDtk_Layer.ts:294-302 | a group's rectangles follow its cells in order |
| Outlines.InsertKeys | assets/Scripts/LDtk_Layer.ts:292 | the map's key order: old keys first, new keys appended |
| Outlines.InsertKeysNoDup | assets/Scripts/LDtk_Layer.ts:292 | key order has no duplicates |
| Outlines.OverlayReplaces | assets/Scripts/LDtk_Layer.ts:288-305 | setting every group's rectangles overwrites exactly those keys |
| Outlines.EmitStopped | assets/Scripts/LDtk_Layer.ts:307-351 | once a merged group fails, later groups add nothing |
| Outlines.AllRectsAppend | assets/Scripts/LDtk_Layer.ts:335-348 | every rectangle of every group, group after group |
| Outlines.SeparateRectColliders | assets/Scripts/LDtk_Layer.ts:336-348 | without merging, one collider per rectangle, all of them, in group order |
| Outlines.MergedGroupColliders | assets/Scripts/LDtk_Layer.ts:309-333 | with merging, emission completes if and only if every group's union has a region, and then yields one outline per group |
| Outlines.TileRectGroups.constructor | assets/Scripts/LDtk_Layer.ts:38 | an empty rectangle map |
| Outlines.TileRectGroups.CreateRectGroups | assets/Scripts/LDtk_Layer.ts:288-305 | each group's key is set to its tile rectangles over the old map; key order extended |
| Outlines.TileRectGroups.AddGroup | assets/Scripts/LDtk_Layer.ts:292-303 | one key set to a group's rectangles |
| Outlines.TileRectGroups.CreatePolygonColliders | assets/Scripts/LDtk_Layer.ts:307-351 | emits the colliders `Emit` specifies over the whole map, in key order |
| Outlines.MergeGroup | assets/Scripts/LDtk_Layer.ts:311-320 | the union fold of a group's rectangles |
| TiledColliders.LayerMatrix | assets/Scripts/Colliders.ts:101-125 | a rectangular matrix of the layer's height; row r is layer row height-1-r; empty when the layer has no tiles |
| TiledColliders.LayerMatrixCells | assets/Scripts/Colliders.ts:107-118 | cell (r, c) is the tile at index (height-1-r) times width plus c, and 0 when that tile is missing |
| TiledColliders.LayerIdsAreMatrixIds | assets/Scripts/Colliders.ts:107-118 | the ids met while reading are exactly the matrix's cells |
| TiledColliders.RecordAllLaws | assets/Scripts/Colliders.ts:112-114 | the id list only grows, gains exactly the non-zero ids seen, and stays duplicate-free |
| TiledColliders.FirstIndex | assets/Scripts/Colliders.ts:134-138 | the position of a value's first occurrence |
| TiledColliders.RecordAllFirstSeen | assets/Scripts/Colliders.ts:112-114 | new ids are non-zero, unseen before, and listed in order of first appearance |
| TiledColliders.RecordAllConcat | assets/Scripts/Colliders.ts:107-118 | recording row after row equals recording the whole tile sequence |
| TiledColliders.TilesTextIgnoresListed | assets/Scripts/Colliders.ts:144-146 | the printed id list ignores a tile if and only if it is listed |
| TiledColliders.FirstRunTilesText | assets/Scripts/Colliders.ts:101-125 | on a first run, the list holds exactly the non-zero ids of the matrix, and its text ignores exactly those |
| TiledColliders.Colliders.constructor | assets/Scripts/Colliders.ts:35-53 | defaults: merge on, `"0"` ignored, no ids, empty matrix and groups |
| TiledColliders.Colliders.AddTileNumberToTiles | assets/Scripts/Colliders.ts:134-138 | appends an id not yet listed; the list stays duplicate-free |
| TiledColliders.Colliders.TransformTilesToString | assets/Scripts/Colliders.ts:144-146 | the id list printed with `", "` |
| TiledColliders.Colliders.CreateMatrixFromTiles | assets/Scripts/Colliders.ts:101-125 | returns the layer's bottom-up matrix and records its ids in first-seen order |
| TiledColliders.Colliders.ReadRow | assets/Scripts/Colliders.ts:108-119 | one row of tiles, missing ones as 0, each id recorded |
| TiledColliders.Colliders.InitComponent | assets/Scripts/Colliders.ts:394-409 | no layer: fails with "Not a TiledLayer" and keeps the rectangles; otherwise the new matrix, id list, fill and rectangles, and the emitted colliders |
| Layer.LDtkLayer.constructor | assets/Scripts/LDtk_Layer.ts:31-80 | defaults: 16 by 16 tiles, `"0"` ignored, merge on, no CSV |
| Layer.LDtkLayer.InitComponent | assets/Scripts/LDtk_Layer.ts:386-411 | no CSV: empty matrix, no colliders; otherwise the CSV matrix, failure exactly when the fill would throw, and on success the fill, rectangles and colliders |
| Layer.LDtkLayer.Load | assets/Scripts/LDtk_Layer.ts:401-408 | a failure leaves the rectangles alone and happens exactly when the matrix is not fill-safe; on success the fill is the scan of the matrix, the rectangles are laid over the old map and the colliders are those of the whole map |
| Layer.LDtkLayer.Reset | assets/Scripts/LDtk_Layer.ts:131-141 | the matrix is set and the fill is fresh and empty |
| Convert.Table | assets/Scripts/Convert.ts:142-158 | the property map's names and entries agree |
| Convert.TableNoDup | assets/Scripts/Convert.ts:142-158 | each name appears once |
| Convert.TableNames | assets/Scripts/Convert.ts:142-158 | a name is a key if and only if some property has it in that direction |
| Convert.TableLast | assets/Scripts/Convert.ts:145 | the last property with a name wins |
| Convert.TableEntryOf | assets/Scripts/Convert.ts:145 | every entry comes from a property: its other-direction name and its type |
| Convert.BuildTable | assets/Scripts/Convert.ts:142-158 | the loop builds the property map |
| Convert.ObjectDescriptor.JsonToJSProps | assets/Scripts/Convert.ts:142-149 | the map by JSON name, computed once and cached |
| Convert.ObjectDescriptor.JsToJSONProps | assets/Scripts/Convert.ts:151-158 | the map by JavaScript name, computed once and cached |
| Convert.Resolve | assets/Scripts/Convert.ts:224-228 | what the ref loop ends on is not a ref |
| Convert.ResolveRef | assets/Scripts/Convert.ts:224-228 | the ref loop, as a method, agrees with `Resolve` |
| Convert.TransformUnion | assets/Scripts/Convert.ts:166-176 | succeeds if and only if some member accepts; the result is the first accepting member's |
| Convert.TransformObject | assets/Scripts/Convert.ts:200-216 | the object loop, as a method, agrees with `ObjectResult` |
| Convert.TransformDeclared | assets/Scripts/Convert.ts:205-209 | succeeds if and only if every declared property transforms; the result assigns them under their other-direction names |
| Convert.TransformExtras | assets/Scripts/Convert.ts:210-214 | succeeds if and only if every undeclared key transforms; the result adds them under their own names |
| Convert.PrimitiveLaws | assets/Scripts/Convert.ts:161-164 | a primitive descriptor accepts exactly values of its `typeof` and returns them; "any" accepts everything |
| Convert.NullFalseEnumLaws | assets/Scripts/Convert.ts:178-181 | null accepts only null, false nothing, an enum exactly its string cases, returned as is |
| Convert.ArrayLaws | assets/Scripts/Convert.ts:183-187 | a non-array fails; an array succeeds if and only if every item does, element by element |
| Convert.ObjectRejectsNonObjects | assets/Scripts/Convert.ts:201-203 | a non-object fails an object descriptor |
| Convert.MissingPropertyFails | assets/Scripts/Convert.ts:205-209 | a missing property of a defined primitive type fails the object |
| Convert.ExtraKeyFails | assets/Scripts/Convert.ts:210-214 | an undeclared key the additional type rejects fails the object |
| Convert.UnionLaws | assets/Scripts/Convert.ts:166-176 | a union succeeds if and only if a member does, with the first member's result |
| Convert.FirstSuccessLaws | assets/Scripts/Convert.ts:169-175 | the first success in order, or failure when there is none |
| Convert.RefLaws | assets/Scripts/Convert.ts:224-235 | a ref to a non-ref descriptor behaves as that descriptor; a ref to a name the map does not define, and that `Object.prototype` does not supply, accepts exactly `undefined` |
| Convert.SymmetricTables | assets/Scripts/Convert.ts:142-158 | when JSON and JS names agree, both maps are equal |
| Convert.TransformSymmetric | assets/Scripts/Convert.ts:160-239 | for name-symmetric descriptors, both directions give the same result |
| Convert.NeverUndefinedRejects | assets/Scripts/Convert.ts:160-239 | descriptors that never admit `undefined` reject it |
| Convert.AssignDistinct | assets/Scripts/Convert.ts:205-209 | distinct keys are assigned their own values |
| Convert.TransformIdentity | assets/Scripts/Convert.ts:160-239 | for descriptors with matching names and no `undefined` properties, an accepted value comes back unchanged |
| Convert.SameFields | assets/Scripts/Convert.ts:204-215 | rebuilding from kept declared and undeclared values recreates the input's fields |
| LevelTypes.TypeMapObjects | assets/Scripts/Convert.ts:273-360 | every named descriptor is an object with no additional properties |
| LevelTypes.TypeMapSymmetric | assets/Scripts/Convert.ts:273-360 | in every named descriptor, JSON and JS names agree |
| LevelTypes.CastUncastAgree | assets/Scripts/Convert.ts:241-247 | on these descriptors `cast` and `uncast` coincide |
| LevelTypes.CastRejectsExtraKeys | assets/Scripts/Convert.ts:213-214 | an object with an undeclared key fails any named descriptor |
| LevelTypes.TypeMapPreserving | assets/Scripts/Convert.ts:273-360 | every named descriptor preserves accepted values |
| LevelTypes.CastReturnsInput | assets/Scripts/Convert.ts:241-243 | an accepted value comes back from `cast` unchanged |
| LevelTypes.UncastReturnsInput | assets/Scripts/Convert.ts:245-247 | an accepted value comes back from `uncast` unchanged |
| LevelTypes.CastUncastRoundTrip | assets/Scripts/Convert.ts:241-247 | `uncast` of a `cast` result gives the original value |
| Utilities.FlipYLaws | assets/Scripts/LDtk_Utilities.ts:10-12 | the flip is a reflection about minus half the height, and an involution |
| Utilities.TransformToCenterLaws | assets/Scripts/LDtk_Utilities.ts:14-19 | the centre lies half the size from the origin |
| Utilities.CocosPositionClosedForm | assets/Scripts/LDtk_Utilities.ts:1-8 | the position is (x minus x-offset, y-offset minus y), independent of the size |
| Utilities.CocosPositionTranslation | assets/Scripts/LDtk_Utilities.ts:1-8 | moving the box moves x the same way and y the opposite way |

## Left out

- Layer.LDtkLayer.InitComponent: requires every CSV token to be an optionally signed digit string (`WellFormedCsv`).
  - A `"\r\n"` line ending leaves `"1\r"`-style tokens, and a padded token reads as `" 1"`.
  - `parseInt` reads both, and turns junk into `NaN`; neither is modelled.
- Layer.LDtkLayer.Load: on the ragged-CSV failure, the source throws in the middle of the fill.
  - Groups already filled are kept in the source; the model keeps a fresh empty fill.
  - The rectangles and colliders are untouched in both.
- Text.ParseInt: tile ids are unbounded integers. The source uses doubles, so it loses precision
  above 2^53.
- Text.IntToString: prints unbounded integers in plain decimal. `toString` switches to exponent
  form (`"1e+21"`) for large values.
- Convert.Transform: a cyclic chain of refs fails once the ref budget (`Budget`: one per name in
  the map, plus one) is spent. The source's ref loop never terminates on such a chain. The real
  type map has no such cycle.
- Convert.Table: the names of a property table follow insertion order. `Object.getOwnPropertyNames` lists
  array-index names (`"0"`, `"1"`, …) first, in ascending order, so when an index name and another
  name map to the same key, the source's last write can differ from the model's. No name in the
  level type map is an array index.
- Convert.RefLaws: the type map is a `map`, not a JavaScript object, so names inherited from
  `Object.prototype` are not modelled. In the source, `typeMap["toString"]` (or `constructor`,
  `hasOwnProperty`, …) is a function that rejects every value, and `typeMap["__proto__"]` makes
  the dispatch throw. The model reads such a name as `undefined`. The level type map's refs name
  only its own keys.
- Convert.Table: a property named `__proto__` sets the prototype of the source's table, and of the
  object `transformObject` builds, instead of storing an entry or a field. The model stores it like
  any other name. No property in the level type map has that name.
- Convert.Json: an object is a `map`, so the key order of the objects `transformObject` builds is
  not modelled. Numbers are reals.
- Convert.Dispatch: the `Date` branch is not modelled (the type map has no `Date` descriptor).
  Every failure carries one message; the text `invalidValue` and `prettyTypeName` build is not
  modelled.
- Convert.TransformUnion: a member that overflows the stack is caught by the source's
  `try`/`catch`. The model has no stack to overflow.
- Regions.TileGrouping.CheckMatrixAtPosition: the recursion nests one call per cell of the
  depth-first path, which can reach the number of cells of a large region. The JavaScript stack can
  then overflow with a `RangeError` in the middle of the fill. The model has no stack limit.
- Regions.TileGrouping: `_visited` is a set of cells, not an array of rows. Group members are
  cells, not one-element arrays of `Vec2(col, row)`. The marking is still state the methods
  modify.
- Geometry.Union: the polygon-union library (`window.PolyBool.union`) is a function parameter.
  Its clipping algorithm is not modelled, and only identity laws are assumed where a lemma needs
  them.
- Geometry.Vec2: world coordinates and tile sizes are exact reals, not doubles.
- Outlines.TileRectGroups.CreatePolygonColliders returns the outlines instead of adding
  `PolygonCollider2D` components. The `EDITOR` guard and debug drawing are not modelled. A merged
  group whose union has no region stops the emission (`complete` false), where the script throws
  reading `undefined`.
- Outlines.TileRectGroups: the rectangle map is never cleared by `reset`, as in the source.
  Groups from an earlier run whose key is not produced again keep being emitted (see the
  `old(rectGroups.rects)` term of both `InitComponent` contracts).
- Layer.LDtkLayer: these parts of `reset` and `initComponent` are not modelled: destroying
  colliders and debug nodes, the sprite component, the property setters that call
  `initComponent`, and logging. The content size read from `UITransform` is a parameter.
- TiledColliders.Colliders: `getComponent(TiledLayer)` is the `Option<TiledLayer>` parameter.
  `start()` and the debug node are not modelled.
- Convert.ts: `toLDtk`, `lDtkToJson` and the other JSON-text wrappers are not modelled; the
  JSON parser and printer are not part of this model.
- Test.ts, _LDtk.ts, LDtk.ts, LDtk_Entities.ts, Player.ts and Camera.ts are not part of this
  model.
