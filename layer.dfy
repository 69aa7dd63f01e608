/** The `LDtkLayer` component: reads the collision CSV of an LDtk layer, groups the
    collidable tiles and emits one collider outline per group or per tile. */
module Layer {
  import opened Wrappers
  import opened Grid
  import opened Paths
  import opened Regions
  import opened Geometry
  import opened Outlines

  class LDtkLayer {
    var matrix: Matrix
    var tileWidth: real
    var tileHeight: real
    var ignoredTiles: string
    var mergeRects: bool
    /** The text of the collision CSV asset, when one is assigned. */
    var textAsset: Option<string>
    /** `_visited` and `_tileCoordinateGroups`, both replaced by `reset`. */
    var fill: TileGrouping
    /** The group each grouped cell belongs to after the last run. */
    ghost var owner: map<Cell, string>
    /** `_tileRectGroups`, which `reset` leaves alone. */
    const rectGroups: TileRectGroups

    ghost predicate Valid()
      reads this, rectGroups
    {
      rectGroups.Valid()
    }

    /** The component's defaults: 16 by 16 tiles, tile id 0 ignored, rectangles merged. */
    constructor ()
      ensures Valid() && fresh(rectGroups)
      ensures matrix == [] && tileWidth == 16.0 && tileHeight == 16.0
      ensures ignoredTiles == "0" && mergeRects && textAsset == None
      ensures rectGroups.rects == map[] && rectGroups.order == []
    {
      matrix := [];
      tileWidth := 16.0;
      tileHeight := 16.0;
      ignoredTiles := "0";
      mergeRects := true;
      textAsset := None;
      fill := new TileGrouping([], "0");
      owner := map[];
      rectGroups := new TileRectGroups();
    }

    /** The state `initComponent` leaves once the matrix `m` is read, given the rectangle
        map and key order it found (`rects0`, `order0`): the grouping throws a `TypeError`
        exactly when `m` is not `FillSafe`, and then `_tileRectGroups` is unchanged;
        otherwise the groups are the flood fill of `m`, their rectangles (offset by the
        node's content size) are laid over the old entries, and the colliders are those
        of every entry of that map. */
    ghost predicate Loaded(m: Matrix, rects0: map<string, seq<seq<Vec2>>>, order0: seq<string>,
                           contentWidth: real, contentHeight: real, union: Union, r: Result<Emission>)
      reads this, fill, rectGroups
    {
      Valid() && fill.Valid() && matrix == m
      && (r.Failure? <==> !FillSafe(m, ignoredTiles))
      && (r.Failure? ==> rectGroups.rects == rects0 && rectGroups.order == order0)
      && (r.Success? ==>
            fill.matrix == m && fill.ignoredTiles == ignoredTiles && fill.Grouped(owner)
            && rectGroups.rects == rects0
                 + (map k | k in fill.groups :: TileRects(fill.groups[k], tileWidth, tileHeight, contentWidth, contentHeight))
            && rectGroups.order == InsertKeys(order0, fill.order)
            && r.value == Emit(rectGroups.rects, rectGroups.order, mergeRects, union))
    }

    /** `initComponent`, collision part: reset, then with a CSV asset build the matrix,
        group its tiles, add the rectangles of the groups to `_tileRectGroups` and emit
        the colliders of every entry of that map. Without an asset nothing is emitted and
        `_tileRectGroups` keeps its entries. */
    method InitComponent(contentWidth: real, contentHeight: real, union: Union) returns (r: Result<Emission>)
      requires Valid()
      requires textAsset.Some? ==> WellFormedCsv(textAsset.value)
      modifies this`matrix, this`fill, this`owner, rectGroups
      ensures Valid() && fresh(fill) && fill.Valid()
      ensures textAsset.None? ==>
        matrix == [] && r == Success(Emission([], true)) && fill.groups == map[]
        && rectGroups.rects == old(rectGroups.rects) && rectGroups.order == old(rectGroups.order)
      ensures textAsset.Some? ==>
        Loaded(CreateMatrixFromCSV(textAsset.value), old(rectGroups.rects), old(rectGroups.order),
               contentWidth, contentHeight, union, r)
    {
      if textAsset.None? {
        Reset([]);
        r := Success(Emission([], true));
      } else {
        var m := CreateMatrixFromCSV(textAsset.value);
        r := Load(m, contentWidth, contentHeight, union);
      }
    }

    /** `reset`, leaving the matrix `m` and an empty fill: what remains when there is no
        asset to read (`m` empty) or when the grouping throws. */
    method Reset(m: Matrix)
      requires Valid()
      modifies this`matrix, this`fill
      ensures Valid() && fresh(fill) && fill.Valid()
      ensures matrix == m && fill.groups == map[]
    {
      matrix := m;
      fill := new TileGrouping([], ignoredTiles);
    }

    /** `initComponent` once the matrix `m` is read. */
    method Load(m: Matrix, contentWidth: real, contentHeight: real, union: Union) returns (r: Result<Emission>)
      requires Valid()
      modifies this`matrix, this`fill, this`owner, rectGroups
      ensures fresh(fill)
      ensures Loaded(m, old(rectGroups.rects), old(rectGroups.order), contentWidth, contentHeight, union, r)
    {
      if FillSafe(m, ignoredTiles) {
        var e := Rebuild(m, contentWidth, contentHeight, union);
        r := Success(e);
      } else {
        Reset(m);
        r := Failure("TypeError: Cannot read properties of undefined (reading 'toString')");
      }
    }

    /** The steps of `initComponent` that run on the matrix read from a CSV asset. */
    method Rebuild(m: Matrix, contentWidth: real, contentHeight: real, union: Union) returns (e: Emission)
      requires Valid() && FillSafe(m, ignoredTiles)
      modifies this`matrix, this`fill, this`owner, rectGroups
      ensures Valid() && fresh(fill) && fill.Valid()
      ensures matrix == m && fill.matrix == m && fill.ignoredTiles == ignoredTiles
      ensures fill.Grouped(owner)
      ensures rectGroups.rects == old(rectGroups.rects)
        + (map k | k in fill.groups :: TileRects(fill.groups[k], tileWidth, tileHeight, contentWidth, contentHeight))
      ensures rectGroups.order == InsertKeys(old(rectGroups.order), fill.order)
      ensures e == Emit(rectGroups.rects, rectGroups.order, mergeRects, union)
    {
      matrix := m;
      GroupTiles(matrix);
      rectGroups.CreateRectGroups(fill.groups, fill.order, tileWidth, tileHeight, contentWidth, contentHeight);
      var outlines, complete := rectGroups.CreatePolygonColliders(mergeRects, union);
      e := Emission(outlines, complete);
    }

    /** `createTileGroups` on a fresh `_visited` and `_tileCoordinateGroups` for `m`. */
    method GroupTiles(m: Matrix)
      requires FillSafe(m, ignoredTiles)
      modifies this`fill, this`owner
      ensures fresh(fill) && fill.matrix == m && fill.ignoredTiles == ignoredTiles && fill.Grouped(owner)
    {
      fill := new TileGrouping(m, ignoredTiles);
      owner := fill.CreateTileGroups();
      OrderedNoDup(fill.groups, fill.order);
    }
  }
}
