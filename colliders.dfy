/** The `Colliders` component: reads the tiles of a Tiled layer into a matrix, keeps the
    list of tile ids it has met, groups the collidable tiles and emits one collider
    outline per group or per tile. */
module TiledColliders {
  import opened Wrappers
  import opened Text
  import opened Grid
  import opened Paths
  import opened Regions
  import opened Geometry
  import opened Outlines

  /** `getLayerSize()`, in tiles. */
  datatype Size = Size(width: nat, height: nat)

  /** `getMapTileSize()`, in world units. */
  datatype TileSize = TileSize(width: real, height: real)

  /** The parts of a `TiledLayer` the component reads: its size, its tile ids (row-major,
      top row first), the size of one tile and the offset of its bottom-left corner. */
  datatype TiledLayer = TiledLayer(layerSize: Option<Size>, tiles: Option<seq<int>>, mapTileSize: TileSize,
                                   leftDownToCenterX: real, leftDownToCenterY: real)

  /** `layerTiles[k]` as the matrix stores it: an index past the end reads `undefined`,
      which like 0 is no tile. */
  function TileAt(tiles: seq<int>, k: nat): int
  {
    if k < |tiles| then tiles[k] else 0
  }

  /** The `width` tiles from index `start` on. */
  function TileRun(tiles: seq<int>, start: nat, width: nat): (r: seq<int>)
    ensures |r| == width
  {
    seq(width, j requires 0 <= j < width => TileAt(tiles, start + j))
  }

  /** Row `i` of the layer as the inner loop builds it. */
  function LayerRow(tiles: seq<int>, width: nat, i: nat): (r: seq<int>)
    ensures |r| == width
  {
    TileRun(tiles, i * width, width)
  }

  /** The rows in the order the outer loop pushes them, top row first. */
  function LayerRows(tiles: seq<int>, size: Size): (rows: seq<seq<int>>)
    ensures |rows| == size.height
  {
    seq(size.height, i requires 0 <= i < size.height => LayerRow(tiles, size.width, i))
  }

  /** The loops run only when the layer has a size and a non-empty tile list. */
  predicate HasTiles(layer: TiledLayer)
  {
    layer.layerSize.Some? && layer.tiles.Some? && |layer.tiles.value| > 0
  }

  /** The matrix `createMatrixFromTiles` returns: the layer's rows reversed, so that row 0
      is the bottom row of the layer and rows grow upwards like the engine's y axis; no
      rows at all when there is nothing to read. */
  function LayerMatrix(layer: TiledLayer): (m: Matrix)
    ensures Rectangular(m)
    ensures !HasTiles(layer) ==> m == []
    ensures HasTiles(layer) ==>
      |m| == layer.layerSize.value.height
      && forall r :: 0 <= r < |m| ==>
           m[r] == LayerRow(layer.tiles.value, layer.layerSize.value.width, |m| - 1 - r)
  {
    if HasTiles(layer) then
      var rows := LayerRows(layer.tiles.value, layer.layerSize.value);
      forall r | 0 <= r < |rows| ensures Reverse(rows)[r] == rows[|rows| - 1 - r] {
        ReverseAt(rows, r);
      }
      Reverse(rows)
    else []
  }

  /** Each cell of the matrix is the layer's tile at the mirrored row and the same column. */
  lemma LayerMatrixCells(layer: TiledLayer, r: nat, c: nat)
    requires HasTiles(layer)
    requires r < layer.layerSize.value.height && c < layer.layerSize.value.width
    ensures var size := layer.layerSize.value;
            var m := LayerMatrix(layer);
            |m[r]| == size.width
            && m[r][c] == TileAt(layer.tiles.value, (size.height - 1 - r) * size.width + c)
  {
  }

  /** The concatenation of rows, first row first. */
  function Flatten(rows: seq<seq<int>>): (s: seq<int>)
  {
    if rows == [] then [] else Flatten(rows[..|rows| - 1]) + rows[|rows| - 1]
  }

  /** The ids the loops meet, in the order they meet them. */
  function LayerIds(layer: TiledLayer): seq<int>
  {
    if HasTiles(layer) then Flatten(LayerRows(layer.tiles.value, layer.layerSize.value)) else []
  }

  /** An id is in the concatenation exactly when some row holds it. */
  lemma {:induction false} FlattenHas(rows: seq<seq<int>>, t: int)
    ensures t in Flatten(rows) <==> exists i, j :: 0 <= i < |rows| && 0 <= j < |rows[i]| && rows[i][j] == t
  {
    if rows != [] {
      var init, last := rows[..|rows| - 1], rows[|rows| - 1];
      FlattenHas(init, t);
      assert Flatten(rows) == Flatten(init) + last;
      if t in Flatten(rows) {
        if t in Flatten(init) {
          var i, j :| 0 <= i < |init| && 0 <= j < |init[i]| && init[i][j] == t;
          assert rows[i][j] == t;
        } else {
          var j :| 0 <= j < |last| && last[j] == t;
          assert rows[|rows| - 1][j] == t;
        }
      }
      if exists i, j :: 0 <= i < |rows| && 0 <= j < |rows[i]| && rows[i][j] == t {
        var i, j :| 0 <= i < |rows| && 0 <= j < |rows[i]| && rows[i][j] == t;
        if i < |rows| - 1 {
          assert init[i][j] == t;
        } else {
          assert last[j] == t;
        }
      }
    }
  }

  /** The ids the loops meet are exactly the ids in the cells of the matrix. */
  lemma LayerIdsAreMatrixIds(layer: TiledLayer, t: int)
    ensures var m := LayerMatrix(layer);
            t in LayerIds(layer) <==> exists r, c :: 0 <= r < |m| && 0 <= c < |m[r]| && m[r][c] == t
  {
    var m := LayerMatrix(layer);
    if HasTiles(layer) {
      var rows := LayerRows(layer.tiles.value, layer.layerSize.value);
      FlattenHas(rows, t);
      if t in LayerIds(layer) {
        var i, j :| 0 <= i < |rows| && 0 <= j < |rows[i]| && rows[i][j] == t;
        assert m[|m| - 1 - i][j] == t;
      }
      if exists r, c :: 0 <= r < |m| && 0 <= c < |m[r]| && m[r][c] == t {
        var r, c :| 0 <= r < |m| && 0 <= c < |m[r]| && m[r][c] == t;
        assert rows[|m| - 1 - r][c] == t;
      }
    }
  }

  // ---------------------------------------------------------------------------
  // The list of tile ids and its text
  // ---------------------------------------------------------------------------

  /** `addTileNumberToTiles`: an id not yet listed goes to the end of the list. */
  function AddTile(list: seq<int>, tile: int): seq<int>
  {
    if tile in list then list else list + [tile]
  }

  /** The list after the loops meet `tiles` in order: every non-zero id is added. */
  function RecordAll(list: seq<int>, tiles: seq<int>): seq<int>
  {
    if tiles == [] then list
    else
      var rest := RecordAll(list, tiles[..|tiles| - 1]);
      if tiles[|tiles| - 1] == 0 then rest else AddTile(rest, tiles[|tiles| - 1])
  }

  /** Recording keeps the old list as a prefix, adds exactly the non-zero ids met, and
      lists no id twice. */
  lemma {:induction false} RecordAllLaws(list: seq<int>, tiles: seq<int>)
    ensures list <= RecordAll(list, tiles)
    ensures forall t :: t in RecordAll(list, tiles) <==> t in list || (t != 0 && t in tiles)
    ensures NoDup(list) ==> NoDup(RecordAll(list, tiles))
  {
    if tiles != [] {
      var init, last := tiles[..|tiles| - 1], tiles[|tiles| - 1];
      RecordAllLaws(list, init);
      assert tiles == init + [last];
      var rest := RecordAll(list, init);
      if last != 0 && last !in rest && NoDup(rest) {
        NoDupAppend(rest, [last]);
      }
    }
  }

  /** The position where `x` first occurs in `s`. */
  function FirstIndex(s: seq<int>, x: int): (k: nat)
    requires x in s
    ensures k < |s| && s[k] == x && x !in s[..k]
    decreases |s|
  {
    var init := s[..|s| - 1];
    if x in init then
      var k := FirstIndex(init, x);
      assert s[..k] == init[..k];
      k
    else |s| - 1
  }

  /** The ids recording appends are non-zero ids of `tiles` missing from the old list,
      in the order in which they first occur in `tiles`. */
  lemma {:induction false} RecordAllFirstSeen(list: seq<int>, tiles: seq<int>)
    ensures var r := RecordAll(list, tiles);
      forall i :: |list| <= i < |r| ==> r[i] != 0 && r[i] in tiles && r[i] !in list
    ensures var r := RecordAll(list, tiles);
      forall i, j :: |list| <= i < j < |r| ==> r[i] in tiles && r[j] in tiles && FirstIndex(tiles, r[i]) < FirstIndex(tiles, r[j])
  {
    RecordAllLaws(list, tiles);
    if tiles != [] {
      var init, last := tiles[..|tiles| - 1], tiles[|tiles| - 1];
      RecordAllFirstSeen(list, init);
      RecordAllLaws(list, init);
      var rest := RecordAll(list, init);
      forall x | x in init ensures FirstIndex(tiles, x) == FirstIndex(init, x) {
      }
      if last != 0 && last !in rest {
        assert last !in init;
        assert FirstIndex(tiles, last) == |tiles| - 1;
      }
    }
  }

  /** Meeting `a` and then `b` records the same as meeting `a + b`. */
  lemma {:induction false} RecordAllConcat(list: seq<int>, a: seq<int>, b: seq<int>)
    ensures RecordAll(list, a + b) == RecordAll(RecordAll(list, a), b)
  {
    if b == [] {
      assert a + b == a;
    } else {
      var init, last := b[..|b| - 1], b[|b| - 1];
      RecordAllConcat(list, a, init);
      assert (a + b)[..|a + b| - 1] == a + init;
    }
  }

  /** One more row pushed is one more row concatenated. */
  lemma FlattenStep(rows: seq<seq<int>>, row: seq<int>)
    ensures Flatten(rows + [row]) == Flatten(rows) + row
  {
    assert (rows + [row])[..|rows|] == rows;
  }

  /** `transformTilesToString`: the ids joined by `", "`. */
  function TilesText(list: seq<int>): string
  {
    Join(IdTexts(list), ", ")
  }

  /** The `tiles` text is meant to be pasted into `ignoredTiles`: used so, it ignores
      exactly the listed ids, and nothing when the list is empty. */
  lemma TilesTextIgnoresListed(list: seq<int>, t: int)
    ensures IsIgnored(t, TilesText(list)) <==> t in list
  {
    if list == [] {
      assert Split("", ',') == [""];
      assert IgnoreTokens(TilesText(list)) == [Trim("")];
      IntToStringChars(t);
      assert Trim("") == "";
    } else {
      IgnoreTokensOfList(list);
      var texts := IdTexts(list);
      if IntToString(t) in texts {
        var j :| 0 <= j < |texts| && texts[j] == IntToString(t);
        IntToStringInjective(list[j], t);
      }
      if t in list {
        var j :| 0 <= j < |list| && list[j] == t;
        assert texts[j] == IntToString(t);
      }
    }
  }

  // ---------------------------------------------------------------------------
  // The component
  // ---------------------------------------------------------------------------

  class Colliders {
    var mergeRects: bool
    var ignoredTiles: string
    /** `_tiles`: every non-zero id met so far, first-seen first; `reset` keeps it. */
    var tileList: seq<int>
    /** The read-only `tiles` property. */
    var tilesText: string
    var mapTileSize: Option<TileSize>
    var matrix: Matrix
    /** `_visited` and `_tileCoordinateGroups`, both replaced by `reset`. */
    var fill: TileGrouping
    /** The group each grouped cell belongs to after the last run. */
    ghost var owner: map<Cell, string>
    /** `_tileRectGroups`, which `reset` leaves alone. */
    const rectGroups: TileRectGroups

    ghost predicate Valid()
      reads this, rectGroups
    {
      rectGroups.Valid() && NoDup(tileList)
    }

    /** The component's defaults: rectangles merged, tile id 0 ignored, nothing read yet. */
    constructor ()
      ensures Valid() && fresh(rectGroups)
      ensures mergeRects && ignoredTiles == "0" && tileList == [] && tilesText == ""
      ensures mapTileSize == None && matrix == []
      ensures rectGroups.rects == map[] && rectGroups.order == []
    {
      mergeRects := true;
      ignoredTiles := "0";
      tileList := [];
      tilesText := "";
      mapTileSize := None;
      matrix := [];
      fill := new TileGrouping([], "0");
      owner := map[];
      rectGroups := new TileRectGroups();
    }

    /** `addTileNumberToTiles` */
    method AddTileNumberToTiles(tile: int)
      modifies this`tileList
      ensures tileList == AddTile(old(tileList), tile)
      ensures tile in tileList && (NoDup(old(tileList)) ==> NoDup(tileList))
    {
      if tile !in tileList {
        if NoDup(tileList) {
          NoDupAppend(tileList, [tile]);
        }
        tileList := tileList + [tile];
      }
    }

    /** `transformTilesToString` */
    method TransformTilesToString()
      modifies this`tilesText
      ensures tilesText == TilesText(tileList)
    {
      tilesText := Join(IdTexts(tileList), ", ");
    }

    /** `createMatrixFromTiles`: walks the layer row by row, stores each tile (0 for
        none), records the non-zero ids, refreshes the `tiles` text and returns the rows
        reversed. */
    method CreateMatrixFromTiles(layer: TiledLayer) returns (m: Matrix)
      modifies this`tileList, this`tilesText
      ensures m == LayerMatrix(layer)
      ensures tileList == RecordAll(old(tileList), LayerIds(layer))
      ensures tilesText == TilesText(tileList)
    {
      ghost var list0 := tileList;
      var rows: seq<seq<int>> := [];
      if HasTiles(layer) {
        var size, tiles := layer.layerSize.value, layer.tiles.value;
        var i := 0;
        while i < size.height
          invariant 0 <= i <= size.height
          invariant rows == LayerRows(tiles, size)[..i]
          invariant tileList == RecordAll(list0, Flatten(rows))
        {
          var row := ReadRow(tiles, i * size.width, size.width);
          RecordAllConcat(list0, Flatten(rows), row);
          assert LayerRows(tiles, size)[..i + 1] == rows + [row];
          FlattenStep(rows, row);
          rows := rows + [row];
          i := i + 1;
        }
        assert rows == LayerRows(tiles, size);
      }
      TransformTilesToString();
      m := Reverse(rows);
    }

    /** The inner loop of `createMatrixFromTiles`: one row, 0 where there is no tile,
        each non-zero id recorded. */
    method ReadRow(tiles: seq<int>, start: nat, width: nat) returns (row: seq<int>)
      modifies this`tileList
      ensures row == TileRun(tiles, start, width)
      ensures tileList == RecordAll(old(tileList), row)
    {
      ghost var list0 := tileList;
      row := [];
      var j := 0;
      while j < width
        invariant 0 <= j <= width
        invariant row == TileRun(tiles, start, width)[..j]
        invariant tileList == RecordAll(list0, row)
      {
        var tile := TileAt(tiles, start + j);
        assert (row + [tile])[..|row|] == row;
        if tile != 0 {
          AddTileNumberToTiles(tile);
        }
        row := row + [tile];
        j := j + 1;
      }
    }

    /** `createTileGroups` on a fresh `_visited` and `_tileCoordinateGroups` for `m`. */
    method GroupTiles(m: Matrix)
      requires Rectangular(m)
      modifies this`fill, this`owner
      ensures fresh(fill) && fill.matrix == m && fill.ignoredTiles == ignoredTiles && fill.Grouped(owner)
    {
      RectangularFillSafe(m, ignoredTiles);
      fill := new TileGrouping(m, ignoredTiles);
      owner := fill.CreateTileGroups();
      OrderedNoDup(fill.groups, fill.order);
    }

    /** `initComponent`, collision part: reset; fail with "Not a TiledLayer" when the
        node has no Tiled layer; otherwise read its matrix, group the tiles, add the
        rectangles of the groups to `_tileRectGroups` (offset by the layer's
        `leftDownToCenter`) and emit the colliders of every entry of that map. */
    method InitComponent(layer: Option<TiledLayer>, union: Union) returns (r: Result<Emission>)
      requires Valid()
      modifies this`matrix, this`fill, this`owner, this`mapTileSize, this`tileList, this`tilesText, rectGroups
      ensures Valid() && fresh(fill) && fill.Valid()
      ensures layer.None? ==>
        r == Failure("Not a TiledLayer") && matrix == [] && mapTileSize == None && fill.groups == map[]
        && tileList == old(tileList) && tilesText == old(tilesText)
        && rectGroups.rects == old(rectGroups.rects) && rectGroups.order == old(rectGroups.order)
      ensures layer.Some? ==>
        mapTileSize == Some(layer.value.mapTileSize) && matrix == LayerMatrix(layer.value)
        && tileList == RecordAll(old(tileList), LayerIds(layer.value)) && tilesText == TilesText(tileList)
      ensures layer.Some? ==> fill.matrix == matrix && fill.ignoredTiles == ignoredTiles && fill.Grouped(owner)
      ensures layer.Some? ==>
        rectGroups.rects == old(rectGroups.rects)
          + (map k | k in fill.groups :: TileRects(fill.groups[k], layer.value.mapTileSize.width,
                                                   layer.value.mapTileSize.height,
                                                   layer.value.leftDownToCenterX, layer.value.leftDownToCenterY))
        && rectGroups.order == InsertKeys(old(rectGroups.order), fill.order)
      ensures layer.Some? ==> r == Success(Emit(rectGroups.rects, rectGroups.order, mergeRects, union))
    {
      matrix := [];
      fill := new TileGrouping([], ignoredTiles);
      mapTileSize := None;
      if layer.None? {
        return Failure("Not a TiledLayer");
      }
      var e := Rebuild(layer.value, union);
      r := Success(e);
    }

    /** The steps of `initComponent` that run once the node has a Tiled layer. */
    method Rebuild(l: TiledLayer, union: Union) returns (e: Emission)
      requires Valid()
      modifies this`matrix, this`fill, this`owner, this`mapTileSize, this`tileList, this`tilesText, rectGroups
      ensures Valid() && fresh(fill)
      ensures mapTileSize == Some(l.mapTileSize) && matrix == LayerMatrix(l)
      ensures tileList == RecordAll(old(tileList), LayerIds(l)) && tilesText == TilesText(tileList)
      ensures fill.matrix == matrix && fill.ignoredTiles == ignoredTiles && fill.Grouped(owner)
      ensures rectGroups.rects == old(rectGroups.rects)
        + (map k | k in fill.groups :: TileRects(fill.groups[k], l.mapTileSize.width, l.mapTileSize.height,
                                                 l.leftDownToCenterX, l.leftDownToCenterY))
      ensures rectGroups.order == InsertKeys(old(rectGroups.order), fill.order)
      ensures e == Emit(rectGroups.rects, rectGroups.order, mergeRects, union)
    {
      mapTileSize := Some(l.mapTileSize);
      RecordAllLaws(tileList, LayerIds(l));
      matrix := CreateMatrixFromTiles(l);
      GroupTiles(matrix);
      rectGroups.CreateRectGroups(fill.groups, fill.order, l.mapTileSize.width, l.mapTileSize.height,
                                  l.leftDownToCenterX, l.leftDownToCenterY);
      var outlines, complete := rectGroups.CreatePolygonColliders(mergeRects, union);
      e := Emission(outlines, complete);
    }
  }

  /** After a first run on a layer the `tiles` text lists exactly the non-zero ids of the
      matrix, and pasted into `ignoredTiles` it ignores exactly those. */
  lemma FirstRunTilesText(layer: TiledLayer, t: int)
    ensures var list := RecordAll([], LayerIds(layer));
            var m := LayerMatrix(layer);
            (t in list <==> t != 0 && exists r, c :: 0 <= r < |m| && 0 <= c < |m[r]| && m[r][c] == t)
            && (IsIgnored(t, TilesText(list)) <==> t in list)
  {
    RecordAllLaws([], LayerIds(layer));
    LayerIdsAreMatrixIds(layer, t);
    TilesTextIgnoresListed(RecordAll([], LayerIds(layer)), t);
  }
}
