/** World-space geometry of the collider scripts: tile rectangles, their corner lists,
    the `[x, y]` number arrays handed to the polygon-union library and back, and the
    fold of a group's rectangles through that union. World coordinates are exact reals. */
module Geometry {
  import opened Wrappers
  import opened Paths

  datatype Vec2 = Vec2(x: real, y: real)

  /** `math.Rect`: origin (x, y) and size. */
  datatype Rect = Rect(x: real, y: real, width: real, height: real)

  /** `createRectGeometry(x, y)`: a rectangle of one tile's size, moved to (x, y). */
  function CreateRectGeometry(x: real, y: real, tileWidth: real, tileHeight: real): Rect
  {
    Rect(x, y, tileWidth, tileHeight)
  }

  /** `createRectCoordinates`: the corners bottom-left, bottom-right, top-right, top-left. */
  function CreateRectCoordinates(r: Rect): (c: seq<Vec2>)
    ensures |c| == 4
  {
    [Vec2(r.x, r.y), Vec2(r.x + r.width, r.y), Vec2(r.x + r.width, r.y + r.height), Vec2(r.x, r.y + r.height)]
  }

  /** The rectangle spanned by a corner list: origin at the first corner, opposite corner third. */
  function RectOfCorners(c: seq<Vec2>): Rect
    requires |c| == 4
  {
    Rect(c[0].x, c[0].y, c[2].x - c[0].x, c[2].y - c[0].y)
  }

  /** Four corners whose consecutive edges alternate horizontal and vertical, starting
      with a horizontal one. */
  predicate AxisAligned(c: seq<Vec2>)
    requires |c| == 4
  {
    c[0].y == c[1].y && c[1].x == c[2].x && c[2].y == c[3].y && c[3].x == c[0].x
  }

  /** The corner list determines its rectangle, and every axis-aligned corner list
      starting at the bottom-left corner is the corner list of a rectangle. */
  lemma CornersRoundTrip(r: Rect, c: seq<Vec2>)
    ensures RectOfCorners(CreateRectCoordinates(r)) == r
    ensures AxisAligned(CreateRectCoordinates(r))
    ensures |c| == 4 && AxisAligned(c) ==> CreateRectCoordinates(RectOfCorners(c)) == c
  {
  }

  function Cross(a: Vec2, b: Vec2): real
  {
    a.x * b.y - b.x * a.y
  }

  /** Twice the signed area of a closed polygon (shoelace formula), from vertex `i` on. */
  function TwiceArea(c: seq<Vec2>, i: nat): real
    requires i <= |c|
    decreases |c| - i
  {
    if i == |c| then 0.0 else Cross(c[i], c[(i + 1) % |c|]) + TwiceArea(c, i + 1)
  }

  /** The corners run counter-clockwise around an area of width times height, so a
      tile of positive size gives a positively oriented outline of the tile's area. */
  lemma CornersCounterClockwise(r: Rect)
    ensures TwiceArea(CreateRectCoordinates(r), 0) == 2.0 * r.width * r.height
  {
    var c := CreateRectCoordinates(r);
    var x, y, w, h := r.x, r.y, r.width, r.height;
    assert TwiceArea(c, 4) == 0.0;
    assert TwiceArea(c, 3) == Cross(c[3], c[0]);
    assert TwiceArea(c, 2) == Cross(c[2], c[3]) + TwiceArea(c, 3);
    assert TwiceArea(c, 1) == Cross(c[1], c[2]) + TwiceArea(c, 2);
    assert TwiceArea(c, 0) == Cross(c[0], c[1]) + TwiceArea(c, 1);
    assert Cross(c[0], c[1]) == x * y - (x + w) * y == -(w * y);
    assert Cross(c[1], c[2]) == (x + w) * (y + h) - (x + w) * y == (x + w) * h;
    assert Cross(c[2], c[3]) == (x + w) * (y + h) - x * (y + h) == w * (y + h);
    assert Cross(c[3], c[0]) == x * y - x * (y + h) == -(x * h);
  }

  /** The rectangle `createRectGroups` makes for the tile at `cell`: column times tile
      width and row times tile height, both less the offset, as its bottom-left corner. */
  function TileRect(cell: Cell, tileWidth: real, tileHeight: real, offsetX: real, offsetY: real): Rect
  {
    CreateRectGeometry(cell.col as real * tileWidth - offsetX, cell.row as real * tileHeight - offsetY,
                       tileWidth, tileHeight)
  }

  /** Side by side tiles share an edge: the next column starts where this one ends. */
  lemma TileRectsTile(cell: Cell, tileWidth: real, tileHeight: real, offsetX: real, offsetY: real)
    ensures var a := CreateRectCoordinates(TileRect(cell, tileWidth, tileHeight, offsetX, offsetY));
            var b := CreateRectCoordinates(TileRect(Right(cell), tileWidth, tileHeight, offsetX, offsetY));
            b[0] == a[1] && b[3] == a[2]
    ensures var a := CreateRectCoordinates(TileRect(cell, tileWidth, tileHeight, offsetX, offsetY));
            var b := CreateRectCoordinates(TileRect(Down(cell), tileWidth, tileHeight, offsetX, offsetY));
            b[0] == a[3] && b[1] == a[2]
  {
    assert (cell.col + 1) as real * tileWidth == cell.col as real * tileWidth + tileWidth;
    assert (cell.row + 1) as real * tileHeight == cell.row as real * tileHeight + tileHeight;
  }

  // ---------------------------------------------------------------------------
  // Points as number arrays
  // ---------------------------------------------------------------------------

  /** `convertVec2ArrayToNumberArray`: each point as `[x, y]`. */
  function ToNumberArrays(points: seq<Vec2>): (r: seq<seq<real>>)
    ensures |r| == |points|
  {
    seq(|points|, i requires 0 <= i < |points| => [points[i].x, points[i].y])
  }

  /** Entry `k` of a number array, or 0 where it has none: the engine's `Vec2`
      constructor stores a missing coordinate as 0. */
  function Coordinate(p: seq<real>, k: nat): real
  {
    if k < |p| then p[k] else 0.0
  }

  /** `convertNumberArrayToVec2Array`: each pair of coordinates becomes a `Vec2`. */
  function ToVec2Array(points: seq<seq<real>>): (r: seq<Vec2>)
    ensures |r| == |points|
  {
    seq(|points|, i requires 0 <= i < |points| => Vec2(Coordinate(points[i], 0), Coordinate(points[i], 1)))
  }

  /** The two converters undo each other on points and on pairs of numbers. */
  lemma ConvertersRoundTrip(points: seq<Vec2>, numbers: seq<seq<real>>)
    ensures ToVec2Array(ToNumberArrays(points)) == points
    ensures (forall i :: 0 <= i < |numbers| ==> |numbers[i]| == 2) ==> ToNumberArrays(ToVec2Array(numbers)) == numbers
  {
    if forall i :: 0 <= i < |numbers| ==> |numbers[i]| == 2 {
      var back := ToNumberArrays(ToVec2Array(numbers));
      forall i | 0 <= i < |numbers| ensures back[i] == numbers[i] {
        assert back[i] == [numbers[i][0], numbers[i][1]];
      }
    }
  }

  // ---------------------------------------------------------------------------
  // Polygons and the union fold
  // ---------------------------------------------------------------------------

  /** The polygon format of the union library: regions of `[x, y]` points. */
  datatype Polygon = Polygon(regions: seq<seq<seq<real>>>, inverted: bool)

  /** The library's `union`; its clipping algorithm is not part of this model. */
  type Union = (Polygon, Polygon) -> Polygon

  /** `{ regions: [], inverted: false }`, the start of the fold. */
  const NoPolygon := Polygon([], false)

  /** `createPolygon`: a polygon of one region. */
  function CreatePolygon(points: seq<seq<real>>): Polygon
  {
    Polygon([points], false)
  }

  /** The union of the rectangles of a group folded left from `NoPolygon`, in order. */
  function Merged(union: Union, rects: seq<seq<Vec2>>): Polygon
  {
    if rects == [] then NoPolygon
    else union(Merged(union, rects[..|rects| - 1]), CreatePolygon(ToNumberArrays(rects[|rects| - 1])))
  }

  /** The outline collider of a merged group: the first region of the union as points,
      or nothing when the union has no region (the script then fails on `undefined`). */
  function MergedOutline(union: Union, rects: seq<seq<Vec2>>): Option<seq<Vec2>>
  {
    var p := Merged(union, rects);
    if p.regions == [] then None else Some(ToVec2Array(p.regions[0]))
  }

  /** One more rectangle is one more union step. */
  lemma MergedAppend(union: Union, rects: seq<seq<Vec2>>, r: seq<Vec2>)
    ensures Merged(union, rects + [r]) == union(Merged(union, rects), CreatePolygon(ToNumberArrays(r)))
  {
    assert (rects + [r])[..|rects|] == rects;
  }

  /** For a union that returns its second operand when the first is empty, the outline
      of a one-tile group is exactly that tile's corner list. */
  lemma SingleTileOutline(union: Union, corners: seq<Vec2>)
    requires forall p :: union(NoPolygon, p) == p
    ensures MergedOutline(union, [corners]) == Some(corners)
  {
    var p := CreatePolygon(ToNumberArrays(corners));
    assert [corners][..0] == [];
    assert Merged(union, [corners]) == union(NoPolygon, p) == p;
    ConvertersRoundTrip(corners, []);
  }
}
