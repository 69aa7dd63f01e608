/** From groups of cells to collider outlines, as `createRectGroups` and the data path
    of `createPolygonColliders` do in both collider scripts: one rectangle per member
    cell, kept per group in a map that survives between runs, and then one point list
    per rectangle or one merged outline per group. */
module Outlines {
  import opened Wrappers
  import opened Paths
  import opened Regions
  import opened Geometry

  /** The corner lists of a group's rectangles, one per member in member order. */
  function TileRects(cells: seq<Cell>, tileWidth: real, tileHeight: real, offsetX: real, offsetY: real)
    : (r: seq<seq<Vec2>>)
    ensures |r| == |cells|
  {
    seq(|cells|, i requires 0 <= i < |cells| =>
      CreateRectCoordinates(TileRect(cells[i], tileWidth, tileHeight, offsetX, offsetY)))
  }

  /** Each member's rectangle has its bottom-left corner at column times tile width and
      row times tile height, both less the offset, has the size of one tile, and its
      corner list reads back as that rectangle. */
  lemma TileRectsShape(cells: seq<Cell>, tileWidth: real, tileHeight: real, offsetX: real, offsetY: real, i: nat)
    requires i < |cells|
    ensures var r := TileRects(cells, tileWidth, tileHeight, offsetX, offsetY);
      |r[i]| == 4
      && r[i][0] == Vec2(cells[i].col as real * tileWidth - offsetX, cells[i].row as real * tileHeight - offsetY)
      && RectOfCorners(r[i]) == Rect(r[i][0].x, r[i][0].y, tileWidth, tileHeight)
      && AxisAligned(r[i])
  {
    CornersRoundTrip(TileRect(cells[i], tileWidth, tileHeight, offsetX, offsetY), []);
  }

  lemma TileRectsAppend(cells: seq<Cell>, c: Cell, tileWidth: real, tileHeight: real, offsetX: real, offsetY: real)
    ensures TileRects(cells + [c], tileWidth, tileHeight, offsetX, offsetY)
      == TileRects(cells, tileWidth, tileHeight, offsetX, offsetY)
         + [CreateRectCoordinates(TileRect(c, tileWidth, tileHeight, offsetX, offsetY))]
  {
  }

  /** Insertion order of a map after `set` was called on each of `keys` in turn: a key
      already present keeps its place and a new one goes last. */
  function InsertKeys(order: seq<string>, keys: seq<string>): (r: seq<string>)
    ensures forall k :: k in r <==> k in order || k in keys
    ensures order <= r
  {
    if keys == [] then order
    else
      var o := InsertKeys(order, keys[..|keys| - 1]);
      var k := keys[|keys| - 1];
      assert forall x :: x in keys <==> x in keys[..|keys| - 1] || x == k;
      if k in o then o else o + [k]
  }

  lemma {:induction false} InsertKeysNoDup(order: seq<string>, keys: seq<string>)
    requires NoDup(order)
    ensures NoDup(InsertKeys(order, keys))
  {
    if keys != [] {
      InsertKeysNoDup(order, keys[..|keys| - 1]);
      var o := InsertKeys(order, keys[..|keys| - 1]);
      if keys[|keys| - 1] !in o {
        NoDupAppend(o, [keys[|keys| - 1]]);
      }
    }
  }

  /** The rectangle map after the entries of `keys` were `set` in turn. */
  function Overlay(base: map<string, seq<seq<Vec2>>>, groups: map<string, seq<Cell>>, keys: seq<string>,
                   tileWidth: real, tileHeight: real, offsetX: real, offsetY: real): map<string, seq<seq<Vec2>>>
    requires forall k :: k in keys ==> k in groups
  {
    if keys == [] then base
    else
      var k := keys[|keys| - 1];
      Overlay(base, groups, keys[..|keys| - 1], tileWidth, tileHeight, offsetX, offsetY)
        [k := TileRects(groups[k], tileWidth, tileHeight, offsetX, offsetY)]
  }

  /** Setting the entries one by one replaces exactly the listed keys. */
  lemma {:induction false} OverlayReplaces(base: map<string, seq<seq<Vec2>>>, groups: map<string, seq<Cell>>,
                                           keys: seq<string>, tileWidth: real, tileHeight: real, offsetX: real, offsetY: real)
    requires forall k :: k in keys ==> k in groups
    ensures Overlay(base, groups, keys, tileWidth, tileHeight, offsetX, offsetY)
      == base + map k | k in keys :: TileRects(groups[k], tileWidth, tileHeight, offsetX, offsetY)
  {
    if keys != [] {
      var init := keys[..|keys| - 1];
      OverlayReplaces(base, groups, init, tileWidth, tileHeight, offsetX, offsetY);
      assert forall x :: x in keys <==> x in init || x == keys[|keys| - 1];
    }
  }

  /** What `createPolygonColliders` produces: the point lists of the colliders it adds,
      and whether it got to the end (a merged group whose union has no region stops it). */
  datatype Emission = Emission(outlines: seq<seq<Vec2>>, complete: bool)

  /** The colliders for the groups listed in `order`, in that order. */
  function Emit(rects: map<string, seq<seq<Vec2>>>, order: seq<string>, merge: bool, union: Union): Emission
    requires forall k :: k in order ==> k in rects
  {
    if order == [] then Emission([], true)
    else
      var e := Emit(rects, order[..|order| - 1], merge, union);
      var group := rects[order[|order| - 1]];
      if !e.complete then e
      else if !merge then Emission(e.outlines + group, true)
      else match MergedOutline(union, group)
        case None => Emission(e.outlines, false)
        case Some(points) => Emission(e.outlines + [points], true)
  }

  /** Once a run has stopped, later groups add nothing. */
  lemma {:induction false} EmitStopped(rects: map<string, seq<seq<Vec2>>>, order: seq<string>, n: nat,
                                       merge: bool, union: Union)
    requires forall k :: k in order ==> k in rects
    requires n <= |order| && !Emit(rects, order[..n], merge, union).complete
    ensures Emit(rects, order, merge, union) == Emit(rects, order[..n], merge, union)
  {
    if n < |order| {
      assert order[..|order| - 1][..n] == order[..n];
      EmitStopped(rects, order[..|order| - 1], n, merge, union);
    } else {
      assert order[..n] == order;
    }
  }

  /** Every rectangle of every group, group after group: a reference for the separate mode. */
  function AllRects(rects: map<string, seq<seq<Vec2>>>, order: seq<string>): seq<seq<Vec2>>
    requires forall k :: k in order ==> k in rects
  {
    if order == [] then [] else rects[order[0]] + AllRects(rects, order[1..])
  }

  /** Number of rectangles over the groups listed in `order`. */
  function RectCount(rects: map<string, seq<seq<Vec2>>>, order: seq<string>): nat
    requires forall k :: k in order ==> k in rects
  {
    if order == [] then 0 else |rects[order[0]]| + RectCount(rects, order[1..])
  }

  lemma {:induction false} AllRectsAppend(rects: map<string, seq<seq<Vec2>>>, order: seq<string>, k: string)
    requires forall x :: x in order ==> x in rects
    requires k in rects
    ensures AllRects(rects, order + [k]) == AllRects(rects, order) + rects[k]
    ensures RectCount(rects, order + [k]) == RectCount(rects, order) + |rects[k]|
  {
    if order == [] {
      assert order + [k] == [k];
      assert [k][1..] == [];
    } else {
      assert (order + [k])[1..] == order[1..] + [k];
      AllRectsAppend(rects, order[1..], k);
    }
  }

  /** With merging off, every rectangle becomes one collider whose points are its
      corners, group after group, and nothing can stop the run. */
  lemma {:induction false} SeparateRectColliders(rects: map<string, seq<seq<Vec2>>>, order: seq<string>, union: Union)
    requires forall k :: k in order ==> k in rects
    ensures Emit(rects, order, false, union) == Emission(AllRects(rects, order), true)
    ensures |AllRects(rects, order)| == RectCount(rects, order)
  {
    if order != [] {
      var init := order[..|order| - 1];
      var k := order[|order| - 1];
      SeparateRectColliders(rects, init, union);
      AllRectsAppend(rects, init, k);
      assert init + [k] == order;
    }
  }

  /** With merging on, the run completes exactly when every group's union has a region,
      and then there is one collider per group, in order, whose points are that region. */
  lemma {:induction false} MergedGroupColliders(rects: map<string, seq<seq<Vec2>>>, order: seq<string>, union: Union)
    requires forall k :: k in order ==> k in rects
    ensures Emit(rects, order, true, union).complete <==>
      forall i :: 0 <= i < |order| ==> MergedOutline(union, rects[order[i]]).Some?
    ensures Emit(rects, order, true, union).complete ==>
      |Emit(rects, order, true, union).outlines| == |order|
      && forall i :: 0 <= i < |order| ==>
        Emit(rects, order, true, union).outlines[i] == MergedOutline(union, rects[order[i]]).value
  {
    if order != [] {
      var init := order[..|order| - 1];
      MergedGroupColliders(rects, init, union);
      assert forall i :: 0 <= i < |init| ==> init[i] == order[i];
    }
  }

  /** One more key of `createRectGroups`: its entry is set, and it joins the order if new. */
  lemma CreateRectGroupsStep(base: map<string, seq<seq<Vec2>>>, order: seq<string>, groups: map<string, seq<Cell>>,
                             keys: seq<string>, i: nat, tileWidth: real, tileHeight: real, offsetX: real, offsetY: real)
    requires i < |keys| && forall k :: k in keys ==> k in groups
    ensures Overlay(base, groups, keys[..i + 1], tileWidth, tileHeight, offsetX, offsetY)
      == Overlay(base, groups, keys[..i], tileWidth, tileHeight, offsetX, offsetY)
           [keys[i] := TileRects(groups[keys[i]], tileWidth, tileHeight, offsetX, offsetY)]
    ensures var o := InsertKeys(order, keys[..i]);
      InsertKeys(order, keys[..i + 1]) == if keys[i] in o then o else o + [keys[i]]
  {
    assert keys[..i + 1][..i] == keys[..i] && keys[..i + 1][i] == keys[i];
  }

  /** After the last key, the entries of all groups are replaced and the order has no
      repeated key. */
  lemma CreateRectGroupsDone(base: map<string, seq<seq<Vec2>>>, order: seq<string>, groups: map<string, seq<Cell>>,
                             keys: seq<string>, tileWidth: real, tileHeight: real, offsetX: real, offsetY: real)
    requires (forall k :: k in groups <==> k in keys) && NoDup(order)
    ensures Overlay(base, groups, keys[..|keys|], tileWidth, tileHeight, offsetX, offsetY)
      == base + map k | k in groups :: TileRects(groups[k], tileWidth, tileHeight, offsetX, offsetY)
    ensures InsertKeys(order, keys[..|keys|]) == InsertKeys(order, keys) && NoDup(InsertKeys(order, keys))
  {
    assert keys[..|keys|] == keys;
    OverlayReplaces(base, groups, keys, tileWidth, tileHeight, offsetX, offsetY);
    assert (map k | k in keys :: TileRects(groups[k], tileWidth, tileHeight, offsetX, offsetY))
        == map k | k in groups :: TileRects(groups[k], tileWidth, tileHeight, offsetX, offsetY);
    InsertKeysNoDup(order, keys);
  }

  /** `_tileRectGroups`: the rectangles of each group under its key, with the map's
      insertion order, which is also the order colliders are created in. */
  class TileRectGroups {
    var rects: map<string, seq<seq<Vec2>>>
    var order: seq<string>

    ghost predicate Valid()
      reads this
    {
      (forall k :: k in rects <==> k in order) && NoDup(order)
    }

    constructor ()
      ensures Valid() && rects == map[] && order == []
    {
      rects := map[];
      order := [];
    }

    /** `createRectGroups`: for each group, in the groups' insertion order, the entry is
        `set` to an empty list and one rectangle per member is pushed onto it. Entries of
        keys that are not current groups are left as they were. */
    method CreateRectGroups(groups: map<string, seq<Cell>>, keys: seq<string>,
                            tileWidth: real, tileHeight: real, offsetX: real, offsetY: real)
      requires Valid()
      requires (forall k :: k in groups <==> k in keys) && NoDup(keys)
      modifies this
      ensures Valid()
      ensures rects == old(rects) + map k | k in groups :: TileRects(groups[k], tileWidth, tileHeight, offsetX, offsetY)
      ensures order == InsertKeys(old(order), keys)
    {
      SetGroups(groups, keys, tileWidth, tileHeight, offsetX, offsetY);
      CreateRectGroupsDone(old(rects), old(order), groups, keys, tileWidth, tileHeight, offsetX, offsetY);
    }

    /** The loop of `createRectGroups` over the given keys, in order. */
    method SetGroups(groups: map<string, seq<Cell>>, keys: seq<string>,
                     tileWidth: real, tileHeight: real, offsetX: real, offsetY: real)
      requires (forall k :: k in keys ==> k in groups) && forall k :: k in rects <==> k in order
      modifies this
      ensures rects == Overlay(old(rects), groups, keys[..|keys|], tileWidth, tileHeight, offsetX, offsetY)
      ensures order == InsertKeys(old(order), keys[..|keys|])
      ensures forall k :: k in rects <==> k in order
    {
      ghost var r0, o0 := rects, order;
      var i := 0;
      while i < |keys|
        invariant 0 <= i <= |keys|
        invariant rects == Overlay(r0, groups, keys[..i], tileWidth, tileHeight, offsetX, offsetY)
        invariant order == InsertKeys(o0, keys[..i])
        invariant forall k :: k in rects <==> k in order
      {
        CreateRectGroupsStep(r0, o0, groups, keys, i, tileWidth, tileHeight, offsetX, offsetY);
        AddGroup(keys[i], groups[keys[i]], tileWidth, tileHeight, offsetX, offsetY);
        i := i + 1;
      }
    }

    /** One group of `createRectGroups`: a key not yet in the map is appended to the
        order, and its entry is set to the group's rectangles. */
    method AddGroup(key: string, cells: seq<Cell>, tileWidth: real, tileHeight: real, offsetX: real, offsetY: real)
      requires forall k :: k in rects <==> k in order
      modifies this
      ensures rects == old(rects)[key := TileRects(cells, tileWidth, tileHeight, offsetX, offsetY)]
      ensures order == if key in old(order) then old(order) else old(order) + [key]
      ensures forall k :: k in rects <==> k in order
    {
      if key !in rects {
        order := order + [key];
      }
      SetRects(key, cells, tileWidth, tileHeight, offsetX, offsetY);
    }

    /** The group's entry replaced by a fresh list, then one rectangle appended per member. */
    method SetRects(key: string, cells: seq<Cell>, tileWidth: real, tileHeight: real, offsetX: real, offsetY: real)
      modifies this`rects
      ensures rects == old(rects)[key := TileRects(cells, tileWidth, tileHeight, offsetX, offsetY)]
    {
      rects := rects[key := []];
      var j := 0;
      while j < |cells|
        invariant 0 <= j <= |cells|
        invariant rects == old(rects)[key := TileRects(cells[..j], tileWidth, tileHeight, offsetX, offsetY)]
      {
        var rect := CreateRectGeometry(cells[j].col as real * tileWidth - offsetX,
                                       cells[j].row as real * tileHeight - offsetY, tileWidth, tileHeight);
        assert rect == TileRect(cells[j], tileWidth, tileHeight, offsetX, offsetY);
        assert cells[..j + 1] == cells[..j] + [cells[j]];
        TileRectsAppend(cells[..j], cells[j], tileWidth, tileHeight, offsetX, offsetY);
        rects := rects[key := rects[key] + [CreateRectCoordinates(rect)]];
        j := j + 1;
      }
      assert cells[..j] == cells;
    }

    /** The data path of `createPolygonColliders`: for each group in insertion order,
        either the union of its rectangles folded from an empty polygon gives one outline,
        or each rectangle gives its own. */
    method CreatePolygonColliders(merge: bool, union: Union) returns (outlines: seq<seq<Vec2>>, complete: bool)
      requires Valid()
      ensures Emission(outlines, complete) == Emit(rects, order, merge, union)
    {
      outlines := [];
      var i := 0;
      while i < |order|
        invariant 0 <= i <= |order|
        invariant Emission(outlines, true) == Emit(rects, order[..i], merge, union)
      {
        var group := rects[order[i]];
        assert order[..i + 1][..i] == order[..i];
        if merge {
          var result := MergeGroup(group, union);
          if result.regions == [] {
            complete := false;
            EmitStopped(rects, order, i + 1, merge, union);
            return;
          }
          outlines := outlines + [ToVec2Array(result.regions[0])];
        } else {
          outlines := AppendRects(outlines, group);
        }
        i := i + 1;
      }
      complete := true;
      assert order[..i] == order;
    }
  }

  /** The merge loop of `createPolygonColliders`: the group's rectangles, each turned
      into a polygon, folded into an empty polygon with `union`. */
  method MergeGroup(group: seq<seq<Vec2>>, union: Union) returns (result: Polygon)
    ensures result == Merged(union, group)
  {
    result := NoPolygon;
    var j := 0;
    while j < |group|
      invariant 0 <= j <= |group|
      invariant result == Merged(union, group[..j])
    {
      result := union(result, CreatePolygon(ToNumberArrays(group[j])));
      MergedAppend(union, group[..j], group[j]);
      assert group[..j + 1] == group[..j] + [group[j]];
      j := j + 1;
    }
    assert group[..j] == group;
  }

  /** The separate-rectangle loop of `createPolygonColliders`: one collider per
      rectangle, with the rectangle's corners as its points, in order. */
  method AppendRects(outlines: seq<seq<Vec2>>, group: seq<seq<Vec2>>) returns (r: seq<seq<Vec2>>)
    ensures r == outlines + group
  {
    r := outlines;
    var j := 0;
    while j < |group|
      invariant 0 <= j <= |group|
      invariant r == outlines + group[..j]
    {
      r := r + [group[j]];
      assert group[..j + 1] == group[..j] + [group[j]];
      j := j + 1;
    }
    assert group[..j] == group;
  }
}
