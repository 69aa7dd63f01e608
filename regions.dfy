/** Grouping the collidable cells of a tile matrix into 4-connected regions by a
    recursive flood fill, as `createTileGroups` and `checkMatrixAtPosition` do in
    both collider scripts. */
module Regions {
  import opened Text
  import opened Grid
  import opened Paths

  /** The positions that hold a tile id: inside the bounds the flood fill checks and
      within their own row. */
  ghost function TileCells(m: Matrix): set<Cell>
  {
    set r, c | 0 <= r < |m| && 0 <= c < Width(m) && c < |m[r]| :: Cell(r, c)
  }

  lemma TileCellsMembership(m: Matrix, x: Cell)
    ensures x in TileCells(m) <==> InBounds(m, x) && x.col < |m[x.row]|
  {
    if InBounds(m, x) && x.col < |m[x.row]| {
      assert Cell(x.row, x.col) == x;
    }
  }
  /** Tiles of a row longer than row 0 that lie past row 0's width are outside the bounds
      the flood fill checks: they are never visited and never collidable, so no group
      holds them. The CSV `"1,1\n1"` gives `[[1], [1, 1]]`, whose tile at row 1,
      column 1 is such a tile. */
  lemma WideRowTilesOutside(m: Matrix, ign: string, c: Cell)
    requires 0 <= c.row < |m| && Width(m) <= c.col < |m[c.row]|
    ensures c !in TileCells(m) && c !in OpenCells(m, ign)
  {
    TileCellsMembership(m, c);
    OpenCellsAreOpen(m, ign, c);
  }


  lemma OpenCellsInside(m: Matrix, ign: string)
    ensures OpenCells(m, ign) <= TileCells(m)
  {
    forall x | x in OpenCells(m, ign) ensures x in TileCells(m) {
      OpenCellsAreOpen(m, ign, x);
      TileCellsMembership(m, x);
    }
  }

  predicate NoDup<T(==)>(s: seq<T>)
  {
    forall i, j :: 0 <= i < j < |s| ==> s[i] != s[j]
  }

  lemma NoDupAppend<T>(a: seq<T>, b: seq<T>)
    requires NoDup(a) && NoDup(b)
    requires forall x :: x in a ==> x !in b
    ensures NoDup(a + b)
  {
    forall i, j | 0 <= i < j < |a + b| ensures (a + b)[i] != (a + b)[j] {
      if j >= |a| && i < |a| {
        assert (a + b)[i] in a && (a + b)[j] in b;
      }
    }
  }

  /** The cell a group was started from: the script appends it after everything
      its recursive calls appended, so it is the last one. */
  function Seed(g: seq<Cell>): Cell
    requires g != []
  {
    g[|g| - 1]
  }

  /** Every in-bounds neighbour of `x` is in `marked`. */
  predicate NeighboursIn(x: Cell, cells: set<Cell>, marked: set<Cell>)
  {
    (Up(x) in cells ==> Up(x) in marked)
    && (Down(x) in cells ==> Down(x) in marked)
    && (Left(x) in cells ==> Left(x) in marked)
    && (Right(x) in cells ==> Right(x) in marked)
  }

  /** The groups after one visit appended `added` under `key`: `push` onto an existing
      entry, otherwise `set` a new one. */
  function Extend(groups: map<string, seq<Cell>>, key: string, added: seq<Cell>): (r: map<string, seq<Cell>>)
  {
    if added == [] then groups
    else groups[key := (if key in groups then groups[key] else []) + added]
  }

  /** Insertion order of the map keys after the same visit: a new key goes last. */
  function ExtendOrder(groups: map<string, seq<Cell>>, order: seq<string>, key: string, added: seq<Cell>): (r: seq<string>)
  {
    if added == [] || key in groups then order else order + [key]
  }

  /** Two visits under the same key append like one visit appending both. */
  lemma ExtendConcat(g: map<string, seq<Cell>>, o: seq<string>, key: string, a: seq<Cell>, b: seq<Cell>)
    ensures Extend(Extend(g, key, a), key, b) == Extend(g, key, a + b)
    ensures ExtendOrder(Extend(g, key, a), ExtendOrder(g, o, key, a), key, b) == ExtendOrder(g, o, key, a + b)
  {
    if a == [] {
      assert a + b == b;
    } else if b == [] {
      assert a + b == a;
    } else {
      var base := if key in g then g[key] else [];
      assert base + a + b == base + (a + b);
    }
  }

  /** Five visits under the same key append like one visit appending all. */
  lemma ExtendChain(g: map<string, seq<Cell>>, o: seq<string>, key: string, a: seq<Cell>, b: seq<Cell>, c: seq<Cell>)
    ensures Extend(Extend(Extend(g, key, a), key, b), key, c) == Extend(g, key, a + b + c)
    ensures ExtendOrder(Extend(Extend(g, key, a), key, b),
              ExtendOrder(Extend(g, key, a), ExtendOrder(g, o, key, a), key, b), key, c)
            == ExtendOrder(g, o, key, a + b + c)
  {
    ExtendConcat(g, o, key, a, b);
    ExtendConcat(g, o, key, a + b, c);
  }

  /** Regrouping the cells two neighbour visits added. */
  lemma Regroup(a1: seq<Cell>, a2: seq<Cell>, a3: seq<Cell>, a4: seq<Cell>, c: seq<Cell>)
    ensures a1 + a2 + (a3 + a4) + c == a1 + a2 + a3 + a4 + c
  {
  }

  /** What one call of the flood fill at `n` does, seen from outside: `marked` grows from
      `before` to `after`, `n` is marked if inside, the newly marked collidable cells are
      exactly `added` (each once), each has all its neighbours marked, each is joined to
      `n` through collidable cells, and `n` comes last. */
  ghost predicate Visit(open: set<Cell>, cells: set<Cell>, n: Cell, before: set<Cell>, after: set<Cell>, added: seq<Cell>)
  {
    before <= after
    && (n in cells ==> n in after)
    && (forall x :: x in added <==> NewlyOpen(open, before, after, x))
    && NoDup(added)
    && (forall x :: x in added ==> NeighboursIn(x, cells, after))
    && (forall x {:trigger ConnectedIn(open, n, x)} :: x in added ==> ConnectedIn(open, n, x))
    && (added != [] ==> Seed(added) == n)
  }

  /** `x` is collidable and was marked between `before` and `after`. */
  predicate NewlyOpen(open: set<Cell>, before: set<Cell>, after: set<Cell>, x: Cell)
  {
    x in open && x in after && x !in before
  }

  /** A visit of a fresh collidable cell composed of its own marking and the four
      recursive visits, in the script's order: up, down, left, right. */
  lemma VisitStep(open: set<Cell>, cells: set<Cell>, row: int, col: int,
                  m0: set<Cell>, m1: set<Cell>, m2: set<Cell>, m3: set<Cell>, m4: set<Cell>, m5: set<Cell>,
                  a1: seq<Cell>, a2: seq<Cell>, a3: seq<Cell>, a4: seq<Cell>)
    requires Cell(row, col) in open && Cell(row, col) in cells
    requires Cell(row, col) !in m0 && m1 == m0 + {Cell(row, col)}
    requires Visit(open, cells, Cell(row - 1, col), m1, m2, a1)
    requires Visit(open, cells, Cell(row + 1, col), m2, m3, a2)
    requires Visit(open, cells, Cell(row, col - 1), m3, m4, a3)
    requires Visit(open, cells, Cell(row, col + 1), m4, m5, a4)
    ensures Visit(open, cells, Cell(row, col), m0, m5, a1 + a2 + a3 + a4 + [Cell(row, col)])
  {
    var c := Cell(row, col);
    var added := a1 + a2 + a3 + a4 + [c];
    NoDupAppend(a1, a2);
    NoDupAppend(a1 + a2, a3);
    NoDupAppend(a1 + a2 + a3, a4);
    NoDupAppend(a1 + a2 + a3 + a4, [c]);
    forall x | x in added ensures ConnectedIn(open, c, x) {
      if x == c {
        ConnectedRefl(open, c);
      } else if x in a1 {
        ConnectedPrepend(open, c, Up(c), x);
      } else if x in a2 {
        ConnectedPrepend(open, c, Down(c), x);
      } else if x in a3 {
        ConnectedPrepend(open, c, Left(c), x);
      } else {
        assert x in a4;
        ConnectedPrepend(open, c, Right(c), x);
      }
    }
    assert Seed(added) == c;
  }

  /** The flood fill from `n` as a function of the marks it starts with: the cells it
      appends, in order, and the marks it leaves. A position outside `cells` or already
      marked adds nothing; otherwise it is marked, and if collidable its up, down, left
      and right neighbours are filled in that order, each from the marks the previous
      one left, and `n` is appended after all they appended. */
  ghost function Fill(open: set<Cell>, cells: set<Cell>, n: Cell, before: set<Cell>): (r: (seq<Cell>, set<Cell>))
    ensures before <= r.1 && r.1 - before <= cells
    decreases cells - before
  {
    if n !in cells || n in before then ([], before)
    else
      var m1 := before + {n};
      if n !in open then ([], m1)
      else
        var r1 := Fill(open, cells, Up(n), m1);
        var r2 := Fill(open, cells, Down(n), r1.1);
        var r3 := Fill(open, cells, Left(n), r2.1);
        var r4 := Fill(open, cells, Right(n), r3.1);
        (r1.0 + r2.0 + r3.0 + r4.0 + [n], r4.1)
  }

  /** The fill from a fresh collidable position, assembled from its four neighbour fills. */
  lemma FillOpen(open: set<Cell>, cells: set<Cell>, n: Cell, m0: set<Cell>,
                 m2: set<Cell>, m3: set<Cell>, m4: set<Cell>, m5: set<Cell>,
                 a1: seq<Cell>, a2: seq<Cell>, a3: seq<Cell>, a4: seq<Cell>)
    requires n in cells && n !in m0 && n in open
    requires (a1, m2) == Fill(open, cells, Up(n), m0 + {n})
    requires (a2, m3) == Fill(open, cells, Down(n), m2)
    requires (a3, m4) == Fill(open, cells, Left(n), m3)
    requires (a4, m5) == Fill(open, cells, Right(n), m4)
    ensures Fill(open, cells, n, m0) == (a1 + a2 + a3 + a4 + [n], m5)
  {
  }

  /** The maps and marks `createTileGroups` carries from one scanned position to the next. */
  datatype ScanState = ScanState(visited: set<Cell>, groups: map<string, seq<Cell>>, order: seq<string>)

  /** One position of the scan: an unmarked position starts a fill keyed `"row_col"`. */
  ghost function ScanAt(open: set<Cell>, cells: set<Cell>, st: ScanState, s: Cell): ScanState
  {
    if s in st.visited then st
    else
      var f := Fill(open, cells, s, st.visited);
      var key := Key(s.row, s.col);
      ScanState(f.1, Extend(st.groups, key, f.0), ExtendOrder(st.groups, st.order, key, f.0))
  }

  /** The scan over the positions `ps`, in order, from the state `st`. */
  ghost function ScanAll(open: set<Cell>, cells: set<Cell>, st: ScanState, ps: seq<Cell>): ScanState
    decreases |ps|
  {
    if ps == [] then st
    else ScanAt(open, cells, ScanAll(open, cells, st, ps[..|ps| - 1]), ps[|ps| - 1])
  }

  /** Scanning one more position continues from where the scan stood. */
  lemma ScanAllSnoc(open: set<Cell>, cells: set<Cell>, st: ScanState, ps: seq<Cell>, s: Cell)
    ensures ScanAll(open, cells, st, ps + [s]) == ScanAt(open, cells, ScanAll(open, cells, st, ps), s)
  {
    assert (ps + [s])[..|ps|] == ps;
  }

  /** Positions `0 .. n - 1` of row `r`, left to right. */
  function RowCells(r: int, n: nat): (ps: seq<Cell>)
    ensures |ps| == n && forall c :: 0 <= c < n ==> ps[c] == Cell(r, c)
  {
    seq(n, c requires 0 <= c < n => Cell(r, c))
  }

  /** The positions of rows `0 .. r - 1` of `m`, row by row, each row as long as it is. */
  function ScanOrder(m: Matrix, r: nat): seq<Cell>
    requires r <= |m|
  {
    if r == 0 then [] else ScanOrder(m, r - 1) + RowCells(r - 1, |m[r - 1]|)
  }

  /** Scanning `ps` and then `qs` is scanning `ps + qs`. */
  lemma {:induction false} ScanAllAppend(open: set<Cell>, cells: set<Cell>, st: ScanState, ps: seq<Cell>, qs: seq<Cell>)
    ensures ScanAll(open, cells, st, ps + qs) == ScanAll(open, cells, ScanAll(open, cells, st, ps), qs)
    decreases |qs|
  {
    if qs == [] {
      assert ps + qs == ps;
    } else {
      var q := qs[..|qs| - 1];
      ScanAllAppend(open, cells, st, ps, q);
      assert (ps + qs)[..|ps + qs| - 1] == ps + q;
    }
  }

  /** Scanning row `r` after rows `0 .. r - 1` is scanning rows `0 .. r`. */
  lemma ScanNextRow(open: set<Cell>, cells: set<Cell>, m: Matrix, r: nat)
    requires r < |m|
    ensures ScanAll(open, cells, ScanAll(open, cells, ScanState({}, map[], []), ScanOrder(m, r)), RowCells(r, |m[r]|))
      == ScanAll(open, cells, ScanState({}, map[], []), ScanOrder(m, r + 1))
  {
    ScanAllAppend(open, cells, ScanState({}, map[], []), ScanOrder(m, r), RowCells(r, |m[r]|));
  }

  /** The partial grouping `createTileGroups` has built once the cells in `marked`
      have been visited; `owner` names the group of each grouped cell. */
  ghost predicate Grouping(open: set<Cell>, marked: set<Cell>, groups: map<string, seq<Cell>>,
                           order: seq<string>, owner: map<Cell, string>)
  {
    Owned(open, marked, owner) && Members(groups, owner) && Shaped(groups) && Keyed(groups)
    && Rooted(open, groups) && Closed(open, owner) && Ordered(groups, order)
  }

  /** Nothing visited, nothing grouped. */
  lemma GroupingEmpty(open: set<Cell>)
    ensures Grouping(open, {}, map[], [], map[])
  {
  }

  /** `x` is a visited collidable cell. */
  predicate Settled(open: set<Cell>, marked: set<Cell>, x: Cell)
  {
    x in open && x in marked
  }

  /** The grouped cells are exactly the visited collidable ones. */
  ghost predicate Owned(open: set<Cell>, marked: set<Cell>, owner: map<Cell, string>)
  {
    forall x :: x in owner <==> Settled(open, marked, x)
  }

  /** Each grouped cell sits in the group of its owner, and groups hold nothing else. */
  ghost predicate Members(groups: map<string, seq<Cell>>, owner: map<Cell, string>)
  {
    (forall x :: x in owner ==> owner[x] in groups && x in groups[owner[x]])
    && (forall k, x :: k in groups && x in groups[k] ==> x in owner && owner[x] == k)
  }

  /** Every group is non-empty and lists each cell once. */
  ghost predicate Shaped(groups: map<string, seq<Cell>>)
  {
    forall k :: k in groups ==> groups[k] != [] && NoDup(groups[k])
  }

  /** Every group is keyed by `"row_col"` of its seed. */
  ghost predicate Keyed(groups: map<string, seq<Cell>>)
  {
    forall k {:trigger KeyedAt(groups, k)} :: k in groups ==> KeyedAt(groups, k)
  }

  /** The group under `k` is non-empty and `k` is the key of its seed. */
  ghost predicate KeyedAt(groups: map<string, seq<Cell>>, k: string)
    requires k in groups
  {
    groups[k] != [] && k == Key(Seed(groups[k]).row, Seed(groups[k]).col)
  }

  /** Every member of a group is reached from its seed, and none precedes it in scan order. */
  ghost predicate Rooted(open: set<Cell>, groups: map<string, seq<Cell>>)
  {
    forall k, x :: k in groups && x in groups[k] ==>
      ConnectedIn(open, Seed(groups[k]), x) && !Before(x, Seed(groups[k]))
  }

  /** A collidable neighbour of a grouped cell is grouped with it. */
  ghost predicate Closed(open: set<Cell>, owner: map<Cell, string>)
  {
    forall x, y {:trigger Adjacent(x, y)} :: x in owner && y in open && Adjacent(x, y) ==>
      y in owner && owner[y] == owner[x]
  }

  /** The insertion order lists every key once, by seed in scan order. */
  ghost predicate Ordered(groups: map<string, seq<Cell>>, order: seq<string>)
  {
    (forall k :: k in groups <==> k in order)
    && (forall i, j :: 0 <= i < j < |order| ==>
          (order[i] in groups && order[j] in groups && groups[order[i]] != [] && groups[order[j]] != []
           && Before(Seed(groups[order[i]]), Seed(groups[order[j]]))))
  }

  /** Keys listed in seed order are listed once each. */
  lemma OrderedNoDup(groups: map<string, seq<Cell>>, order: seq<string>)
    requires Ordered(groups, order)
    ensures NoDup(order)
  {
    forall i, j | 0 <= i < j < |order| ensures order[i] != order[j] {
      assert order[i] in groups && order[j] in groups && groups[order[i]] != [] && groups[order[j]] != []
        && Before(Seed(groups[order[i]]), Seed(groups[order[j]]));
    }
  }

  /** The key of a fresh seed is not in use yet. */
  lemma FreshKey(open: set<Cell>, marked: set<Cell>, groups: map<string, seq<Cell>>,
                 owner: map<Cell, string>, s: Cell)
    requires Owned(open, marked, owner) && Members(groups, owner) && Keyed(groups) && s !in marked
    ensures Key(s.row, s.col) !in groups
  {
    var key := Key(s.row, s.col);
    if key in groups {
      assert KeyedAt(groups, key);
      var t := Seed(groups[key]);
      SeedSettled(open, marked, groups, owner, key);
      KeyInjective(s.row, s.col, t.row, t.col);
    }
  }

  /** The seed of a group has been visited. */
  lemma SeedSettled(open: set<Cell>, marked: set<Cell>, groups: map<string, seq<Cell>>,
                    owner: map<Cell, string>, k: string)
    requires Owned(open, marked, owner) && Members(groups, owner)
    requires k in groups && groups[k] != []
    ensures Settled(open, marked, Seed(groups[k]))
  {
    assert Seed(groups[k]) in groups[k];
  }

  /** One step of the scan: the visit from an unvisited cell `s`, all of whose
      predecessors in scan order are already visited, keeps the grouping. */
  lemma ScanStep(open: set<Cell>, cells: set<Cell>, s: Cell,
                 m0: set<Cell>, g0: map<string, seq<Cell>>, o0: seq<string>, own0: map<Cell, string>,
                 m1: set<Cell>, added: seq<Cell>)
    requires Grouping(open, m0, g0, o0, own0)
    requires open <= cells && s in cells && s !in m0
    requires forall x :: x in cells && Before(x, s) ==> x in m0
    requires forall k :: k in g0 ==> g0[k] != [] && Before(Seed(g0[k]), s)
    requires Visit(open, cells, s, m0, m1, added)
    ensures Grouping(open, m1, Extend(g0, Key(s.row, s.col), added), ExtendOrder(g0, o0, Key(s.row, s.col), added),
                     own0 + map x | x in added :: Key(s.row, s.col))
  {
    var key := Key(s.row, s.col);
    if added == [] {
      ScanStepNone(open, m0, g0, o0, own0, m1, added);
      assert (own0 + map x | x in added :: key) == own0;
    } else {
      GroupingFreshKey(open, m0, g0, o0, own0, s);
      ExtendFresh(g0, o0, key, added);
      ScanStepSome(open, cells, s, m0, g0, o0, own0, m1, added);
    }
  }

  /** The key of a cell not yet marked names no group so far. */
  lemma GroupingFreshKey(open: set<Cell>, m0: set<Cell>, g0: map<string, seq<Cell>>, o0: seq<string>,
                         own0: map<Cell, string>, s: Cell)
    requires Grouping(open, m0, g0, o0, own0) && s !in m0
    ensures Key(s.row, s.col) !in g0
  {
    FreshKey(open, m0, g0, own0, s);
  }

  /** A non-empty visit under a fresh key adds that key as a new, last group. */
  lemma ExtendFresh(g0: map<string, seq<Cell>>, o0: seq<string>, key: string, added: seq<Cell>)
    requires key !in g0 && added != []
    ensures Extend(g0, key, added) == g0[key := added]
    ensures ExtendOrder(g0, o0, key, added) == o0 + [key]
  {
    assert [] + added == added;
  }

  /** A visit that groups nothing keeps the grouping. */
  lemma ScanStepNone(open: set<Cell>, m0: set<Cell>, g0: map<string, seq<Cell>>, o0: seq<string>,
                     own0: map<Cell, string>, m1: set<Cell>, added: seq<Cell>)
    requires Grouping(open, m0, g0, o0, own0) && added == [] && m0 <= m1
    requires forall x :: x in added <==> NewlyOpen(open, m0, m1, x)
    ensures Grouping(open, m1, g0, o0, own0)
  {
    forall x ensures x in own0 <==> Settled(open, m1, x) {
      assert Settled(open, m1, x) ==> x in m0 || NewlyOpen(open, m0, m1, x);
    }
  }

  /** A visit that groups cells adds them as a new group under the seed's key. */
  lemma ScanStepSome(open: set<Cell>, cells: set<Cell>, s: Cell,
                     m0: set<Cell>, g0: map<string, seq<Cell>>, o0: seq<string>, own0: map<Cell, string>,
                     m1: set<Cell>, added: seq<Cell>)
    requires Grouping(open, m0, g0, o0, own0) && Key(s.row, s.col) !in g0 && added != []
    requires open <= cells && s in cells && s !in m0
    requires forall x :: x in cells && Before(x, s) ==> x in m0
    requires forall k :: k in g0 ==> g0[k] != [] && Before(Seed(g0[k]), s)
    requires Visit(open, cells, s, m0, m1, added)
    ensures Grouping(open, m1, g0[Key(s.row, s.col) := added], o0 + [Key(s.row, s.col)],
                     own0 + map x | x in added :: Key(s.row, s.col))
  {
    var key := Key(s.row, s.col);
    ScanOwned(open, m0, own0, m1, added, key);
    ScanMembers(open, m0, g0, own0, added, key);
    ScanShaped(g0, s, added);
    ScanKeyed(g0, s, added);
    ScanRooted(open, cells, s, m0, g0, added, key);
    ScanClosed(open, cells, m0, own0, m1, added, key);
    ScanOrdered(g0, o0, s, added);
  }

  /** After the visit from `s`, every seed still comes before any cell after `s`. */
  lemma ScanSeeds(g0: map<string, seq<Cell>>, s: Cell, added: seq<Cell>, next: Cell)
    requires forall k :: k in g0 ==> g0[k] != [] && Before(Seed(g0[k]), s)
    requires added != [] ==> Seed(added) == s
    requires Before(s, next)
    ensures forall k :: k in Extend(g0, Key(s.row, s.col), added) ==>
      Extend(g0, Key(s.row, s.col), added)[k] != [] && Before(Seed(Extend(g0, Key(s.row, s.col), added)[k]), next)
  {
  }

  /** Once `s` is visited, everything up to and including `s` in scan order is. */
  lemma ScanCovered(cells: set<Cell>, s: Cell, m0: set<Cell>, m1: set<Cell>)
    requires forall x :: x in cells && Before(x, s) ==> x in m0
    requires m0 <= m1 && (s in cells ==> s in m1)
    ensures forall x :: x in cells && Before(x, Cell(s.row, s.col + 1)) ==> x in m1
  {
    forall x | x in cells && Before(x, Cell(s.row, s.col + 1)) ensures x in m1 {
      if x != s {
        assert Before(x, s);
      }
    }
  }

  lemma ScanOwned(open: set<Cell>, m0: set<Cell>, own0: map<Cell, string>, m1: set<Cell>,
                  added: seq<Cell>, key: string)
    requires Owned(open, m0, own0) && m0 <= m1
    requires forall x :: x in added <==> NewlyOpen(open, m0, m1, x)
    ensures Owned(open, m1, own0 + map x | x in added :: key)
  {
    var own1 := own0 + map x | x in added :: key;
    forall x ensures x in own1 <==> Settled(open, m1, x) {
      assert x in own1 <==> x in own0 || x in added;
      assert Settled(open, m1, x) <==> Settled(open, m0, x) || NewlyOpen(open, m0, m1, x);
    }
  }

  lemma ScanMembers(open: set<Cell>, m0: set<Cell>, g0: map<string, seq<Cell>>, own0: map<Cell, string>,
                    added: seq<Cell>, key: string)
    requires Owned(open, m0, own0) && Members(g0, own0) && key !in g0
    requires forall x :: x in added ==> x !in m0
    ensures Members(g0[key := added], own0 + map x | x in added :: key)
  {
    var own1 := own0 + map x | x in added :: key;
    var g1 := g0[key := added];
    forall x | x in own1 ensures own1[x] in g1 && x in g1[own1[x]] {
      if x !in added {
        assert own0[x] != key;
      }
    }
    forall k, x | k in g1 && x in g1[k] ensures x in own1 && own1[x] == k {
      if k != key {
        assert x in own0 && !Settled(open, m0, x) ==> false;
        assert x !in added;
      }
    }
  }

  lemma ScanShaped(g0: map<string, seq<Cell>>, s: Cell, added: seq<Cell>)
    requires Shaped(g0) && added != [] && NoDup(added)
    ensures Shaped(g0[Key(s.row, s.col) := added])
  {
  }

  lemma ScanKeyed(g0: map<string, seq<Cell>>, s: Cell, added: seq<Cell>)
    requires Keyed(g0) && added != [] && Seed(added) == s
    ensures Keyed(g0[Key(s.row, s.col) := added])
  {
    var g1 := g0[Key(s.row, s.col) := added];
    forall k | k in g1 ensures KeyedAt(g1, k) {
      if k != Key(s.row, s.col) {
        assert KeyedAt(g0, k);
      }
    }
  }

  lemma ScanRooted(open: set<Cell>, cells: set<Cell>, s: Cell, m0: set<Cell>, g0: map<string, seq<Cell>>,
                   added: seq<Cell>, key: string)
    requires Rooted(open, g0) && added != [] && Seed(added) == s
    requires forall x :: x in added ==> x in cells && x !in m0
    requires forall x :: x in cells && Before(x, s) ==> x in m0
    requires forall x {:trigger ConnectedIn(open, s, x)} :: x in added ==> ConnectedIn(open, s, x)
    ensures Rooted(open, g0[key := added])
  {
    var g1 := g0[key := added];
    forall k, x | k in g1 && x in g1[k]
      ensures ConnectedIn(open, Seed(g1[k]), x) && !Before(x, Seed(g1[k]))
    {
      if k == key {
        assert ConnectedIn(open, s, x);
      }
    }
  }

  lemma ScanClosed(open: set<Cell>, cells: set<Cell>, m0: set<Cell>, own0: map<Cell, string>, m1: set<Cell>,
                   added: seq<Cell>, key: string)
    requires open <= cells && Owned(open, m0, own0) && Closed(open, own0)
    requires forall x :: x in added <==> NewlyOpen(open, m0, m1, x)
    requires forall x :: x in added ==> NeighboursIn(x, cells, m1)
    ensures Closed(open, own0 + map x | x in added :: key)
  {
    var own1 := own0 + map x | x in added :: key;
    forall x, y | x in own1 && y in open && Adjacent(x, y)
      ensures y in own1 && own1[y] == own1[x]
    {
      if x in added {
        AdjacentIsNeighbour(x, y);
        assert NeighboursIn(x, cells, m1);
        assert y in m1;
        assert Adjacent(y, x);
        assert y in own0 ==> x in own0;
        assert x in own0 ==> Settled(open, m0, x);
        assert NewlyOpen(open, m0, m1, x);
        assert Settled(open, m0, y) ==> y in own0;
        assert NewlyOpen(open, m0, m1, y);
      } else {
        assert x in own0;
        assert y in own0;
        assert NewlyOpen(open, m0, m1, y) ==> y !in own0 by {
          assert y in own0 ==> Settled(open, m0, y);
        }
      }
    }
  }

  lemma ScanOrdered(g0: map<string, seq<Cell>>, o0: seq<string>, s: Cell, added: seq<Cell>)
    requires Ordered(g0, o0) && Key(s.row, s.col) !in g0 && added != [] && Seed(added) == s
    requires forall k :: k in g0 ==> g0[k] != [] && Before(Seed(g0[k]), s)
    ensures Ordered(g0[Key(s.row, s.col) := added], o0 + [Key(s.row, s.col)])
  {
    var key := Key(s.row, s.col);
    var g1 := g0[key := added];
    var o1 := o0 + [key];
    forall i, j | 0 <= i < j < |o1|
      ensures o1[i] in g1 && o1[j] in g1 && g1[o1[i]] != [] && g1[o1[j]] != []
              && Before(Seed(g1[o1[i]]), Seed(g1[o1[j]]))
    {
      assert o1[i] == o0[i] && o0[i] in g0;
      if j < |o0| {
        assert o1[j] == o0[j];
      }
    }
  }

  /** Walks through collidable cells never leave the group they start in. */
  lemma {:induction false} WalkStaysInGroup(open: set<Cell>, owner: map<Cell, string>, p: seq<Cell>, i: nat)
    requires Closed(open, owner)
    requires IsWalk(open, p) && p[0] in owner && i < |p|
    ensures p[i] in owner && owner[p[i]] == owner[p[0]]
  {
    if i > 0 {
      WalkStaysInGroup(open, owner, p, i - 1);
      assert Step(p, i - 1);
    }
  }

  /** Once every cell has been visited, each group is exactly one 4-connected region of
      collidable cells: two cells share a group if and only if a path joins them. */
  lemma GroupsAreRegions(open: set<Cell>, marked: set<Cell>, groups: map<string, seq<Cell>>,
                         order: seq<string>, owner: map<Cell, string>, k: string, x: Cell, y: Cell)
    requires Grouping(open, marked, groups, order, owner) && open <= marked
    requires k in groups && x in groups[k]
    ensures y in groups[k] <==> y in open && ConnectedIn(open, x, y)
  {
    var s := Seed(groups[k]);
    if y in groups[k] {
      ConnectedSym(open, s, x);
      ConnectedTrans(open, x, s, y);
    }
    if y in open && ConnectedIn(open, x, y) {
      var p :| IsWalk(open, p) && p[0] == x && p[|p| - 1] == y;
      WalkStaysInGroup(open, owner, p, |p| - 1);
    }
  }

  /** Every collidable cell ends up in exactly one group. */
  lemma GroupsPartition(open: set<Cell>, marked: set<Cell>, groups: map<string, seq<Cell>>,
                        order: seq<string>, owner: map<Cell, string>, x: Cell)
    requires Grouping(open, marked, groups, order, owner) && open <= marked
    ensures x in open <==> exists k :: k in groups && x in groups[k]
    ensures forall k, k' :: k in groups && k' in groups && x in groups[k] && x in groups[k'] ==> k == k'
  {
    if x in open {
      assert x in groups[owner[x]];
    }
  }

  /** Two tiles that only touch at a corner are never joined. */
  lemma DiagonalTilesStaySeparate()
    ensures !Connected([[1, 0], [0, 1]], "0", Cell(0, 0), Cell(1, 1))
  {
    var m: Matrix := [[1, 0], [0, 1]];
    var a := Cell(0, 0);
    DefaultIgnoresOnlyZero(0);
    OpenCellsAreOpen(m, "0", Up(a));
    OpenCellsAreOpen(m, "0", Down(a));
    OpenCellsAreOpen(m, "0", Left(a));
    OpenCellsAreOpen(m, "0", Right(a));
    if Connected(m, "0", a, Cell(1, 1)) {
      LeavesThroughNeighbour(OpenCells(m, "0"), a, Cell(1, 1));
    }
  }

  /** The flood fill state of one collider component: the matrix, the ignore list,
      the visited positions and the groups keyed by `"row_col"` of their seed. */
  class TileGrouping {
    const matrix: Matrix
    const ignoredTiles: string
    /** The collidable cells. */
    ghost const open: set<Cell>
    /** The positions the `_visited` table has marked as visited. */
    var visited: set<Cell>
    var groups: map<string, seq<Cell>>
    /** Insertion order of the keys of `groups`. */
    var order: seq<string>

    ghost predicate Valid()
    {
      FillSafe(matrix, ignoredTiles) && open == OpenCells(matrix, ignoredTiles)
    }

    /** The state `createTileGroups` leaves: every position visited and the collidable
        cells partitioned into connected groups keyed by their seed, in scan order, with
        the members of each group in the order the recursive fill appended them. */
    ghost predicate Grouped(owner: map<Cell, string>)
      reads this
    {
      Valid() && visited == Cells() && Grouping(open, visited, groups, order, owner) && open <= visited
      && (forall k :: k in groups <==> k in order) && NoDup(order)
      && ScanState(visited, groups, order) == ScanAll(open, Cells(), ScanState({}, map[], []), ScanOrder(matrix, |matrix|))
    }

    /** The positions the flood fill can visit. */
    ghost function Cells(): set<Cell>
    {
      TileCells(matrix)
    }

    /** `reset` followed by a fresh visited table with one empty row per matrix row:
        nothing visited, no groups. */
    constructor (matrix: Matrix, ignoredTiles: string)
      requires FillSafe(matrix, ignoredTiles)
      ensures Valid()
      ensures this.matrix == matrix && this.ignoredTiles == ignoredTiles
      ensures visited == {} && groups == map[] && order == []
    {
      this.matrix := matrix;
      this.ignoredTiles := ignoredTiles;
      open := OpenCells(matrix, ignoredTiles);
      visited := {};
      groups := map[];
      order := [];
    }

    /** `checkMatrixAtPosition(row, col, key)`: outside the matrix or already visited,
        nothing happens; otherwise the cell is marked, and when its tile is not ignored the
        four neighbours are visited in turn and the cell is appended to the group `key`. */
    method CheckMatrixAtPosition(row: int, col: int, key: string) returns (ghost added: seq<Cell>)
      requires Valid() && !Hole(matrix, Cell(row, col))
      modifies this`visited, this`groups, this`order
      decreases Cells() - visited, 0
      ensures (added, visited) == Fill(open, Cells(), Cell(row, col), old(visited))
      ensures Visit(open, Cells(), Cell(row, col), old(visited), visited, added)
      ensures visited - old(visited) <= Cells()
      ensures !InBounds(matrix, Cell(row, col)) || Cell(row, col) in old(visited) ==>
        visited == old(visited) && added == []
      ensures groups == Extend(old(groups), key, added)
      ensures order == ExtendOrder(old(groups), old(order), key, added)
    {
      var cell := Cell(row, col);
      TileCellsMembership(matrix, cell);
      if row < 0 || col < 0 || row >= |matrix| || col >= |matrix[0]| {
        return [];
      }
      if cell in visited {
        return [];
      }
      ghost var m0 := visited;
      visited := visited + {cell};
      OpenCellsAreOpen(matrix, ignoredTiles, cell);
      if IsIgnored(matrix[row][col], ignoredTiles) {
        return [];
      }
      added := VisitNeighbours(row, col, key, m0);
    }

    /** The rest of `checkMatrixAtPosition` for a collidable cell just marked: visit
        up, down, left and right, then append the cell to the group `key`. */
    method VisitNeighbours(row: int, col: int, key: string, ghost m0: set<Cell>) returns (ghost added: seq<Cell>)
      requires Valid() && Cell(row, col) in open && Cell(row, col) in Cells()
      requires Cell(row, col) !in m0 && visited == m0 + {Cell(row, col)}
      modifies this`visited, this`groups, this`order
      decreases Cells() - visited, 2
      ensures (added, visited) == Fill(open, Cells(), Cell(row, col), m0)
      ensures Visit(open, Cells(), Cell(row, col), m0, visited, added)
      ensures visited - old(visited) <= Cells()
      ensures groups == Extend(old(groups), key, added)
      ensures order == ExtendOrder(old(groups), old(order), key, added)
    {
      var cell := Cell(row, col);
      OpenNeighboursSafe(matrix, ignoredTiles, cell);
      ghost var m1, g0, o0 := visited, groups, order;
      var a1, a2, m2 := VisitPair(Cell(row - 1, col), Cell(row + 1, col), key);
      ghost var m3, g1, o1 := visited, groups, order;
      var a3, a4, m4 := VisitPair(Cell(row, col - 1), Cell(row, col + 1), key);
      ghost var m5, g2, o2 := visited, groups, order;
      AddToGroup(key, cell);
      added := a1 + a2 + a3 + a4 + [cell];
      VisitStep(open, Cells(), row, col, m0, m1, m2, m3, m4, m5, a1, a2, a3, a4);
      FillOpen(open, Cells(), cell, m0, m2, m3, m4, m5, a1, a2, a3, a4);
      Regroup(a1, a2, a3, a4, [cell]);
      ExtendChain(g0, o0, key, a1 + a2, a3 + a4, [cell]);
    }

    /** Two successive `checkMatrixAtPosition` calls of one cell's neighbour visits. */
    method VisitPair(first: Cell, second: Cell, key: string) returns (ghost a1: seq<Cell>, ghost a2: seq<Cell>, ghost mid: set<Cell>)
      requires Valid() && !Hole(matrix, first) && !Hole(matrix, second)
      modifies this`visited, this`groups, this`order
      decreases Cells() - visited, 1
      ensures (a1, mid) == Fill(open, Cells(), first, old(visited))
      ensures (a2, visited) == Fill(open, Cells(), second, mid)
      ensures Visit(open, Cells(), first, old(visited), mid, a1)
      ensures Visit(open, Cells(), second, mid, visited, a2)
      ensures visited - old(visited) <= Cells()
      ensures groups == Extend(old(groups), key, a1 + a2)
      ensures order == ExtendOrder(old(groups), old(order), key, a1 + a2)
    {
      ghost var g0, o0 := groups, order;
      a1 := CheckMatrixAtPosition(first.row, first.col, key);
      mid := visited;
      a2 := CheckMatrixAtPosition(second.row, second.col, key);
      ExtendConcat(g0, o0, key, a1, a2);
    }

    /** Append `cell` to the group `key`, creating the group when it is new. */
    method AddToGroup(key: string, cell: Cell)
      modifies this`groups, this`order
      ensures groups == Extend(old(groups), key, [cell])
      ensures order == ExtendOrder(old(groups), old(order), key, [cell])
    {
      if key in groups {
        groups := groups[key := groups[key] + [cell]];
      } else {
        assert [] + [cell] == [cell];
        groups := groups[key := [cell]];
        order := order + [key];
      }
    }

    /** One position of `createTileGroups`' scan: an unvisited position starts a fill
        keyed `"row_col"`, a visited one is passed over. Everything before the position in
        scan order has been visited and every group seeded before it; afterwards the same
        holds of the next position and the grouping is kept. */
    method ScanPosition(r: nat, c: nat, ghost owner: map<Cell, string>) returns (ghost owner1: map<Cell, string>)
      requires Valid() && r < |matrix| && c < |matrix[r]|
      requires visited <= Cells() && Grouping(open, visited, groups, order, owner) && open <= Cells()
      requires forall x :: x in Cells() && Before(x, Cell(r, c)) ==> x in visited
      requires forall k :: k in groups ==> Before(Seed(groups[k]), Cell(r, c))
      modifies this`visited, this`groups, this`order
      ensures ScanState(visited, groups, order) == ScanAt(open, Cells(), old(ScanState(visited, groups, order)), Cell(r, c))
      ensures visited <= Cells() && Grouping(open, visited, groups, order, owner1)
      ensures forall x :: x in Cells() && Before(x, Cell(r, c + 1)) ==> x in visited
      ensures forall k :: k in groups ==> Before(Seed(groups[k]), Cell(r, c + 1))
    {
      owner1 := owner;
      var s := Cell(r, c);
      TileCellsMembership(matrix, s);
      ghost var m0 := visited;
      if s !in visited {
        ghost var g0, o0 := groups, order;
        ghost var added := CheckMatrixAtPosition(r, c, Key(r, c));
        if s in Cells() {
          ScanStep(open, Cells(), s, m0, g0, o0, owner, visited, added);
          ScanSeeds(g0, s, added, Cell(r, c + 1));
          owner1 := owner + map x | x in added :: Key(r, c);
        }
      }
      ScanCovered(Cells(), s, m0, visited);
    }

    /** `createTileGroups`: scan the matrix row by row and start a flood fill, keyed
        `"row_col"`, from every cell not yet visited. Afterwards every cell is visited,
        every collidable cell is in exactly one group, two cells share a group exactly
        when a 4-connected path of collidable cells joins them, each group is keyed by
        its first cell in scan order and the keys were inserted in scan order. */
    method CreateTileGroups() returns (ghost owner: map<Cell, string>)
      requires Valid() && visited == {} && groups == map[] && order == []
      modifies this`visited, this`groups, this`order
      ensures visited == Cells()
      ensures Grouping(open, visited, groups, order, owner) && open <= visited
      ensures ScanState(visited, groups, order) == ScanAll(open, Cells(), ScanState({}, map[], []), ScanOrder(matrix, |matrix|))
    {
      owner := map[];
      OpenCellsInside(matrix, ignoredTiles);
      GroupingEmpty(open);
      assert ScanOrder(matrix, 0) == [];
      var r := 0;
      while r < |matrix|
        invariant ScannedRows(r, owner)
      {
        owner := ScanRow(r, owner);
        r := r + 1;
      }
      forall x | x in Cells() ensures x in visited {
        TileCellsMembership(matrix, x);
      }
    }

    /** The state after the scan has passed rows `0 .. r - 1`: those rows are visited,
        every group was seeded in one of them, the grouping holds, and the state is the
        scan of their positions. */
    ghost predicate ScannedRows(r: nat, owner: map<Cell, string>)
      reads this
    {
      Valid() && r <= |matrix| && open <= Cells()
      && visited <= Cells() && Grouping(open, visited, groups, order, owner)
      && (forall x :: x in Cells() && x.row < r ==> x in visited)
      && (forall k :: k in groups ==> Seed(groups[k]).row < r)
      && ScanState(visited, groups, order) == ScanAll(open, Cells(), ScanState({}, map[], []), ScanOrder(matrix, r))
    }

    /** One row of `createTileGroups`' scan, left to right over the row's own length. */
    method ScanRow(r: nat, ghost owner: map<Cell, string>) returns (ghost owner1: map<Cell, string>)
      requires r < |matrix| && ScannedRows(r, owner)
      modifies this`visited, this`groups, this`order
      ensures ScanState(visited, groups, order)
        == ScanAll(open, Cells(), old(ScanState(visited, groups, order)), RowCells(r, |matrix[r]|))
      ensures ScannedRows(r + 1, owner1)
    {
      owner1 := owner;
      ghost var st0 := ScanState(visited, groups, order);
      forall x | x in Cells() && Before(x, Cell(r, 0)) ensures x in visited {
        TileCellsMembership(matrix, x);
      }
      var c := 0;
      while c < |matrix[r]|
        invariant 0 <= c <= |matrix[r]|
        invariant visited <= Cells()
        invariant Grouping(open, visited, groups, order, owner1)
        invariant forall x :: x in Cells() && Before(x, Cell(r, c)) ==> x in visited
        invariant forall k :: k in groups ==> Before(Seed(groups[k]), Cell(r, c))
        invariant ScanState(visited, groups, order) == ScanAll(open, Cells(), st0, RowCells(r, c))
      {
        owner1 := ScanPosition(r, c, owner1);
        ScanAllSnoc(open, Cells(), st0, RowCells(r, c), Cell(r, c));
        assert RowCells(r, c) + [Cell(r, c)] == RowCells(r, c + 1);
        c := c + 1;
      }
      forall x | x in Cells() && x.row == r ensures x in visited {
        TileCellsMembership(matrix, x);
        assert Before(x, Cell(r, c));
      }
      ScanNextRow(open, Cells(), matrix, r);
    }
  }
}
