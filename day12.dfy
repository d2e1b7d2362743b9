/** Day 12: garden regions. A flood fill splits the grid of crops into
    regions; each region's fence costs perimeter * area (part 1) and, with
    the bulk discount, sides * area, where sides are counted as corners
    (part 2). The `seen` map that `computeGrid` hands to every call of
    `captureRegion` is the field of class `Farm`. */
module Day12 {
  import opened Wrappers

  type Cell = (int, int)
  type Grid = seq<seq<char>>

  /** Every row as long as the first; the Go code reads the column count
      from row 0 only. */
  predicate Rectangular(g: Grid)
  {
    forall i :: 0 <= i < |g| ==> |g[i]| == |g[0]|
  }

  function Cols(g: Grid): nat
  {
    if |g| == 0 then 0 else |g[0]|
  }

  /** `isWithinBounds`. */
  predicate IsWithinBounds(r: int, c: int, rows: int, cols: int)
  {
    r >= 0 && c >= 0 && r < rows && c < cols
  }

  predicate Inside(g: Grid, p: Cell)
  {
    IsWithinBounds(p.0, p.1, |g|, Cols(g))
  }

  /** The cell is on the grid and holds `crop`. */
  predicate Same(g: Grid, p: Cell, crop: char)
    requires Rectangular(g)
  {
    Inside(g, p) && g[p.0][p.1] == crop
  }

  /** The four orthogonal steps, in the order both loops use. */
  const Directions: seq<Cell> := [(-1, 0), (1, 0), (0, -1), (0, 1)]

  function Add(p: Cell, d: Cell): Cell
  {
    (p.0 + d.0, p.1 + d.1)
  }

  predicate Adjacent(p: Cell, q: Cell)
  {
    (q.0 - p.0, q.1 - p.1) in Directions
  }

  function Ind(b: bool): nat
  {
    if b then 1 else 0
  }

  function Elems(s: seq<Cell>): set<Cell>
  {
    set x | x in s
  }

  predicate Distinct(s: seq<Cell>)
  {
    forall i, j :: 0 <= i < j < |s| ==> s[i] != s[j]
  }

  // ---------------------------------------------------------------------
  // Perimeter.

  /** How many of the first n directions lead to a cell of the same crop. */
  function SameAmong(g: Grid, p: Cell, crop: char, n: nat): (k: nat)
    requires Rectangular(g) && n <= 4
    ensures k <= n
  {
    if n == 0 then 0 else SameAmong(g, p, crop, n - 1) + Ind(Same(g, Add(p, Directions[n - 1]), crop))
  }

  /** The fence pieces around one cell: four, less one per same-crop
      neighbour. */
  function CellPerimeter(g: Grid, p: Cell, crop: char): int
    requires Rectangular(g)
  {
    4 - SameAmong(g, p, crop, 4)
  }

  function Perimeter(g: Grid, area: seq<Cell>, crop: char): int
    requires Rectangular(g)
  {
    if |area| == 0 then 0
    else Perimeter(g, area[..|area| - 1], crop) + CellPerimeter(g, area[|area| - 1], crop)
  }

  /** A region's perimeter is at least 0 and at most four pieces per cell. */
  lemma {:induction false} PerimeterBounds(g: Grid, area: seq<Cell>, crop: char)
    requires Rectangular(g)
    ensures 0 <= Perimeter(g, area, crop) <= 4 * |area|
  {
    if |area| > 0 {
      PerimeterBounds(g, area[..|area| - 1], crop);
    }
  }

  /** `calculatePerimeter`. */
  method CalculatePerimeter(g: Grid, reg: Region) returns (total: int)
    requires Rectangular(g)
    ensures total == Perimeter(g, reg.area, reg.crop)
  {
    total := 0;
    for i := 0 to |reg.area|
      invariant total == Perimeter(g, reg.area[..i], reg.crop)
    {
      var cell := reg.area[i];
      var areaPerimeter := 4;
      for k := 0 to 4
        invariant areaPerimeter == 4 - SameAmong(g, cell, reg.crop, k)
      {
        var n := Add(cell, Directions[k]);
        if 0 <= n.0 < |g| && 0 <= n.1 < Cols(g) && g[n.0][n.1] == reg.crop {
          areaPerimeter := areaPerimeter - 1;
        }
      }
      assert reg.area[..i + 1][..i] == reg.area[..i];
      total := total + areaPerimeter;
    }
    assert reg.area[..|reg.area|] == reg.area;
  }

  // ---------------------------------------------------------------------
  // Corners.

  datatype CornerCheck = CornerCheck(diag: Cell, ortho1: Cell, ortho2: Cell)

  /** The north-west, north-east, south-east and south-west checks of a
      cell: the diagonal and the two orthogonal cells that meet at it. */
  function CornerChecks(p: Cell): seq<CornerCheck>
  {
    var (r, c) := p;
    [CornerCheck((r - 1, c - 1), (r - 1, c), (r, c - 1)),
     CornerCheck((r - 1, c + 1), (r - 1, c), (r, c + 1)),
     CornerCheck((r + 1, c + 1), (r + 1, c), (r, c + 1)),
     CornerCheck((r + 1, c - 1), (r + 1, c), (r, c - 1))]
  }

  /** `exteriorCorner`: neither orthogonal cell is on the grid with the
      region's crop. */
  predicate ExteriorCorner(o1: Cell, o2: Cell, g: Grid, crop: char)
    requires Rectangular(g)
  {
    !Same(g, o1, crop) && !Same(g, o2, crop)
  }

  /** `interiorCorner`: all three cells on the grid, both orthogonal cells
      of the region's crop and the diagonal not. */
  predicate InteriorCorner(o1: Cell, o2: Cell, diag: Cell, g: Grid, crop: char)
    requires Rectangular(g)
  {
    if !Inside(g, o1) || !Inside(g, o2) || !Inside(g, diag) then false
    else g[o1.0][o1.1] == crop && g[o2.0][o2.1] == crop && g[diag.0][diag.1] != crop
  }

  predicate IsCorner(g: Grid, check: CornerCheck, crop: char)
    requires Rectangular(g)
  {
    ExteriorCorner(check.ortho1, check.ortho2, g, crop) ||
    InteriorCorner(check.ortho1, check.ortho2, check.diag, g, crop)
  }

  /** How many of the first n checks of a cell find a corner. */
  function CornersAmong(g: Grid, p: Cell, crop: char, n: nat): (k: nat)
    requires Rectangular(g) && n <= 4
    ensures k <= n
  {
    if n == 0 then 0 else CornersAmong(g, p, crop, n - 1) + Ind(IsCorner(g, CornerChecks(p)[n - 1], crop))
  }

  function Corners(g: Grid, area: seq<Cell>, crop: char): int
    requires Rectangular(g)
  {
    if |area| == 0 then 0
    else Corners(g, area[..|area| - 1], crop) + CornersAmong(g, area[|area| - 1], crop, 4)
  }

  /** The two kinds of corner exclude each other, and an interior corner
      has both orthogonal cells inside the region's crop and the diagonal
      on the grid with another crop. */
  lemma CornerKinds(g: Grid, check: CornerCheck, crop: char)
    requires Rectangular(g)
    ensures !(ExteriorCorner(check.ortho1, check.ortho2, g, crop) &&
              InteriorCorner(check.ortho1, check.ortho2, check.diag, g, crop))
    ensures InteriorCorner(check.ortho1, check.ortho2, check.diag, g, crop) <==>
      Same(g, check.ortho1, crop) && Same(g, check.ortho2, crop) &&
      Inside(g, check.diag) && !Same(g, check.diag, crop)
  {
  }

  /** Every cell contributes between 0 and 4 corners. */
  lemma {:induction false} CornersBounds(g: Grid, area: seq<Cell>, crop: char)
    requires Rectangular(g)
    ensures 0 <= Corners(g, area, crop) <= 4 * |area|
  {
    if |area| > 0 {
      CornersBounds(g, area[..|area| - 1], crop);
    }
  }

  /** A plot with no same-crop neighbour is a region with four fence
      pieces and four corners, so four sides. */
  lemma IsolatedPlot(g: Grid, p: Cell, crop: char)
    requires Rectangular(g)
    requires forall k :: 0 <= k < 4 ==> !Same(g, Add(p, Directions[k]), crop)
    ensures Perimeter(g, [p], crop) == 4
    ensures Corners(g, [p], crop) == 4
  {
    var (r, c) := p;
    assert !Same(g, (r - 1, c), crop) by { assert Add(p, Directions[0]) == (r - 1, c); }
    assert !Same(g, (r + 1, c), crop) by { assert Add(p, Directions[1]) == (r + 1, c); }
    assert !Same(g, (r, c - 1), crop) by { assert Add(p, Directions[2]) == (r, c - 1); }
    assert !Same(g, (r, c + 1), crop) by { assert Add(p, Directions[3]) == (r, c + 1); }
    assert SameAmong(g, p, crop, 1) == 0;
    assert SameAmong(g, p, crop, 2) == 0;
    assert SameAmong(g, p, crop, 3) == 0;
    assert SameAmong(g, p, crop, 4) == 0;
    assert [p][..0] == [];
    var checks := CornerChecks(p);
    assert IsCorner(g, checks[0], crop) && IsCorner(g, checks[1], crop);
    assert IsCorner(g, checks[2], crop) && IsCorner(g, checks[3], crop);
    assert CornersAmong(g, p, crop, 2) == 2;
    assert CornersAmong(g, p, crop, 4) == 4;
  }

  /** `calculateCorners`. */
  method CalculateCorners(g: Grid, reg: Region) returns (corners: int)
    requires Rectangular(g)
    ensures corners == Corners(g, reg.area, reg.crop)
  {
    corners := 0;
    for i := 0 to |reg.area|
      invariant corners == Corners(g, reg.area[..i], reg.crop)
    {
      var cell := reg.area[i];
      var checks := CornerChecks(cell);
      ghost var before := corners;
      for k := 0 to 4
        invariant corners == before + CornersAmong(g, cell, reg.crop, k)
      {
        var check := checks[k];
        var exterior := ExteriorCorner(check.ortho1, check.ortho2, g, reg.crop);
        var interior := InteriorCorner(check.ortho1, check.ortho2, check.diag, g, reg.crop);
        if exterior || interior {
          corners := corners + 1;
        }
      }
      assert reg.area[..i + 1][..i] == reg.area[..i];
    }
    assert reg.area[..|reg.area|] == reg.area;
  }

  // ---------------------------------------------------------------------
  // Flood fill.

  datatype Region = Region(area: seq<Cell>, crop: char, perimeter: int, cost: int, discount: int)

  /** The cells of the grid. */
  function Cells(g: Grid): set<Cell>
  {
    set r, c | 0 <= r < |g| && 0 <= c < Cols(g) :: (r, c)
  }

  lemma CellsHas(g: Grid, p: Cell)
    requires Inside(g, p)
    ensures p in Cells(g)
  {
    var (r, c) := p;
    assert (r, c) in Cells(g);
  }

  /** Every cell after the first holds the crop and is next to an earlier
      cell: the area was grown from its first cell. */
  ghost predicate Grown(g: Grid, crop: char, area: seq<Cell>)
    requires Rectangular(g)
  {
    forall i :: 0 < i < |area| ==>
      Same(g, area[i], crop) && exists j :: 0 <= j < i && Adjacent(area[j], area[i])
  }

  /** Every same-crop neighbour of a cell of the area lies in `within`. */
  ghost predicate Closed(g: Grid, crop: char, area: seq<Cell>, within: set<Cell>)
    requires Rectangular(g)
  {
    forall i, k :: 0 <= i < |area| && 0 <= k < 4 && Same(g, Add(area[i], Directions[k]), crop) ==>
      Add(area[i], Directions[k]) in within
  }

  /** What one call of `captureRegion` achieves: the area lists the cells
      that became seen, each once, starting at the start cell unless that
      was seen before; it was grown from the start through same-crop
      neighbours, and it leaves no same-crop neighbour unseen. */
  ghost predicate Captured(g: Grid, start: Cell, crop: char, before: set<Cell>, after: set<Cell>, area: seq<Cell>)
    requires Rectangular(g)
  {
    after == before + Elems(area) && Distinct(area) && Elems(area) !! before &&
    (start in before ==> area == []) &&
    (start !in before ==> |area| > 0 && area[0] == start) &&
    Grown(g, crop, area) &&
    Closed(g, crop, area, after)
  }

  ghost predicate Reach(g: Grid, crop: char, area: seq<Cell>, q: Cell)
    requires Rectangular(g)
  {
    Same(g, q, crop) && exists j :: 0 <= j < |area| && Adjacent(area[j], q)
  }

  ghost predicate QueueOk(g: Grid, crop: char, area: seq<Cell>, seen: set<Cell>, queue: seq<Cell>)
    requires Rectangular(g)
  {
    forall i :: 0 <= i < |queue| ==> queue[i] in seen || Reach(g, crop, area, queue[i])
  }

  ghost predicate Pending(g: Grid, crop: char, area: seq<Cell>, seen: set<Cell>, queue: seq<Cell>)
    requires Rectangular(g)
  {
    forall i, k :: 0 <= i < |area| && 0 <= k < 4 && Same(g, Add(area[i], Directions[k]), crop) ==>
      Add(area[i], Directions[k]) in seen || Add(area[i], Directions[k]) in queue
  }

  /** The loop invariant of the flood fill. */
  ghost predicate Flood(g: Grid, start: Cell, crop: char, before: set<Cell>, seen: set<Cell>,
                        area: seq<Cell>, queue: seq<Cell>)
    requires Rectangular(g)
  {
    seen == before + Elems(area) && Distinct(area) && Elems(area) !! before &&
    (|area| == 0 ==> queue == [start] || (queue == [] && start in before)) &&
    (|area| > 0 ==> area[0] == start && QueueOk(g, crop, area, seen, queue)) &&
    Grown(g, crop, area) &&
    Pending(g, crop, area, seen, queue)
  }

  lemma CardRemove(u: set<Cell>, seen: set<Cell>, e: Cell)
    requires e in u && e !in seen
    ensures |u - (seen + {e})| < |u - seen|
  {
    assert u - (seen + {e}) == (u - seen) - {e};
  }

  /** Popping a cell that is already seen. */
  lemma FloodSkip(g: Grid, start: Cell, crop: char, before: set<Cell>, seen: set<Cell>,
                  area: seq<Cell>, queue: seq<Cell>)
    requires Rectangular(g)
    requires Flood(g, start, crop, before, seen, area, queue)
    requires |queue| > 0 && queue[0] in seen
    ensures Flood(g, start, crop, before, seen, area, queue[1..])
  {
    forall i, k | 0 <= i < |area| && 0 <= k < 4 && Same(g, Add(area[i], Directions[k]), crop)
      ensures Add(area[i], Directions[k]) in seen || Add(area[i], Directions[k]) in queue[1..]
    {
      var n := Add(area[i], Directions[k]);
      if n !in seen {
        assert n in queue;
        assert n != queue[0];
        assert n in queue[1..];
      }
    }
    if |area| > 0 {
      forall i | 0 <= i < |queue[1..]|
        ensures queue[1..][i] in seen || Reach(g, crop, area, queue[1..][i])
      {
        assert queue[1..][i] == queue[i + 1];
      }
    }
  }

  /** Visiting an unseen cell: it joins the area and is seen; the pushed
      neighbours are the unseen same-crop ones. */
  lemma FloodVisit(g: Grid, start: Cell, crop: char, before: set<Cell>, seen: set<Cell>,
                   area: seq<Cell>, queue: seq<Cell>, pushed: seq<Cell>)
    requires Rectangular(g)
    requires Flood(g, start, crop, before, seen, area, queue)
    requires |queue| > 0 && queue[0] !in seen
    requires Pushed(g, crop, seen, queue[0], pushed)
    ensures |area| == 0 ==> queue[0] == start
    ensures |area| > 0 ==> Reach(g, crop, area, queue[0])
    ensures Flood(g, start, crop, before, seen + {queue[0]}, area + [queue[0]], queue[1..] + pushed)
  {
    var e := queue[0];
    if |area| > 0 {
      assert queue[0] in seen || Reach(g, crop, area, queue[0]);
    }
    VisitDistinct(seen, area, e);
    VisitGrown(g, crop, area, e);
    VisitPending(g, crop, area, seen, queue, pushed);
    if |area| > 0 {
      VisitQueue(g, crop, area, seen, queue, pushed);
    }
  }

  /** The neighbours pushed for cell e: every unseen same-crop neighbour,
      and only same-crop neighbours. */
  ghost predicate Pushed(g: Grid, crop: char, seen: set<Cell>, e: Cell, pushed: seq<Cell>)
    requires Rectangular(g)
  {
    (forall k :: 0 <= k < 4 && Same(g, Add(e, Directions[k]), crop) ==>
      Add(e, Directions[k]) in seen + {e} || Add(e, Directions[k]) in pushed) &&
    (forall i :: 0 <= i < |pushed| ==> Same(g, pushed[i], crop) && Adjacent(e, pushed[i]))
  }

  lemma VisitDistinct(seen: set<Cell>, area: seq<Cell>, e: Cell)
    requires seen == Elems(area) + (seen - Elems(area)) && Distinct(area) && e !in seen
    ensures Distinct(area + [e]) && Elems(area + [e]) == Elems(area) + {e}
  {
    var area' := area + [e];
    assert Elems(area') == Elems(area) + {e};
    forall i, j | 0 <= i < j < |area'|
      ensures area'[i] != area'[j]
    {
      if j == |area| {
        assert area'[i] == area[i];
        assert area[i] in Elems(area);
      }
    }
  }

  lemma VisitGrown(g: Grid, crop: char, area: seq<Cell>, e: Cell)
    requires Rectangular(g)
    requires Grown(g, crop, area)
    requires |area| > 0 ==> Reach(g, crop, area, e)
    ensures Grown(g, crop, area + [e])
  {
    var area' := area + [e];
    forall i | 0 < i < |area'|
      ensures Same(g, area'[i], crop) && exists j :: 0 <= j < i && Adjacent(area'[j], area'[i])
    {
      if i < |area| {
        var j :| 0 <= j < i && Adjacent(area[j], area[i]);
        assert area'[j] == area[j];
      } else {
        var j :| 0 <= j < |area| && Adjacent(area[j], e);
        assert area'[j] == area[j];
      }
    }
  }

  lemma VisitPending(g: Grid, crop: char, area: seq<Cell>, seen: set<Cell>, queue: seq<Cell>, pushed: seq<Cell>)
    requires Rectangular(g)
    requires |queue| > 0
    requires Pending(g, crop, area, seen, queue)
    requires Pushed(g, crop, seen, queue[0], pushed)
    ensures Pending(g, crop, area + [queue[0]], seen + {queue[0]}, queue[1..] + pushed)
  {
    var e := queue[0];
    var area' := area + [e];
    var seen' := seen + {e};
    var queue' := queue[1..] + pushed;
    forall i, k | 0 <= i < |area'| && 0 <= k < 4 && Same(g, Add(area'[i], Directions[k]), crop)
      ensures Add(area'[i], Directions[k]) in seen' || Add(area'[i], Directions[k]) in queue'
    {
      var n := Add(area'[i], Directions[k]);
      if i < |area| {
        assert area'[i] == area[i];
        if n !in seen' {
          assert n in queue;
          assert n != queue[0];
          assert n in queue[1..];
        }
      } else {
        assert area'[i] == e;
        if n !in seen' {
          assert n in pushed;
        }
      }
    }
  }

  lemma VisitQueue(g: Grid, crop: char, area: seq<Cell>, seen: set<Cell>, queue: seq<Cell>, pushed: seq<Cell>)
    requires Rectangular(g)
    requires |queue| > 0 && |area| > 0
    requires QueueOk(g, crop, area, seen, queue)
    requires Pushed(g, crop, seen, queue[0], pushed)
    ensures QueueOk(g, crop, area + [queue[0]], seen + {queue[0]}, queue[1..] + pushed)
  {
    var e := queue[0];
    var area' := area + [e];
    var seen' := seen + {e};
    var queue' := queue[1..] + pushed;
    forall i | 0 <= i < |queue'|
      ensures queue'[i] in seen' || Reach(g, crop, area', queue'[i])
    {
      if i < |queue| - 1 {
        assert queue'[i] == queue[i + 1];
        if queue'[i] !in seen {
          var j :| 0 <= j < |area| && Adjacent(area[j], queue'[i]);
          assert area'[j] == area[j];
        }
      } else {
        var q := pushed[i - (|queue| - 1)];
        assert queue'[i] == q;
        assert area'[|area|] == e;
      }
    }
  }

  /** The empty queue: the invariant gives the capture's contract. */
  lemma FloodDone(g: Grid, start: Cell, crop: char, before: set<Cell>, seen: set<Cell>, area: seq<Cell>)
    requires Rectangular(g)
    requires Flood(g, start, crop, before, seen, area, [])
    ensures Captured(g, start, crop, before, seen, area)
  {
    if |area| > 0 {
      assert area[0] in Elems(area);
    }
  }

  class Farm {
    const grid: Grid
    /** The cells already claimed by a region (`seen` in the Go code,
        which only ever stores true). */
    var seen: set<Cell>

    constructor (g: Grid)
      ensures grid == g && seen == {}
    {
      grid := g;
      seen := {};
    }

    /** `captureRegion`: flood fill from (row, col) over cells holding
        `target`, with a FIFO queue that may hold a cell more than once. */
    method CaptureRegion(row: int, col: int, target: char) returns (reg: Region)
      requires Rectangular(grid)
      modifies this
      ensures reg.crop == target && reg.perimeter == 0 && reg.cost == 0 && reg.discount == 0
      ensures Captured(grid, (row, col), target, old(seen), seen, reg.area)
    {
      ghost var start := (row, col);
      ghost var universe := Cells(grid) + {start};
      var area: seq<Cell> := [];
      var queue: seq<Cell> := [(row, col)];
      while |queue| > 0
        invariant Flood(grid, start, target, old(seen), seen, area, queue)
        decreases |universe - seen|, |queue|
      {
        var element := queue[0];
        if element in seen {
          FloodSkip(grid, start, target, old(seen), seen, area, queue);
          queue := queue[1..];
          continue;
        }
        var pushed := NewNeighbours(element, target);
        FloodVisit(grid, start, target, old(seen), seen, area, queue, pushed);
        if |area| > 0 {
          CellsHas(grid, element);
        }
        CardRemove(universe, seen, element);
        seen := seen + {element};
        area := area + [element];
        queue := queue[1..] + pushed;
      }
      FloodDone(grid, start, target, old(seen), seen, area);
      reg := Region(area, target, 0, 0, 0);
    }

    /** One row of the scan in `computeGrid`: capture a region from every
        cell of row r that is not yet seen. */
    method ScanRow(r: int, regions: seq<Region>) returns (regions': seq<Region>)
      requires Rectangular(grid) && 0 <= r < |grid|
      requires Collected(grid, regions, seen)
      requires Scanned(grid, seen, r, 0)
      modifies this
      ensures Collected(grid, regions', seen)
      ensures Scanned(grid, seen, r + 1, 0)
    {
      regions' := regions;
      for c := 0 to |grid[0]|
        invariant Collected(grid, regions', seen)
        invariant Scanned(grid, seen, r, c)
      {
        ghost var before := seen;
        regions' := ScanCell(r, c, regions');
        ScannedStep(grid, before, seen, r, c);
      }
      ScannedRow(grid, seen, r);
    }

    /** One step of the scan: a region is captured from (r, c) when the
        cell is not yet seen; afterwards it is. */
    method ScanCell(r: int, c: int, regions: seq<Region>) returns (regions': seq<Region>)
      requires Rectangular(grid) && 0 <= r < |grid| && 0 <= c < |grid[0]|
      requires Collected(grid, regions, seen)
      modifies this
      ensures Collected(grid, regions', seen)
      ensures old(seen) <= seen && (r, c) in seen
    {
      regions' := regions;
      if (r, c) !in seen {
        ghost var before := seen;
        var reg := CaptureRegion(r, c, grid[r][c]);
        CollectedAppend(grid, regions', before, seen, (r, c), reg);
        regions' := regions' + [reg];
      }
    }

    /** The inner loop of `captureRegion`: the in-bounds neighbours of
        `element` in the order up, down, left, right that hold `target`
        and are not seen (`element` itself is already marked seen). */
    method NewNeighbours(element: Cell, target: char) returns (pushed: seq<Cell>)
      requires Rectangular(grid)
      ensures Pushed(grid, target, seen, element, pushed)
    {
      pushed := [];
      for k := 0 to 4
        invariant forall i :: 0 <= i < |pushed| ==> Same(grid, pushed[i], target) && Adjacent(element, pushed[i])
        invariant forall k' :: 0 <= k' < k && Same(grid, Add(element, Directions[k']), target) ==>
          Add(element, Directions[k']) in seen + {element} || Add(element, Directions[k']) in pushed
      {
        var n := Add(element, Directions[k]);
        if 0 <= n.0 < |grid| && 0 <= n.1 < Cols(grid) && grid[n.0][n.1] == target && n !in seen + {element} {
          assert (n.0 - element.0, n.1 - element.1) == Directions[k];
          pushed := pushed + [n];
        }
      }
    }
  }

  // ---------------------------------------------------------------------
  // The regions of the whole grid.

  /** The cells of all listed regions. */
  function Covered(regions: seq<Region>): set<Cell>
  {
    if |regions| == 0 then {}
    else Covered(regions[..|regions| - 1]) + Elems(regions[|regions| - 1].area)
  }

  lemma {:induction false} CoveredHas(regions: seq<Region>, p: Cell) returns (k: nat)
    requires p in Covered(regions)
    ensures k < |regions| && p in regions[k].area
  {
    var n := |regions| - 1;
    if p in Elems(regions[n].area) {
      k := n;
    } else {
      k := CoveredHas(regions[..n], p);
      assert regions[..n][k] == regions[k];
    }
  }

  lemma {:induction false} CoveredHolds(regions: seq<Region>, k: nat, p: Cell)
    requires k < |regions| && p in regions[k].area
    ensures p in Covered(regions)
  {
    var n := |regions| - 1;
    if k < n {
      assert regions[..n][k] == regions[k];
      CoveredHolds(regions[..n], k, p);
    }
  }

  /** No region shares a cell with an earlier one. */
  ghost predicate Disjoint(regions: seq<Region>)
  {
    |regions| == 0 ||
    (Disjoint(regions[..|regions| - 1]) && Elems(regions[|regions| - 1].area) !! Covered(regions[..|regions| - 1]))
  }

  lemma {:induction false} DisjointAt(regions: seq<Region>, k: nat)
    requires Disjoint(regions) && k < |regions|
    ensures Elems(regions[k].area) !! Covered(regions[..k])
  {
    var n := |regions| - 1;
    if k < n {
      DisjointAt(regions[..n], k);
      assert regions[..n][..k] == regions[..k];
      assert regions[..n][k] == regions[k];
    }
  }

  /** A region as `captureRegion` returns it when started on an unseen
      cell: non-empty, each cell once, grown from its first cell, whose
      crop it records. */
  ghost predicate RegionOk(g: Grid, reg: Region)
    requires Rectangular(g)
  {
    |reg.area| > 0 && Distinct(reg.area) && Same(g, reg.area[0], reg.crop) && Grown(g, reg.crop, reg.area)
  }

  /** The invariant of the scan in `computeGrid`: `seen` holds exactly the
      cells of the regions so far, which are disjoint, and each region
      leaves no same-crop neighbour outside the regions up to itself. */
  ghost predicate Collected(g: Grid, regions: seq<Region>, seen: set<Cell>)
    requires Rectangular(g)
  {
    seen == Covered(regions) && Disjoint(regions) && AllOk(g, regions) && AllClosed(g, regions)
  }

  ghost predicate AllOk(g: Grid, regions: seq<Region>)
    requires Rectangular(g)
  {
    forall k :: 0 <= k < |regions| ==> RegionOk(g, regions[k])
  }

  /** Each region leaves no same-crop neighbour outside the regions up to
      and including itself. */
  ghost predicate AllClosed(g: Grid, regions: seq<Region>)
    requires Rectangular(g)
  {
    |regions| == 0 ||
    (AllClosed(g, regions[..|regions| - 1]) &&
     Closed(g, regions[|regions| - 1].crop, regions[|regions| - 1].area, Covered(regions)))
  }

  lemma {:induction false} ClosedAt(g: Grid, regions: seq<Region>, k: nat)
    requires Rectangular(g)
    requires AllClosed(g, regions) && k < |regions|
    ensures Closed(g, regions[k].crop, regions[k].area, Covered(regions[..k + 1]))
  {
    var n := |regions| - 1;
    if k < n {
      ClosedAt(g, regions[..n], k);
      assert regions[..n][..k + 1] == regions[..k + 1];
      assert regions[..n][k] == regions[k];
    } else {
      assert regions[..k + 1] == regions;
    }
  }

  lemma CollectedAppend(g: Grid, regions: seq<Region>, seen: set<Cell>, seen': set<Cell>, start: Cell, reg: Region)
    requires Rectangular(g)
    requires Collected(g, regions, seen)
    requires Same(g, start, reg.crop) && start !in seen
    requires Captured(g, start, reg.crop, seen, seen', reg.area)
    ensures Collected(g, regions + [reg], seen')
  {
    var rs := regions + [reg];
    assert rs[..|regions|] == regions;
    AppendDisjoint(regions, reg);
    AppendOk(g, regions, reg);
    AppendClosed(g, regions, reg);
  }

  lemma AppendDisjoint(regions: seq<Region>, reg: Region)
    requires Disjoint(regions) && Elems(reg.area) !! Covered(regions)
    ensures Disjoint(regions + [reg])
  {
    assert (regions + [reg])[..|regions|] == regions;
  }

  lemma AppendOk(g: Grid, regions: seq<Region>, reg: Region)
    requires Rectangular(g)
    requires AllOk(g, regions) && RegionOk(g, reg)
    ensures AllOk(g, regions + [reg])
  {
    var rs := regions + [reg];
    forall k | 0 <= k < |rs|
      ensures RegionOk(g, rs[k])
    {
      if k < |regions| {
        assert rs[k] == regions[k];
      }
    }
  }

  lemma AppendClosed(g: Grid, regions: seq<Region>, reg: Region)
    requires Rectangular(g)
    requires AllClosed(g, regions)
    requires Closed(g, reg.crop, reg.area, Covered(regions) + Elems(reg.area))
    ensures AllClosed(g, regions + [reg])
  {
    assert (regions + [reg])[..|regions|] == regions;
  }

  /** Every cell of a region lies on the grid and holds the region's crop. */
  lemma RegionCells(g: Grid, reg: Region, p: Cell)
    requires Rectangular(g) && RegionOk(g, reg) && p in reg.area
    ensures Same(g, p, reg.crop)
  {
    var i :| 0 <= i < |reg.area| && reg.area[i] == p;
  }

  /** The regions partition the grid: every region cell is on the grid,
      every grid cell lies in some region, no cell lies in two regions,
      and no region lists a cell twice. */
  ghost predicate Partition(g: Grid, regions: seq<Region>)
  {
    (forall k, p :: 0 <= k < |regions| && p in regions[k].area ==> Inside(g, p)) &&
    (forall p :: Inside(g, p) ==> exists k :: 0 <= k < |regions| && p in regions[k].area) &&
    (forall k, l, p :: 0 <= k < |regions| && 0 <= l < |regions| && p in regions[k].area && p in regions[l].area ==> k == l) &&
    (forall k :: 0 <= k < |regions| ==> Distinct(regions[k].area))
  }

  /** Each region is a connected component of its crop: grown from its
      first cell through same-crop neighbours, and holding every same-crop
      neighbour of its cells. */
  ghost predicate Components(g: Grid, regions: seq<Region>)
    requires Rectangular(g)
  {
    forall k :: 0 <= k < |regions| ==>
      RegionOk(g, regions[k]) && Closed(g, regions[k].crop, regions[k].area, Elems(regions[k].area))
  }

  lemma PartitionOf(g: Grid, regions: seq<Region>)
    requires Rectangular(g)
    requires Disjoint(regions) && AllOk(g, regions)
    requires forall p :: Inside(g, p) ==> p in Covered(regions)
    ensures Partition(g, regions)
  {
    forall k, p | 0 <= k < |regions| && p in regions[k].area
      ensures Inside(g, p)
    {
      RegionCells(g, regions[k], p);
    }
    forall p | Inside(g, p)
      ensures exists k :: 0 <= k < |regions| && p in regions[k].area
    {
      var k := CoveredHas(regions, p);
    }
    forall k, l, p | 0 <= k < |regions| && 0 <= l < |regions| && p in regions[k].area && p in regions[l].area
      ensures k == l
    {
      Unique(regions, k, l, p);
    }
  }

  lemma Unique(regions: seq<Region>, k: nat, l: nat, p: Cell)
    requires Disjoint(regions)
    requires k < |regions| && l < |regions| && p in regions[k].area && p in regions[l].area
    ensures k == l
  {
    if k != l {
      var (a, b) := if k < l then (k, l) else (l, k);
      DisjointAt(regions, b);
      assert p in Elems(regions[b].area);
      assert regions[..b][a] == regions[a];
      CoveredHolds(regions[..b], a, p);
    }
  }

  /** The direction opposite direction m: stepping there undoes the step. */
  function Opposite(m: nat): (m': nat)
    requires m < 4
    ensures m' < 4
  {
    if m == 0 then 1 else if m == 1 then 0 else if m == 2 then 3 else 2
  }

  lemma StepBack(p: Cell, m: nat)
    requires m < 4
    ensures Add(Add(p, Directions[m]), Directions[Opposite(m)]) == p
  {
  }

  /** A same-crop neighbour of a region's cell is in that same region: an
      earlier region holding it would have claimed the cell too. */
  lemma ComponentsOf(g: Grid, regions: seq<Region>)
    requires Rectangular(g)
    requires Disjoint(regions) && AllOk(g, regions) && AllClosed(g, regions)
    ensures Components(g, regions)
  {
    forall k, i, m | 0 <= k < |regions| && 0 <= i < |regions[k].area| && 0 <= m < 4 &&
        Same(g, Add(regions[k].area[i], Directions[m]), regions[k].crop)
      ensures Add(regions[k].area[i], Directions[m]) in Elems(regions[k].area)
    {
      NeighbourStays(g, regions, k, i, m);
    }
  }

  lemma NeighbourStays(g: Grid, regions: seq<Region>, k: nat, i: nat, m: nat)
    requires Rectangular(g)
    requires Disjoint(regions) && AllOk(g, regions) && AllClosed(g, regions)
    requires k < |regions| && i < |regions[k].area| && m < 4
    requires Same(g, Add(regions[k].area[i], Directions[m]), regions[k].crop)
    ensures Add(regions[k].area[i], Directions[m]) in Elems(regions[k].area)
  {
    var x := regions[k].area[i];
    var n := Add(x, Directions[m]);
    ClosedAt(g, regions, k);
    var j := CoveredHas(regions[..k + 1], n);
    assert regions[..k + 1][j] == regions[j];
    assert RegionOk(g, regions[j]) && RegionOk(g, regions[k]);
    RegionCells(g, regions[j], n);
    RegionCells(g, regions[k], x);
    ClosedAt(g, regions, j);
    assert regions[j].crop == regions[k].crop;
    assert n in regions[j].area;
    NotEarlier(g, regions, k, j, x, m);
    assert j == k;
    ElemsHas(regions[k].area, n);
  }

  lemma ElemsHas(s: seq<Cell>, p: Cell)
    requires p in s
    ensures p in Elems(s)
  {
  }

  /** The step of `NeighbourStays`: the region j holding the neighbour n
      of cell x of region k is not an earlier one, since being closed it
      would have claimed x as well. */
  lemma NotEarlier(g: Grid, regions: seq<Region>, k: nat, j: nat, x: Cell, m: nat)
    requires Rectangular(g) && Disjoint(regions)
    requires j < |regions| && k < |regions| && m < 4
    requires x in regions[k].area && Same(g, x, regions[j].crop)
    requires Add(x, Directions[m]) in regions[j].area
    requires Closed(g, regions[j].crop, regions[j].area, Covered(regions[..j + 1]))
    ensures k <= j
  {
    var n := Add(x, Directions[m]);
    var i' :| 0 <= i' < |regions[j].area| && regions[j].area[i'] == n;
    var m' := Opposite(m);
    StepBack(x, m);
    assert Same(g, Add(regions[j].area[i'], Directions[m']), regions[j].crop);
    assert x in Covered(regions[..j + 1]);
    var j' := CoveredHas(regions[..j + 1], x);
    assert regions[..j + 1][j'] == regions[j'];
    Unique(regions, j', k, x);
  }

  /** The per-region figures `computeGrid` fills in. */
  ghost predicate Priced(g: Grid, regions: seq<Region>)
    requires Rectangular(g)
  {
    forall k :: 0 <= k < |regions| ==>
      regions[k].perimeter == Perimeter(g, regions[k].area, regions[k].crop) &&
      regions[k].cost == regions[k].perimeter * |regions[k].area| &&
      regions[k].discount == |regions[k].area| * Corners(g, regions[k].area, regions[k].crop)
  }

  /** Areas and crops of two region lists agree. */
  predicate SameShape(a: seq<Region>, b: seq<Region>)
  {
    |a| == |b| && forall k :: 0 <= k < |a| ==> a[k].area == b[k].area && a[k].crop == b[k].crop
  }

  lemma ShapeKeeps(g: Grid, a: seq<Region>, b: seq<Region>)
    requires Rectangular(g)
    requires SameShape(a, b) && Partition(g, a) && Components(g, a)
    ensures Partition(g, b) && Components(g, b)
  {
    forall p | Inside(g, p)
      ensures exists k :: 0 <= k < |b| && p in b[k].area
    {
      var k :| 0 <= k < |a| && p in a[k].area;
    }
    forall k | 0 <= k < |b|
      ensures RegionOk(g, b[k]) && Closed(g, b[k].crop, b[k].area, Elems(b[k].area))
    {
      assert RegionOk(g, a[k]);
    }
  }

  /** Every cell before (r, c) in row-major order is seen. */
  ghost predicate Scanned(g: Grid, seen: set<Cell>, r: int, c: int)
  {
    forall i, j :: 0 <= i < |g| && 0 <= j < Cols(g) && (i < r || (i == r && j < c)) ==> (i, j) in seen
  }

  lemma ScannedStep(g: Grid, before: set<Cell>, seen: set<Cell>, r: int, c: int)
    requires Scanned(g, before, r, c) && before <= seen && (r, c) in seen
    ensures Scanned(g, seen, r, c + 1)
  {
  }

  lemma ScannedRow(g: Grid, seen: set<Cell>, r: int)
    requires Scanned(g, seen, r, Cols(g))
    ensures Scanned(g, seen, r + 1, 0)
  {
  }

  /** `computeGrid`: scan the grid in row-major order, capture a region
      from every cell not yet seen, then fill in each region's perimeter,
      cost and discount. An empty grid is a panic (`input[0]`). */
  method ComputeGrid(input: Grid) returns (res: Option<seq<Region>>)
    requires Rectangular(input)
    ensures res.None? <==> |input| == 0
    ensures res.Some? ==>
      Partition(input, res.value) && Components(input, res.value) && Priced(input, res.value)
  {
    if |input| == 0 {
      return None;
    }
    var farm := new Farm(input);
    var rows := |input|;
    var regions: seq<Region> := [];
    for r := 0 to rows
      invariant Collected(input, regions, farm.seen)
      invariant Scanned(input, farm.seen, r, 0)
    {
      regions := farm.ScanRow(r, regions);
    }
    forall p | Inside(input, p)
      ensures p in Covered(regions)
    {
      assert (p.0, p.1) in farm.seen;
    }
    PartitionOf(input, regions);
    ComponentsOf(input, regions);
    var priced := PriceRegions(input, regions);
    ShapeKeeps(input, regions, priced);
    return Some(priced);
  }

  /** The second loop of `computeGrid`: fill in each region's perimeter,
      cost and discount, in place. */
  method PriceRegions(input: Grid, captured: seq<Region>) returns (regions: seq<Region>)
    requires Rectangular(input)
    ensures SameShape(captured, regions) && Priced(input, regions)
  {
    regions := captured;
    for index := 0 to |regions|
      invariant SameShape(captured, regions)
      invariant Priced(input, regions[..index])
    {
      var perimeter := CalculatePerimeter(input, regions[index]);
      var corners := CalculateCorners(input, regions[index]);
      var reg := regions[index];
      regions := regions[index := reg.(perimeter := perimeter, cost := perimeter * |reg.area|,
                                       discount := |reg.area| * corners)];
      assert regions[..index + 1] == regions[..index] + [regions[index]];
    }
    assert regions[..|regions|] == regions;
  }

  function TotalCost(regions: seq<Region>): int
  {
    if |regions| == 0 then 0 else TotalCost(regions[..|regions| - 1]) + regions[|regions| - 1].cost
  }

  function TotalDiscount(regions: seq<Region>): int
  {
    if |regions| == 0 then 0 else TotalDiscount(regions[..|regions| - 1]) + regions[|regions| - 1].discount
  }

  /** Part 1: the sum of the regions' fence costs. */
  method Part1(regions: seq<Region>) returns (costs: int)
    ensures costs == TotalCost(regions)
  {
    costs := 0;
    for i := 0 to |regions|
      invariant costs == TotalCost(regions[..i])
    {
      assert regions[..i + 1][..i] == regions[..i];
      costs := costs + regions[i].cost;
    }
    assert regions[..|regions|] == regions;
  }

  /** Part 2: the sum of the regions' discounted prices. */
  method Part2(regions: seq<Region>) returns (discount: int)
    ensures discount == TotalDiscount(regions)
  {
    discount := 0;
    for i := 0 to |regions|
      invariant discount == TotalDiscount(regions[..i])
    {
      assert regions[..i + 1][..i] == regions[..i];
      discount := discount + regions[i].discount;
    }
    assert regions[..|regions|] == regions;
  }
}
