/** Day 15: a robot pushes boxes around a walled warehouse. Part 1 pushes
    one-cell boxes along a line; part 2 works on a doubled grid whose boxes
    are two cells wide and can push several boxes when moving vertically. */
module Day15 {
  import opened Wrappers
  import Sorting

  /** The warehouse, one character per cell, row by row. */
  type Grid = seq<seq<char>>

  const Up: char := '^'
  const Down: char := 'v'
  const Left: char := '<'
  const Right: char := '>'
  const RobotCell: char := '@'
  const Edge: char := '#'
  const BoxCell: char := 'O'
  const EmptyCell: char := '.'
  const LeftBox: char := '['
  const RightBox: char := ']'

  /** The `directions` map; a character it lacks reads as the zero move. */
  function Direction(d: char): (int, int)
  {
    if d == Up then (-1, 0)
    else if d == Down then (1, 0)
    else if d == Left then (0, -1)
    else if d == Right then (0, 1)
    else (0, 0)
  }

  predicate InBounds(g: Grid, r: int, c: int)
  {
    0 <= r < |g| && 0 <= c < |g[r]|
  }

  predicate SameShape(a: Grid, b: Grid)
  {
    |a| == |b| && forall i :: 0 <= i < |a| ==> |a[i]| == |b[i]|
  }

  predicate Rectangular(g: Grid)
  {
    forall i :: 0 <= i < |g| ==> |g[i]| == |g[0]|
  }

  /** `grid[r][c] = x`. */
  function Set(g: Grid, r: int, c: int, x: char): (h: Grid)
    requires InBounds(g, r, c)
    ensures SameShape(h, g)
  {
    g[r := g[r][c := x]]
  }

  /** One of the four moves of the `directions` map. */
  predicate IsUnit(dr: int, dc: int)
  {
    (dr == 0 && (dc == 1 || dc == -1)) || (dc == 0 && (dr == 1 || dr == -1))
  }

  /** A move from `directions`, including the zero move. */
  predicate IsMove(dr: int, dc: int)
  {
    IsUnit(dr, dc) || (dr == 0 && dc == 0)
  }

  /** How many steps along (dr, dc) are left before leaving the grid. */
  function Reach(g: Grid, r: int, c: int, dr: int, dc: int): nat
  {
    if dr == 1 then (if r < |g| then |g| - r else 0)
    else if dr == -1 then (if r >= -1 then r + 1 else 0)
    else if dc == 1 then (if 0 <= r < |g| && c < |g[r]| then |g[r]| - c else 0)
    else if dc == -1 then (if c >= -1 then c + 1 else 0)
    else 0
  }

  // ---------------------------------------------------------------------
  // moveItem

  /** `moveItem`: the symbol the chain starting at (r, c) runs into, and
      the grid after the chain has been pushed one step if that symbol is
      empty. None when the chain leaves the grid (an index panic) or when
      the zero move makes the recursion go on for ever. */
  function MoveItemSpec(g: Grid, r: int, c: int, dr: int, dc: int): (res: Option<(char, Grid)>)
    requires IsMove(dr, dc)
    ensures res.Some? ==> InBounds(g, r, c) && SameShape(res.value.1, g)
    ensures res.Some? && res.value.0 == EmptyCell ==> res.value.1[r][c] == EmptyCell
    decreases Reach(g, r, c, dr, dc)
  {
    if !InBounds(g, r, c) then None
    else if g[r][c] == EmptyCell || g[r][c] == Edge then Some((g[r][c], g))
    else if dr == 0 && dc == 0 then None
    else
      match MoveItemSpec(g, r + dr, c + dc, dr, dc)
      case None => None
      case Some((item, h)) =>
        if item == EmptyCell then
          var prev := h[r][c];
          Some((item, Set(Set(h, r, c, EmptyCell), r + dr, c + dc, prev)))
        else Some((item, h))
  }

  /** The number of pushable items in a row from (r, c) along the move. */
  function ChainLen(g: Grid, r: int, c: int, dr: int, dc: int): nat
    requires IsUnit(dr, dc)
    decreases Reach(g, r, c, dr, dc)
  {
    if !InBounds(g, r, c) || g[r][c] == EmptyCell || g[r][c] == Edge then 0
    else 1 + ChainLen(g, r + dr, c + dc, dr, dc)
  }

  /** Position k steps along the move from (r, c). */
  function Along(r: int, c: int, dr: int, dc: int, k: nat): (int, int)
    requires IsUnit(dr, dc)
  {
    if dr == 1 then (r + k, c)
    else if dr == -1 then (r - k, c)
    else if dc == 1 then (r, c + k)
    else (r, c - k)
  }

  /** How far along the move from (r, c) the cell (i, j) lies, or -1 if it
      is not on that ray. */
  function RayIndex(r: int, c: int, dr: int, dc: int, i: int, j: int): int
    requires IsUnit(dr, dc)
  {
    if dr == 1 then (if j == c && i >= r then i - r else -1)
    else if dr == -1 then (if j == c && i <= r then r - i else -1)
    else if dc == 1 then (if i == r && j >= c then j - c else -1)
    else (if i == r && j <= c then c - j else -1)
  }

  /** What cell (i, j) holds after the k items starting at (r, c) have
      been pushed one step along the move: the start becomes empty, each
      later cell of the chain takes its predecessor's symbol, and nothing
      else changes. */
  function PushedCell(g: Grid, r: int, c: int, dr: int, dc: int, k: nat, i: int, j: int): char
    requires IsUnit(dr, dc) && InBounds(g, i, j)
  {
    var t := RayIndex(r, c, dr, dc, i, j);
    if t == 0 then EmptyCell
    else if 1 <= t <= k && InBounds(g, i - dr, j - dc) then g[i - dr][j - dc]
    else g[i][j]
  }

  predicate Pushed(g: Grid, h: Grid, r: int, c: int, dr: int, dc: int, k: nat)
    requires IsUnit(dr, dc)
  {
    && SameShape(h, g)
    && forall i, j :: 0 <= i < |g| && 0 <= j < |g[i]| ==> h[i][j] == PushedCell(g, r, c, dr, dc, k, i, j)
  }

  lemma RayIndexNext(r: int, c: int, dr: int, dc: int, i: int, j: int)
    requires IsUnit(dr, dc)
    ensures var t := RayIndex(r, c, dr, dc, i, j);
      var u := RayIndex(r + dr, c + dc, dr, dc, i, j);
      (t >= 1 ==> u == t - 1) && (t <= 0 ==> u == -1)
  {
  }

  lemma RayIndexAlong(r: int, c: int, dr: int, dc: int, k: nat)
    requires IsUnit(dr, dc)
    ensures var p := Along(r, c, dr, dc, k);
      RayIndex(r, c, dr, dc, p.0, p.1) == k
      && (k >= 1 ==> Along(r + dr, c + dc, dr, dc, k - 1) == p)
  {
  }

  /** `moveItem` on a chain of items that runs off the grid panics. */
  lemma {:induction false} MoveItemOffGrid(g: Grid, r: int, c: int, dr: int, dc: int)
    requires IsUnit(dr, dc)
    requires var e := Along(r, c, dr, dc, ChainLen(g, r, c, dr, dc)); !InBounds(g, e.0, e.1)
    ensures MoveItemSpec(g, r, c, dr, dc).None?
    decreases Reach(g, r, c, dr, dc)
  {
    if InBounds(g, r, c) && g[r][c] != EmptyCell && g[r][c] != Edge {
      var k := ChainLen(g, r, c, dr, dc);
      RayIndexAlong(r, c, dr, dc, k);
      MoveItemOffGrid(g, r + dr, c + dc, dr, dc);
    }
  }

  /** `moveItem` on a chain of items that ends at a wall reports the wall
      and leaves the grid alone; with no items at all it reports the empty
      or wall symbol at (r, c). */
  lemma {:induction false} MoveItemBlocked(g: Grid, r: int, c: int, dr: int, dc: int)
    requires IsUnit(dr, dc)
    requires var e := Along(r, c, dr, dc, ChainLen(g, r, c, dr, dc));
      InBounds(g, e.0, e.1) && (g[e.0][e.1] != EmptyCell || ChainLen(g, r, c, dr, dc) == 0)
    ensures var e := Along(r, c, dr, dc, ChainLen(g, r, c, dr, dc));
      MoveItemSpec(g, r, c, dr, dc) == Some((g[e.0][e.1], g))
    decreases Reach(g, r, c, dr, dc)
  {
    if InBounds(g, r, c) && g[r][c] != EmptyCell && g[r][c] != Edge {
      var k := ChainLen(g, r, c, dr, dc);
      RayIndexAlong(r, c, dr, dc, k);
      MoveItemBlocked(g, r + dr, c + dc, dr, dc);
      assert MoveItemSpec(g, r, c, dr, dc) == MoveItemSpec(g, r + dr, c + dc, dr, dc);
    }
  }

  /** `moveItem` on the k >= 1 items from (r, c) followed by an empty cell:
      every item moves one step along the move and the start becomes
      empty. */
  lemma {:induction false} MoveItemPushes(g: Grid, r: int, c: int, dr: int, dc: int)
    requires IsUnit(dr, dc)
    requires var e := Along(r, c, dr, dc, ChainLen(g, r, c, dr, dc));
      InBounds(g, e.0, e.1) && g[e.0][e.1] == EmptyCell && ChainLen(g, r, c, dr, dc) >= 1
    ensures var res := MoveItemSpec(g, r, c, dr, dc);
      res.Some? && res.value.0 == EmptyCell
      && Pushed(g, res.value.1, r, c, dr, dc, ChainLen(g, r, c, dr, dc))
    decreases Reach(g, r, c, dr, dc)
  {
    var k := ChainLen(g, r, c, dr, dc);
    ChainStep(g, r, c, dr, dc);
    if k == 1 {
      MoveItemBlocked(g, r + dr, c + dc, dr, dc);
    } else {
      MoveItemPushes(g, r + dr, c + dc, dr, dc);
    }
    var h := MoveItemSpec(g, r + dr, c + dc, dr, dc).value.1;
    MoveItemUnfold(g, r, c, dr, dc);
    forall i, j | 0 <= i < |g| && 0 <= j < |g[i]|
      ensures MoveItemSpec(g, r, c, dr, dc).value.1[i][j] == PushedCell(g, r, c, dr, dc, k, i, j)
    {
      PushedStep(g, h, r, c, dr, dc, k, i, j);
    }
  }

  /** The chain from (r, c) is one item longer than the chain after it. */
  lemma ChainStep(g: Grid, r: int, c: int, dr: int, dc: int)
    requires IsUnit(dr, dc) && ChainLen(g, r, c, dr, dc) >= 1
    ensures InBounds(g, r, c) && g[r][c] != EmptyCell && g[r][c] != Edge
    ensures ChainLen(g, r + dr, c + dc, dr, dc) == ChainLen(g, r, c, dr, dc) - 1
    ensures Along(r + dr, c + dc, dr, dc, ChainLen(g, r, c, dr, dc) - 1) == Along(r, c, dr, dc, ChainLen(g, r, c, dr, dc))
  {
    RayIndexAlong(r, c, dr, dc, ChainLen(g, r, c, dr, dc));
  }

  /** One unfolding of `moveItem` on an item in front of an emptied cell. */
  lemma MoveItemUnfold(g: Grid, r: int, c: int, dr: int, dc: int)
    requires IsUnit(dr, dc) && InBounds(g, r, c) && g[r][c] != EmptyCell && g[r][c] != Edge
    requires MoveItemSpec(g, r + dr, c + dc, dr, dc).Some?
    requires MoveItemSpec(g, r + dr, c + dc, dr, dc).value.0 == EmptyCell
    ensures var h := MoveItemSpec(g, r + dr, c + dc, dr, dc).value.1;
      MoveItemSpec(g, r, c, dr, dc) == Some((EmptyCell, Set(Set(h, r, c, EmptyCell), r + dr, c + dc, h[r][c])))
  {
  }

  /** `moveItem` changes no cell off the ray from (r, c) along the move. */
  lemma {:induction false} MoveItemFrame(g: Grid, r: int, c: int, dr: int, dc: int, i: int, j: int)
    requires IsUnit(dr, dc) && InBounds(g, i, j) && RayIndex(r, c, dr, dc, i, j) == -1
    requires MoveItemSpec(g, r, c, dr, dc).Some?
    ensures MoveItemSpec(g, r, c, dr, dc).value.1[i][j] == g[i][j]
    decreases Reach(g, r, c, dr, dc)
  {
    if g[r][c] != EmptyCell && g[r][c] != Edge {
      RayIndexNext(r, c, dr, dc, i, j);
      MoveItemFrame(g, r + dr, c + dc, dr, dc, i, j);
      assert RayIndex(r, c, dr, dc, r + dr, c + dc) == 1;
    }
  }

  /** One cell of the inductive step of `MoveItemPushes`: pushing the item
      at (r, c) into the cell the rest of the chain has just emptied. */
  lemma PushedStep(g: Grid, h: Grid, r: int, c: int, dr: int, dc: int, k: nat, i: int, j: int)
    requires IsUnit(dr, dc) && k >= 1
    requires InBounds(g, r, c) && InBounds(g, r + dr, c + dc)
    requires 0 <= i < |g| && 0 <= j < |g[i]|
    requires SameShape(h, g) && h[r + dr][c + dc] == EmptyCell
    requires if k == 1 then h == g else Pushed(g, h, r + dr, c + dc, dr, dc, k - 1)
    ensures Set(Set(h, r, c, EmptyCell), r + dr, c + dc, h[r][c])[i][j] == PushedCell(g, r, c, dr, dc, k, i, j)
  {
    var t := RayIndex(r, c, dr, dc, i, j);
    RayIndexNext(r, c, dr, dc, i, j);
    RayIndexNext(r, c, dr, dc, r, c);
    if t == 0 {
      assert i == r && j == c;
    } else if t == 1 {
      assert i == r + dr && j == c + dc;
      assert h[r][c] == g[r][c];
    } else {
      assert !(i == r && j == c) && !(i == r + dr && j == c + dc);
    }
  }

  /** How many cells of the grid hold symbol y. */
  function Count(g: Grid, y: char): nat
  {
    if |g| == 0 then 0 else Count(g[..|g| - 1], y) + multiset(g[|g| - 1])[y]
  }

  function Ind(b: bool): nat { if b then 1 else 0 }

  /** Overwriting one cell removes one of its old symbol and adds one of x. */
  lemma {:induction false} CountSet(g: Grid, r: int, c: int, x: char, y: char)
    requires InBounds(g, r, c)
    ensures Count(Set(g, r, c, x), y) + Ind(g[r][c] == y) == Count(g, y) + Ind(x == y)
  {
    var h := Set(g, r, c, x);
    if r < |g| - 1 {
      assert h[..|h| - 1] == Set(g[..|g| - 1], r, c, x);
      assert h[|h| - 1] == g[|g| - 1];
      CountSet(g[..|g| - 1], r, c, x, y);
    } else {
      assert h[..|h| - 1] == g[..|g| - 1];
      assert multiset(h[r])[y] + Ind(g[r][c] == y) == multiset(g[r])[y] + Ind(x == y);
    }
  }

  /** Swapping an item into an empty cell keeps every count. */
  lemma SwapIntoEmpty(h: Grid, r: int, c: int, r2: int, c2: int, y: char)
    requires InBounds(h, r, c) && InBounds(h, r2, c2) && (r, c) != (r2, c2)
    requires h[r2][c2] == EmptyCell
    ensures Count(Set(Set(h, r, c, EmptyCell), r2, c2, h[r][c]), y) == Count(h, y)
  {
    var h1 := Set(h, r, c, EmptyCell);
    CountSet(h, r, c, EmptyCell, y);
    CountSet(h1, r2, c2, h[r][c], y);
    assert h1[r2][c2] == EmptyCell;
  }

  /** `moveItem` only moves symbols around: every symbol keeps its count. */
  lemma {:induction false} MoveItemCounts(g: Grid, r: int, c: int, dr: int, dc: int)
    requires IsMove(dr, dc)
    ensures var res := MoveItemSpec(g, r, c, dr, dc);
      res.Some? ==> forall y :: Count(res.value.1, y) == Count(g, y)
    decreases Reach(g, r, c, dr, dc)
  {
    if InBounds(g, r, c) && g[r][c] != EmptyCell && g[r][c] != Edge && (dr != 0 || dc != 0) {
      MoveItemCounts(g, r + dr, c + dc, dr, dc);
      var res := MoveItemSpec(g, r + dr, c + dc, dr, dc);
      if res.Some? && res.value.0 == EmptyCell {
        forall y {
          SwapIntoEmpty(res.value.1, r, c, r + dr, c + dc, y);
        }
      }
    }
  }

  // ---------------------------------------------------------------------
  // part 1

  /** One step of the `part1` loop from robot position pos: None when the
      program would panic or recurse for ever. */
  function Step(g: Grid, pos: (int, int), d: char): (res: Option<(Grid, (int, int))>)
    ensures res.Some? ==> SameShape(res.value.0, g)
  {
    var (dr, dc) := Direction(d);
    var next := (pos.0 + dr, pos.1 + dc);
    match MoveItemSpec(g, next.0, next.1, dr, dc)
    case None => None
    case Some((item, h)) =>
      if item != EmptyCell then Some((h, pos))
      else if !InBounds(h, pos.0, pos.1) then None
      else Some((Set(Set(h, pos.0, pos.1, EmptyCell), next.0, next.1, RobotCell), next))
  }

  /** The `part1` loop over the remaining directions. */
  function Walk(g: Grid, pos: (int, int), dirs: string): (res: Option<Grid>)
    ensures res.Some? ==> SameShape(res.value, g)
    decreases |dirs|
  {
    if |dirs| == 0 then Some(g)
    else
      match Step(g, pos, dirs[0])
      case None => None
      case Some((h, p)) => Walk(h, p, dirs[1..])
  }

  /** A step leaves the robot where it stands unless `moveItem` reports an
      empty cell, keeps the robot on its cell, and keeps the count of every
      symbol; in particular a grid with exactly one robot still has one. */
  lemma StepKeepsRobot(g: Grid, pos: (int, int), d: char)
    requires InBounds(g, pos.0, pos.1) && g[pos.0][pos.1] == RobotCell
    requires Step(g, pos, d).Some?
    ensures var (h, p) := Step(g, pos, d).value;
      var (dr, dc) := Direction(d);
      var res := MoveItemSpec(g, pos.0 + dr, pos.1 + dc, dr, dc);
      && (p != pos ==> res.value.0 == EmptyCell && p == (pos.0 + dr, pos.1 + dc))
      && InBounds(h, p.0, p.1) && h[p.0][p.1] == RobotCell
      && forall y :: Count(h, y) == Count(g, y)
  {
    var (dr, dc) := Direction(d);
    var next := (pos.0 + dr, pos.1 + dc);
    var res := MoveItemSpec(g, next.0, next.1, dr, dc);
    assert IsUnit(dr, dc);
    var h := res.value.1;
    RayIndexNext(pos.0, pos.1, dr, dc, pos.0, pos.1);
    MoveItemFrame(g, next.0, next.1, dr, dc, pos.0, pos.1);
    StepCounts(g, pos, next, dr, dc);
  }

  /** The counts half of `StepKeepsRobot`, on the result of `moveItem`. */
  lemma StepCounts(g: Grid, pos: (int, int), next: (int, int), dr: int, dc: int)
    requires IsUnit(dr, dc) && next == (pos.0 + dr, pos.1 + dc)
    requires MoveItemSpec(g, next.0, next.1, dr, dc).Some?
    requires var h := MoveItemSpec(g, next.0, next.1, dr, dc).value.1;
      InBounds(h, pos.0, pos.1)
    ensures var (item, h) := MoveItemSpec(g, next.0, next.1, dr, dc).value;
      && (forall y :: Count(h, y) == Count(g, y))
      && (item == EmptyCell ==> forall y ::
            Count(Set(Set(h, pos.0, pos.1, EmptyCell), next.0, next.1, h[pos.0][pos.1]), y) == Count(g, y))
  {
    var (item, h) := MoveItemSpec(g, next.0, next.1, dr, dc).value;
    MoveItemCounts(g, next.0, next.1, dr, dc);
    if item == EmptyCell {
      forall y {
        SwapIntoEmpty(h, pos.0, pos.1, next.0, next.1, y);
      }
    }
  }

  /** The body of `calculateGPS` for row r from column c on. */
  function RowGPS(g: Grid, r: int, c: int, width: int): int
    requires 0 <= r < |g| && width <= |g[r]|
    decreases width - c
  {
    if c >= width - 1 || c < 1 then 0
    else (if g[r][c] == BoxCell || g[r][c] == LeftBox then 100 * r + c else 0) + RowGPS(g, r, c + 1, width)
  }

  /** `calculateGPS` from row r on: 100*r + c over the interior cells that
      hold a box or the left half of a wide box. */
  function GPS(g: Grid, r: int): int
    requires Rectangular(g)
    decreases |g| - r
  {
    if r >= |g| - 1 || r < 1 then 0 else RowGPS(g, r, 1, |g[0]|) + GPS(g, r + 1)
  }

  /** The weight a single cell adds to the GPS sum. */
  function Weight(g: Grid, r: int, c: int): int
    requires InBounds(g, r, c) && Rectangular(g)
  {
    if 1 <= r < |g| - 1 && 1 <= c < |g[0]| - 1 && (g[r][c] == BoxCell || g[r][c] == LeftBox)
    then 100 * r + c else 0
  }

  lemma {:induction false} RowGPSSet(g: Grid, r: int, c: int, width: int, col: int, x: char)
    requires 0 <= r < |g| && width <= |g[r]| && 0 <= col < |g[r]|
    ensures var h := Set(g, r, col, x);
      RowGPS(h, r, c, width) == RowGPS(g, r, c, width)
        - (if 1 <= c <= col < width - 1 && (g[r][col] == BoxCell || g[r][col] == LeftBox) then 100 * r + col else 0)
        + (if 1 <= c <= col < width - 1 && (x == BoxCell || x == LeftBox) then 100 * r + col else 0)
    decreases width - c
  {
    if 1 <= c < width - 1 {
      RowGPSSet(g, r, c + 1, width, col, x);
    }
  }

  lemma {:induction false} RowGPSOther(g: Grid, h: Grid, r: int, c: int, width: int)
    requires 0 <= r < |g| && r < |h| && g[r] == h[r] && width <= |g[r]|
    ensures RowGPS(h, r, c, width) == RowGPS(g, r, c, width)
    decreases width - c
  {
    if 1 <= c < width - 1 {
      RowGPSOther(g, h, r, c + 1, width);
    }
  }

  /** Writing one cell changes the GPS sum by exactly that cell's weight. */
  lemma {:induction false} GPSSet(g: Grid, r: int, row: int, col: int, x: char)
    requires Rectangular(g) && InBounds(g, row, col) && r >= 1
    ensures Rectangular(Set(g, row, col, x))
    ensures GPS(Set(g, row, col, x), r) == GPS(g, r) - (if row >= r then Weight(g, row, col) else 0)
      + (if row >= r then Weight(Set(g, row, col, x), row, col) else 0)
    decreases |g| - r
  {
    var h := Set(g, row, col, x);
    SameShapeRectangular(g, h);
    if 1 <= r < |g| - 1 {
      GPSSet(g, r + 1, row, col, x);
      if r == row {
        RowGPSSet(g, r, 1, |g[0]|, col, x);
      } else {
        RowGPSOther(g, h, r, 1, |g[0]|);
      }
    }
  }

  // ---------------------------------------------------------------------
  // doubleGrid

  /** One row of `doubleGrid`. */
  function DoubleRow(row: seq<char>): seq<char>
  {
    if |row| == 0 then []
    else
      var x := row[|row| - 1];
      DoubleRow(row[..|row| - 1]) +
        (if x == BoxCell then [LeftBox, RightBox]
         else if x == RobotCell then [RobotCell, EmptyCell]
         else [x, x])
  }

  /** Each cell becomes two: a box becomes "[" "]", the robot "@" ".", and
      any other symbol is repeated. */
  lemma {:induction false} DoubleRowCells(row: seq<char>)
    ensures |DoubleRow(row)| == 2 * |row|
    ensures forall c :: 0 <= c < |row| ==>
      (row[c] == BoxCell ==> DoubleRow(row)[2 * c] == LeftBox && DoubleRow(row)[2 * c + 1] == RightBox)
      && (row[c] == RobotCell ==> DoubleRow(row)[2 * c] == RobotCell && DoubleRow(row)[2 * c + 1] == EmptyCell)
      && (row[c] != BoxCell && row[c] != RobotCell ==> DoubleRow(row)[2 * c] == row[c] && DoubleRow(row)[2 * c + 1] == row[c])
  {
    if |row| > 0 {
      var init := row[..|row| - 1];
      DoubleRowCells(init);
      forall c | 0 <= c < |init|
        ensures row[c] == init[c]
      {
      }
    }
  }

  /** `doubleGrid`. */
  method DoubleGrid(grid: Grid) returns (toReturn: Grid)
    requires Rectangular(grid)
    ensures |toReturn| == |grid|
    ensures forall r :: 0 <= r < |grid| ==> toReturn[r] == DoubleRow(grid[r])
  {
    toReturn := [];
    var r := 0;
    while r < |grid|
      invariant 0 <= r <= |grid| && |toReturn| == r
      invariant forall i :: 0 <= i < r ==> toReturn[i] == DoubleRow(grid[i])
    {
      var row: seq<char> := [];
      var c := 0;
      while c < |grid[0]|
        invariant 0 <= c <= |grid[0]| && |grid[r]| == |grid[0]|
        invariant row == DoubleRow(grid[r][..c])
      {
        assert grid[r][..c + 1][..c] == grid[r][..c];
        if grid[r][c] == BoxCell {
          row := row + [LeftBox];
          row := row + [RightBox];
        } else if grid[r][c] == RobotCell {
          row := row + [RobotCell];
          row := row + [EmptyCell];
        } else {
          row := row + [grid[r][c], grid[r][c]];
        }
        c := c + 1;
      }
      assert grid[r][..|grid[0]|] == grid[r];
      toReturn := toReturn + [row];
      r := r + 1;
    }
  }

  // ---------------------------------------------------------------------
  // The warehouse the solvers mutate.

  class Warehouse {
    var grid: Grid

    constructor (g: Grid)
      ensures grid == g
    {
      grid := g;
    }

    /** `moveItem`. */
    method MoveItem(r: int, c: int, dr: int, dc: int) returns (item: Option<char>)
      requires IsMove(dr, dc)
      modifies this
      ensures var res := MoveItemSpec(old(grid), r, c, dr, dc);
        && (res.None? ==> item.None? && grid == old(grid))
        && (res.Some? ==> item == Some(res.value.0) && grid == res.value.1)
      decreases Reach(grid, r, c, dr, dc)
    {
      if !(0 <= r < |grid| && 0 <= c < |grid[r]|) {
        return None;
      }
      if grid[r][c] == EmptyCell || grid[r][c] == Edge {
        return Some(grid[r][c]);
      }
      if dr == 0 && dc == 0 {
        return None;
      }
      var dx, dy := r + dr, c + dc;
      item := MoveItem(dx, dy, dr, dc);
      if item == Some(EmptyCell) {
        var prev := grid[r][c];
        grid := Set(grid, r, c, EmptyCell);
        grid := Set(grid, dx, dy, prev);
      }
    }

    /** `findRobot`: the first interior robot cell in row-major order, or
        (-1, -1). */
    method FindRobot() returns (pos: (int, int))
      ensures pos == (-1, -1) ==>
        forall r, c :: 1 <= r < |grid| - 1 && 1 <= c < |grid[r]| - 1 ==> grid[r][c] != RobotCell
      ensures pos != (-1, -1) ==>
        && 1 <= pos.0 < |grid| - 1 && 1 <= pos.1 < |grid[pos.0]| - 1
        && grid[pos.0][pos.1] == RobotCell
        && (forall r, c :: 1 <= r < pos.0 && 1 <= c < |grid[r]| - 1 ==> grid[r][c] != RobotCell)
        && (forall c :: 1 <= c < pos.1 ==> grid[pos.0][c] != RobotCell)
    {
      var r := 1;
      while r < |grid| - 1
        invariant 1 <= r
        invariant forall i, c :: 1 <= i < r && i < |grid| - 1 && 1 <= c < |grid[i]| - 1 ==> grid[i][c] != RobotCell
      {
        var c := 1;
        while c < |grid[r]| - 1
          invariant 1 <= c
          invariant forall j :: 1 <= j < c && j < |grid[r]| - 1 ==> grid[r][j] != RobotCell
        {
          if grid[r][c] == RobotCell {
            return (r, c);
          }
          c := c + 1;
        }
        r := r + 1;
      }
      return (-1, -1);
    }

    /** `calculateGPS`. */
    method CalculateGPS() returns (toReturn: int)
      requires Rectangular(grid)
      ensures toReturn == GPS(grid, 1)
    {
      toReturn := 0;
      var r := 1;
      while r < |grid| - 1
        invariant 1 <= r
        invariant toReturn + GPS(grid, r) == GPS(grid, 1)
      {
        var c := 1;
        var rowSum := 0;
        while c < |grid[0]| - 1
          invariant 1 <= c
          invariant rowSum + RowGPS(grid, r, c, |grid[0]|) == RowGPS(grid, r, 1, |grid[0]|)
        {
          if grid[r][c] == BoxCell || grid[r][c] == LeftBox {
            rowSum := rowSum + (100 * r) + c;
          }
          c := c + 1;
        }
        toReturn := toReturn + rowSum;
        r := r + 1;
      }
    }

    /** One iteration of the `part1` loop; None when the program would
        panic or recurse for ever. */
    method StepRobot(robotPosition: (int, int), dir: char) returns (next: Option<(int, int)>)
      modifies this
      ensures var s := Step(old(grid), robotPosition, dir);
        && (s.None? ==> next.None?)
        && (s.Some? ==> next == Some(s.value.1) && grid == s.value.0)
    {
      var move := Direction(dir);
      var item := MoveItem(robotPosition.0 + move.0, robotPosition.1 + move.1, move.0, move.1);
      if item.None? {
        return None;
      }
      if item.value != EmptyCell {
        return Some(robotPosition);
      }
      if !(0 <= robotPosition.0 < |grid| && 0 <= robotPosition.1 < |grid[robotPosition.0]|) {
        return None;
      }
      grid := Set(grid, robotPosition.0, robotPosition.1, EmptyCell);
      var moved := (robotPosition.0 + move.0, robotPosition.1 + move.1);
      grid := Set(grid, moved.0, moved.1, RobotCell);
      return Some(moved);
    }

    /** `findConnectedBoxes`: a breadth-first search for every box the box
        at start pushes along the move. None when a cell it reads is off
        the grid (an index panic). */
    method FindConnectedBoxes(start: (int, int), dr: int, dc: int) returns (res: Option<seq<Box>>)
      ensures res.None? <==> Stuck(grid, start, dr, dc)
      ensures res.Some? ==> Connected(grid, start, res.value, dr, dc)
    {
      if !(0 <= start.0 < |grid| && 0 <= start.1 < |grid[start.0]|) {
        return None;
      }
      var boxes: seq<Box> := [];
      var visited: set<Box> := {};
      var initialBox := InitialBox(grid, start);
      var queue := [initialBox];
      ghost var universe := Universe(grid);
      InUniverse(grid, start.0, initialBox.leftSide.1);
      SearchInit(grid, initialBox, dr, dc);
      while |queue| > 0
        invariant Search(grid, initialBox, boxes, visited, queue, dr, dc)
        decreases |universe - visited|, |queue|
      {
        var current := queue[0];
        if current in visited {
          SearchSkip(grid, initialBox, boxes, visited, queue, dr, dc);
          queue := queue[1..];
          continue;
        }
        if !Probed(grid, current, dr, dc) {
          SearchStuck(grid, start, boxes, visited, queue, dr, dc);
          return None;
        }
        SearchVisit(grid, initialBox, boxes, visited, queue, dr, dc);
        CardRemove(universe, visited, current);
        queue := queue[1..];
        visited := visited + {current};
        boxes := boxes + [current];
        queue := queue + Neighbours(grid, current, dr, dc);
      }
      SearchDone(grid, start, boxes, visited, dr, dc);
      ConnectedNotStuck(grid, start, boxes, dr, dc);
      return Some(boxes);
    }

    /** The inner step of `moveVerticalBoxes` on the simulated grid: refuse
        unless both cells in front of the box are empty, else push its left
        and then its right cell. None when the program would panic. */
    method PushBox(box: Box, dr: int, dc: int) returns (moved: Option<bool>)
      requires IsMove(dr, dc)
      modifies this
      ensures var out := Simulate(old(grid), [box], dr, dc);
        && (moved.None? ==> out.Panic?)
        && (moved == Some(false) ==> out.Blocked?)
        && (moved == Some(true) ==> out == Moved(grid))
    {
      var left, right := box.leftSide, box.rightSide;
      var l := (left.0 + dr, left.1 + dc);
      var r := (right.0 + dr, right.1 + dc);
      if !(0 <= l.0 < |grid| && 0 <= l.1 < |grid[l.0]|) {
        return None;
      }
      if grid[l.0][l.1] != EmptyCell {
        return Some(false);
      }
      if !(0 <= r.0 < |grid| && 0 <= r.1 < |grid[r.0]|) {
        return None;
      }
      if grid[r.0][r.1] != EmptyCell {
        return Some(false);
      }
      var item := MoveItem(left.0, left.1, dr, dc);
      if item.None? {
        return None;
      }
      item := MoveItem(right.0, right.1, dr, dc);
      if item.None? {
        return None;
      }
      return Some(true);
    }

    /** The outer loop of `moveVerticalBoxes`, over the sorted rows, on
        the simulated grid. */
    method MoveRows(bs: seq<Box>, keys: seq<int>, rows: map<int, seq<Box>>, dr: int, dc: int) returns (moved: Option<bool>)
      requires IsMove(dr, dc)
      requires forall k :: k in keys ==> k in rows && rows[k] == RowBoxes(bs, k)
      modifies this
      ensures var out := Simulate(old(grid), Schedule(bs, keys), dr, dc);
        && (moved.None? ==> out.Panic?)
        && (moved == Some(false) ==> out.Blocked?)
        && (moved == Some(true) ==> out == Moved(grid))
    {
      for ki := 0 to |keys|
        invariant Simulate(old(grid), Schedule(bs, keys), dr, dc) == Simulate(grid, Schedule(bs, keys[ki..]), dr, dc)
      {
        var rowBoxes := rows[keys[ki]];
        assert Schedule(bs, keys[ki..]) == rowBoxes + Schedule(bs, keys[ki + 1..]);
        SimulateAppend(grid, rowBoxes, Schedule(bs, keys[ki + 1..]), dr, dc);
        moved := MoveRow(rowBoxes, dr, dc);
        if moved != Some(true) {
          return;
        }
      }
      assert keys[|keys|..] == [];
      return Some(true);
    }

    /** The inner loop of `moveVerticalBoxes`, over the boxes of one row. */
    method MoveRow(rowBoxes: seq<Box>, dr: int, dc: int) returns (moved: Option<bool>)
      requires IsMove(dr, dc)
      modifies this
      ensures var out := Simulate(old(grid), rowBoxes, dr, dc);
        && (moved.None? ==> out.Panic?)
        && (moved == Some(false) ==> out.Blocked?)
        && (moved == Some(true) ==> out == Moved(grid))
    {
      for j := 0 to |rowBoxes|
        invariant Simulate(old(grid), rowBoxes, dr, dc) == Simulate(grid, rowBoxes[j..], dr, dc)
      {
        assert rowBoxes[j..] == [rowBoxes[j]] + rowBoxes[j + 1..];
        SimulateAppend(grid, [rowBoxes[j]], rowBoxes[j + 1..], dr, dc);
        moved := PushBox(rowBoxes[j], dr, dc);
        if moved != Some(true) {
          return;
        }
      }
      return Some(true);
    }

    /** `moveVerticalBoxes`: find the boxes connected to the one at pos,
        group them by row, sort the rows so the far end moves first, move
        them one by one on a copy of the grid and copy the result back only
        if every box could move. None when the program would panic. */
    method MoveVerticalBoxes(pos: (int, int), dr: int, dc: int, dir: char) returns (res: Option<bool>, ghost boxes: seq<Box>)
      requires IsMove(dr, dc)
      modifies this
      ensures res.Some? ==> Connected(old(grid), pos, boxes, dr, dc)
      ensures res != Some(true) ==> grid == old(grid)
      ensures var out := Simulate(old(grid), Schedule(boxes, SortKeys(Keys(boxes), dir == Up)), dr, dc);
        && (res.None? <==> Stuck(old(grid), pos, dr, dc) || out.Panic?)
        && (res == Some(false) ==> out.Blocked?)
        && (res == Some(true) ==> out == Moved(grid))
    {
      var found := FindConnectedBoxes(pos, dr, dc);
      if found.None? {
        return None, [];
      }
      var connected := found.value;
      boxes := connected;
      var rows, keys := GroupRows(connected);
      keys := SortKeys(keys, dir == Up);
      SortKeysMembers(Keys(connected), dir == Up);
      var simulated := new Warehouse(grid);
      var moved := simulated.MoveRows(connected, keys, rows, dr, dc);
      if moved.None? {
        return None, connected;
      }
      if !moved.value {
        return Some(false), connected;
      }
      grid := simulated.grid;
      return Some(true), boxes;
    }

    /** `part1`: walk the robot through the directions, then sum the GPS
        coordinates. None when the program would panic or recurse for ever. */
    method Part1(robotDirections: string) returns (gps: Option<int>)
      requires Rectangular(grid)
      modifies this
      ensures Walk(old(grid), FindRobotSpec(old(grid)), robotDirections).None? ==> gps.None?
      ensures Walk(old(grid), FindRobotSpec(old(grid)), robotDirections).Some? ==>
        && grid == Walk(old(grid), FindRobotSpec(old(grid)), robotDirections).value
        && Rectangular(grid)
        && gps == Some(GPS(grid, 1))
    {
      var robotPosition := FindRobot();
      FindRobotIsSpec(grid, robotPosition);
      var i := 0;
      while i < |robotDirections|
        invariant 0 <= i <= |robotDirections|
        invariant SameShape(grid, old(grid))
        invariant Walk(grid, robotPosition, robotDirections[i..])
          == Walk(old(grid), FindRobotSpec(old(grid)), robotDirections)
      {
        assert robotDirections[i..][1..] == robotDirections[i + 1..];
        var next := StepRobot(robotPosition, robotDirections[i]);
        if next.None? {
          return None;
        }
        robotPosition := next.value;
        i := i + 1;
      }
      assert robotDirections[i..] == [];
      SameShapeRectangular(old(grid), grid);
      var sum := CalculateGPS();
      return Some(sum);
    }
  }

  /** What `findRobot` returns, as a function of the grid. */
  function FindRobotSpec(g: Grid): (int, int)
  {
    FindRobotFrom(g, 1, 1)
  }

  function FindRobotFrom(g: Grid, r: int, c: int): (int, int)
    decreases |g| - r, (if 0 <= r < |g| then |g[r]| else 0) - c
  {
    if r < 1 || r >= |g| - 1 then (-1, -1)
    else if c < 1 || c >= |g[r]| - 1 then FindRobotFrom(g, r + 1, 1)
    else if g[r][c] == RobotCell then (r, c)
    else FindRobotFrom(g, r, c + 1)
  }

  lemma {:induction false} FindRobotFromFirst(g: Grid, r: int, c: int)
    requires 1 <= r && 1 <= c
    ensures var p := FindRobotFrom(g, r, c);
      && (p == (-1, -1) ==>
            (r < |g| - 1 ==> forall j :: c <= j < |g[r]| - 1 ==> g[r][j] != RobotCell)
            && forall i, j :: r < i < |g| - 1 && 1 <= j < |g[i]| - 1 ==> g[i][j] != RobotCell)
      && (p != (-1, -1) ==>
            && r <= p.0 < |g| - 1 && 1 <= p.1 < |g[p.0]| - 1 && g[p.0][p.1] == RobotCell
            && (p.0 == r ==> c <= p.1 && forall j :: c <= j < p.1 ==> g[r][j] != RobotCell)
            && (p.0 > r ==>
                  && (forall j :: c <= j < |g[r]| - 1 ==> g[r][j] != RobotCell)
                  && (forall i, j :: r < i < p.0 && 1 <= j < |g[i]| - 1 ==> g[i][j] != RobotCell)
                  && (forall j :: 1 <= j < p.1 ==> g[p.0][j] != RobotCell)))
    decreases |g| - r, (if 0 <= r < |g| then |g[r]| else 0) - c
  {
    if r < |g| - 1 {
      if c >= |g[r]| - 1 {
        FindRobotFromFirst(g, r + 1, 1);
      } else if g[r][c] != RobotCell {
        FindRobotFromFirst(g, r, c + 1);
      }
    }
  }

  /** The scan of `findRobot` finds exactly what `FindRobotSpec` names:
      both are the first interior robot cell in row-major order. */
  lemma FindRobotIsSpec(g: Grid, pos: (int, int))
    requires pos == (-1, -1) ==>
      forall r, c :: 1 <= r < |g| - 1 && 1 <= c < |g[r]| - 1 ==> g[r][c] != RobotCell
    requires pos != (-1, -1) ==>
      && 1 <= pos.0 < |g| - 1 && 1 <= pos.1 < |g[pos.0]| - 1
      && g[pos.0][pos.1] == RobotCell
      && (forall r, c :: 1 <= r < pos.0 && 1 <= c < |g[r]| - 1 ==> g[r][c] != RobotCell)
      && (forall c :: 1 <= c < pos.1 ==> g[pos.0][c] != RobotCell)
    ensures pos == FindRobotSpec(g)
  {
    FindRobotFromFirst(g, 1, 1);
  }

  lemma SameShapeRectangular(a: Grid, b: Grid)
    requires Rectangular(a) && SameShape(a, b)
    ensures Rectangular(b)
  {
    forall i | 0 <= i < |b|
      ensures |b[i]| == |b[0]|
    {
      assert |a[i]| == |b[i]|;
    }
  }

  // ---------------------------------------------------------------------
  // part 2: wide boxes

  /** A `boxx`: the two cells of a wide box. */
  datatype Box = Box(leftSide: (int, int), rightSide: (int, int))

  /** The box `findConnectedBoxes` starts from: the cell itself and its
      right neighbour if it holds "[", else its left neighbour and itself. */
  function InitialBox(g: Grid, start: (int, int)): Box
    requires InBounds(g, start.0, start.1)
  {
    if g[start.0][start.1] == LeftBox then Box(start, (start.0, start.1 + 1))
    else Box((start.0, start.1 - 1), start)
  }

  /** The two cells `findConnectedBoxes` reads beyond box b are on the grid. */
  predicate Probed(g: Grid, b: Box, dr: int, dc: int)
  {
    InBounds(g, b.leftSide.0 + dr, b.leftSide.1 + dc) && InBounds(g, b.rightSide.0 + dr, b.rightSide.1 + dc)
  }

  /** The boxes `findConnectedBoxes` queues behind box b, in its order: the
      box half in front of the left side, then the one in front of the
      right side. */
  function Neighbours(g: Grid, b: Box, dr: int, dc: int): seq<Box>
    requires Probed(g, b, dr, dc)
  {
    var l := (b.leftSide.0 + dr, b.leftSide.1 + dc);
    var r := (b.rightSide.0 + dr, b.rightSide.1 + dc);
    (if g[l.0][l.1] == LeftBox then [Box(l, (l.0, l.1 + 1))] else [])
    + (if g[l.0][l.1] == RightBox then [Box((l.0, l.1 - 1), l)] else [])
    + (if g[r.0][r.1] == RightBox then [Box((r.0, r.1 - 1), r)] else [])
    + (if g[r.0][r.1] == LeftBox then [Box(r, (r.0, r.1 + 1))] else [])
  }

  /** Every box one of the earlier boxes queues. */
  ghost predicate Reached(g: Grid, earlier: seq<Box>, b: Box, dr: int, dc: int)
  {
    exists j :: 0 <= j < |earlier| && Probed(g, earlier[j], dr, dc) && b in Neighbours(g, earlier[j], dr, dc)
  }

  predicate Distinct(bs: seq<Box>)
  {
    forall i, j :: 0 <= i < j < |bs| ==> bs[i] != bs[j]
  }

  /** What `findConnectedBoxes` promises: the start box first, no box twice,
      every box queued by an earlier one, and every box queued by one of them
      among them. */
  ghost predicate Connected(g: Grid, start: (int, int), bs: seq<Box>, dr: int, dc: int)
  {
    && InBounds(g, start.0, start.1)
    && |bs| > 0 && bs[0] == InitialBox(g, start)
    && Distinct(bs)
    && (forall i :: 0 < i < |bs| ==> Reached(g, bs[..i], bs[i], dr, dc))
    && (forall i :: 0 <= i < |bs| ==> Probed(g, bs[i], dr, dc))
    && (forall i, n :: 0 <= i < |bs| && n in Neighbours(g, bs[i], dr, dc) ==> n in bs)
  }

  /** The first boxes the search finds: the start box first, each later one
      queued by an earlier one, and every one of them with both cells in
      front of it on the grid. */
  ghost predicate Partial(g: Grid, start: (int, int), bs: seq<Box>, dr: int, dc: int)
  {
    && InBounds(g, start.0, start.1)
    && (|bs| > 0 ==> bs[0] == InitialBox(g, start))
    && FoundReached(g, bs, dr, dc)
    && (forall i :: 0 <= i < |bs| ==> Probed(g, bs[i], dr, dc))
  }

  /** Where `findConnectedBoxes` panics: the start is off the grid, or the
      search, after finding some boxes, takes up a box (the start box or
      one they queue) with a cell in front of it off the grid. */
  ghost predicate Stuck(g: Grid, start: (int, int), dr: int, dc: int)
  {
    || !InBounds(g, start.0, start.1)
    || exists bs: seq<Box>, b: Box :: Partial(g, start, bs, dr, dc) && !Probed(g, b, dr, dc) &&
         (b == InitialBox(g, start) || Reached(g, bs, b, dr, dc))
  }

  /** The search state where the head of the queue cannot be probed is a
      witness of `Stuck`. */
  lemma SearchStuck(g: Grid, start: (int, int), boxes: seq<Box>, visited: set<Box>, queue: seq<Box>, dr: int, dc: int)
    requires InBounds(g, start.0, start.1)
    requires Search(g, InitialBox(g, start), boxes, visited, queue, dr, dc)
    requires |queue| > 0 && !Probed(g, queue[0], dr, dc)
    ensures Stuck(g, start, dr, dc)
  {
    assert Partial(g, start, boxes, dr, dc);
    assert queue[0] in queue;
  }

  /** A completed search is never stuck: every box the search could take
      up is among the connected boxes, all of which can be probed. */
  lemma ConnectedNotStuck(g: Grid, start: (int, int), bs: seq<Box>, dr: int, dc: int)
    requires Connected(g, start, bs, dr, dc)
    ensures !Stuck(g, start, dr, dc)
  {
    forall p: seq<Box>, b: Box | Partial(g, start, p, dr, dc) && (b == InitialBox(g, start) || Reached(g, p, b, dr, dc))
      ensures Probed(g, b, dr, dc)
    {
      if b == InitialBox(g, start) {
        assert bs[0] == b;
      } else {
        var j :| 0 <= j < |p| && Probed(g, p[j], dr, dc) && b in Neighbours(g, p[j], dr, dc);
        PartialInside(g, start, bs, dr, dc, p, j);
        var m :| 0 <= m < |bs| && bs[m] == p[j];
        ConnectedClosed(g, start, bs, dr, dc, m, b);
      }
    }
  }

  /** The boxes of a partial search are among the connected boxes. */
  lemma {:induction false} PartialInside(g: Grid, start: (int, int), bs: seq<Box>, dr: int, dc: int, p: seq<Box>, i: nat)
    requires Connected(g, start, bs, dr, dc) && Partial(g, start, p, dr, dc) && i < |p|
    ensures p[i] in bs
    decreases i
  {
    if i == 0 {
      assert p[0] == bs[0];
    } else {
      assert Reached(g, p[..i], p[i], dr, dc);
      var j :| 0 <= j < i && Probed(g, p[..i][j], dr, dc) && p[i] in Neighbours(g, p[..i][j], dr, dc);
      assert p[..i][j] == p[j];
      PartialInside(g, start, bs, dr, dc, p, j);
      var m :| 0 <= m < |bs| && bs[m] == p[j];
      ConnectedClosed(g, start, bs, dr, dc, m, p[i]);
    }
  }

  lemma ConnectedClosed(g: Grid, start: (int, int), bs: seq<Box>, dr: int, dc: int, m: int, n: Box)
    requires Connected(g, start, bs, dr, dc) && 0 <= m < |bs| && n in Neighbours(g, bs[m], dr, dc)
    ensures n in bs
  {
  }

  /** The boxes connected to the start are exactly the least set that holds
      the start box and is closed under `Neighbours`: any such set holds them
      all. */
  lemma ConnectedIsLeast(g: Grid, start: (int, int), bs: seq<Box>, dr: int, dc: int, s: set<Box>)
    requires Connected(g, start, bs, dr, dc)
    requires InitialBox(g, start) in s
    requires forall b :: b in s && Probed(g, b, dr, dc) ==> forall n :: n in Neighbours(g, b, dr, dc) ==> n in s
    ensures forall b :: b in bs ==> b in s
  {
    forall i | 0 <= i < |bs|
      ensures bs[i] in s
    {
      ConnectedPrefix(g, start, bs, dr, dc, s, i);
    }
  }

  lemma {:induction false} ConnectedPrefix(g: Grid, start: (int, int), bs: seq<Box>, dr: int, dc: int, s: set<Box>, i: nat)
    requires Connected(g, start, bs, dr, dc) && i < |bs|
    requires InitialBox(g, start) in s
    requires forall b :: b in s && Probed(g, b, dr, dc) ==> forall n :: n in Neighbours(g, b, dr, dc) ==> n in s
    ensures forall k :: 0 <= k <= i ==> bs[k] in s
  {
    if i > 0 {
      ConnectedPrefix(g, start, bs, dr, dc, s, i - 1);
      var j :| 0 <= j < |bs[..i]| && Probed(g, bs[..i][j], dr, dc) && bs[i] in Neighbours(g, bs[..i][j], dr, dc);
      assert bs[j] in s;
    }
  }

  /** Every box that can be queued: a cell of some row and the cell to its
      right, the left one at column -1 at the least. */
  function Universe(g: Grid): set<Box>
  {
    set i, j | 0 <= i < |g| && -1 <= j < |g[i]| :: WideBox(i, j)
  }

  function WideBox(i: int, j: int): Box
  {
    Box((i, j), (i, j + 1))
  }

  lemma InUniverse(g: Grid, i: int, j: int)
    requires 0 <= i < |g| && -1 <= j < |g[i]|
    ensures WideBox(i, j) in Universe(g)
  {
  }

  lemma NeighboursInUniverse(g: Grid, b: Box, dr: int, dc: int)
    requires Probed(g, b, dr, dc)
    ensures forall n :: n in Neighbours(g, b, dr, dc) ==> n in Universe(g)
  {
    var l := (b.leftSide.0 + dr, b.leftSide.1 + dc);
    var r := (b.rightSide.0 + dr, b.rightSide.1 + dc);
    InUniverse(g, l.0, l.1);
    InUniverse(g, l.0, l.1 - 1);
    InUniverse(g, r.0, r.1);
    InUniverse(g, r.0, r.1 - 1);
    assert WideBox(l.0, l.1) == Box(l, (l.0, l.1 + 1));
    assert WideBox(l.0, l.1 - 1) == Box((l.0, l.1 - 1), l);
    assert WideBox(r.0, r.1) == Box(r, (r.0, r.1 + 1));
    assert WideBox(r.0, r.1 - 1) == Box((r.0, r.1 - 1), r);
  }

  /** The state of the search in `findConnectedBoxes`: the boxes found so
      far are the visited set, without repeats, starting from the first box;
      each was queued by an earlier one and had its queued boxes found or
      queued; every queued box lies in the universe and (once a box has
      been found) is queued by a found box. */
  ghost predicate Search(g: Grid, initial: Box, boxes: seq<Box>, visited: set<Box>, queue: seq<Box>, dr: int, dc: int)
  {
    && (forall b :: b in queue ==> b in Universe(g))
    && visited <= Universe(g)
    && (forall b :: b in visited <==> b in boxes)
    && Distinct(boxes)
    && (|boxes| == 0 ==> queue == [initial])
    && (|boxes| > 0 ==> boxes[0] == initial)
    && (forall i :: 0 <= i < |boxes| ==> Probed(g, boxes[i], dr, dc))
    && FoundReached(g, boxes, dr, dc)
    && (|boxes| > 0 ==> QueueReached(g, boxes, queue, dr, dc))
    && Pending(g, boxes, visited, queue, dr, dc)
  }

  /** Each found box after the first was queued by an earlier one. */
  ghost predicate FoundReached(g: Grid, boxes: seq<Box>, dr: int, dc: int)
  {
    forall i :: 0 < i < |boxes| ==> Reached(g, boxes[..i], boxes[i], dr, dc)
  }

  /** Each queued box was queued by a found box. */
  ghost predicate QueueReached(g: Grid, boxes: seq<Box>, queue: seq<Box>, dr: int, dc: int)
  {
    forall b :: b in queue ==> Reached(g, boxes, b, dr, dc)
  }

  /** Every box queued by a found box is found or still queued. */
  ghost predicate Pending(g: Grid, boxes: seq<Box>, visited: set<Box>, queue: seq<Box>, dr: int, dc: int)
  {
    forall i, n :: 0 <= i < |boxes| && Probed(g, boxes[i], dr, dc) && n in Neighbours(g, boxes[i], dr, dc) ==>
      n in visited || n in queue
  }

  lemma SearchInit(g: Grid, initial: Box, dr: int, dc: int)
    requires initial in Universe(g)
    ensures Search(g, initial, [], {}, [initial], dr, dc)
  {
  }

  lemma QueueTail(queue: seq<Box>)
    requires |queue| > 0
    ensures forall b :: b in queue ==> b == queue[0] || b in queue[1..]
  {
    assert queue == [queue[0]] + queue[1..];
  }

  /** Taking a box the search has not yet found off the queue: it joins the
      found boxes and the boxes it pushes join the queue. */
  lemma SearchVisit(g: Grid, initial: Box, boxes: seq<Box>, visited: set<Box>, queue: seq<Box>, dr: int, dc: int)
    requires Search(g, initial, boxes, visited, queue, dr, dc)
    requires |queue| > 0 && queue[0] !in visited && Probed(g, queue[0], dr, dc)
    ensures queue[0] in Universe(g)
    ensures Search(g, initial, boxes + [queue[0]], visited + {queue[0]}, queue[1..] + Neighbours(g, queue[0], dr, dc), dr, dc)
  {
    QueueTail(queue);
    NeighboursInUniverse(g, queue[0], dr, dc);
    if |boxes| > 0 {
      ReachedVisit(g, boxes, queue, dr, dc);
    } else {
      assert QueueReached(g, [queue[0]], Neighbours(g, queue[0], dr, dc), dr, dc);
    }
    PendingVisit(g, boxes, visited, queue, dr, dc);
  }

  lemma ReachedVisit(g: Grid, boxes: seq<Box>, queue: seq<Box>, dr: int, dc: int)
    requires |boxes| > 0 && |queue| > 0 && Probed(g, queue[0], dr, dc)
    requires FoundReached(g, boxes, dr, dc) && QueueReached(g, boxes, queue, dr, dc)
    ensures FoundReached(g, boxes + [queue[0]], dr, dc)
    ensures QueueReached(g, boxes + [queue[0]], queue[1..] + Neighbours(g, queue[0], dr, dc), dr, dc)
  {
    var c := queue[0];
    var boxes' := boxes + [c];
    ReachedGrows(g, boxes, c, dr, dc);
    ReachedBy(g, boxes', |boxes|, dr, dc);
    assert boxes'[..|boxes|] == boxes;
    forall i | 0 < i < |boxes'|
      ensures Reached(g, boxes'[..i], boxes'[i], dr, dc)
    {
      if i < |boxes| {
        assert boxes'[..i] == boxes[..i];
      }
    }
  }

  lemma PendingVisit(g: Grid, boxes: seq<Box>, visited: set<Box>, queue: seq<Box>, dr: int, dc: int)
    requires Pending(g, boxes, visited, queue, dr, dc)
    requires |queue| > 0 && Probed(g, queue[0], dr, dc)
    ensures Pending(g, boxes + [queue[0]], visited + {queue[0]}, queue[1..] + Neighbours(g, queue[0], dr, dc), dr, dc)
  {
    QueueTail(queue);
  }

  /** Taking a found box off the queue changes nothing else. */
  lemma SearchSkip(g: Grid, initial: Box, boxes: seq<Box>, visited: set<Box>, queue: seq<Box>, dr: int, dc: int)
    requires Search(g, initial, boxes, visited, queue, dr, dc)
    requires |queue| > 0 && queue[0] in visited
    ensures Search(g, initial, boxes, visited, queue[1..], dr, dc)
  {
    QueueTail(queue);
  }

  /** An empty queue: the found boxes are the connected ones. */
  lemma SearchDone(g: Grid, start: (int, int), boxes: seq<Box>, visited: set<Box>, dr: int, dc: int)
    requires InBounds(g, start.0, start.1)
    requires Search(g, InitialBox(g, start), boxes, visited, [], dr, dc)
    ensures Connected(g, start, boxes, dr, dc)
  {
  }

  /** A box reached from a prefix is reached from any extension of it. */
  lemma ReachedGrows(g: Grid, earlier: seq<Box>, x: Box, dr: int, dc: int)
    ensures forall b :: Reached(g, earlier, b, dr, dc) ==> Reached(g, earlier + [x], b, dr, dc)
  {
    forall b | Reached(g, earlier, b, dr, dc)
      ensures Reached(g, earlier + [x], b, dr, dc)
    {
      var j :| 0 <= j < |earlier| && Probed(g, earlier[j], dr, dc) && b in Neighbours(g, earlier[j], dr, dc);
      assert (earlier + [x])[j] == earlier[j];
    }
  }

  /** Every box queued by bs[k] is reached from bs. */
  lemma ReachedBy(g: Grid, bs: seq<Box>, k: int, dr: int, dc: int)
    requires 0 <= k < |bs| && Probed(g, bs[k], dr, dc)
    ensures forall n :: n in Neighbours(g, bs[k], dr, dc) ==> Reached(g, bs, n, dr, dc)
  {
  }

  lemma CardRemove(u: set<Box>, v: set<Box>, x: Box)
    requires x in u && x !in v
    ensures |u - (v + {x})| < |u - v|
  {
    assert u - v == (u - (v + {x})) + {x};
  }

  /** The order `moveVerticalBoxes` visits rows in: the rows of the boxes
      in order of first appearance. */
  function Keys(bs: seq<Box>): seq<int>
  {
    if |bs| == 0 then []
    else
      var ks := Keys(bs[..|bs| - 1]);
      var row := bs[|bs| - 1].leftSide.0;
      if row in ks then ks else ks + [row]
  }

  /** `rows[row]`: the boxes whose left side is in that row, in order. */
  function RowBoxes(bs: seq<Box>, row: int): seq<Box>
  {
    if |bs| == 0 then []
    else RowBoxes(bs[..|bs| - 1], row) + (if bs[|bs| - 1].leftSide.0 == row then [bs[|bs| - 1]] else [])
  }

  function Reverse(s: seq<int>): (r: seq<int>)
    ensures |r| == |s| && forall i :: 0 <= i < |s| ==> r[i] == s[|s| - 1 - i]
  {
    if |s| == 0 then [] else Reverse(s[1..]) + [s[0]]
  }

  /** The sorted keys: ascending when moving up, descending when moving down. */
  function SortKeys(keys: seq<int>, up: bool): seq<int>
  {
    if up then Sorting.SortInts(keys) else Reverse(Sorting.SortInts(keys))
  }

  /** The boxes of the given rows, row after row. */
  function Schedule(bs: seq<Box>, rows: seq<int>): seq<Box>
  {
    if |rows| == 0 then [] else RowBoxes(bs, rows[0]) + Schedule(bs, rows[1..])
  }

  /** The keys are the rows of the boxes, each once. */
  lemma {:induction false} KeysMembers(bs: seq<Box>)
    ensures forall k :: k in Keys(bs) <==> exists i :: 0 <= i < |bs| && bs[i].leftSide.0 == k
    ensures forall i, j :: 0 <= i < j < |Keys(bs)| ==> Keys(bs)[i] != Keys(bs)[j]
  {
    if |bs| > 0 {
      var init := bs[..|bs| - 1];
      KeysMembers(init);
      forall k | exists i :: 0 <= i < |bs| && bs[i].leftSide.0 == k
        ensures k in Keys(bs)
      {
        var i :| 0 <= i < |bs| && bs[i].leftSide.0 == k;
        if i < |bs| - 1 {
          assert init[i] == bs[i];
        }
      }
      forall k | k in Keys(init)
        ensures exists i :: 0 <= i < |bs| && bs[i].leftSide.0 == k
      {
        var i :| 0 <= i < |init| && init[i].leftSide.0 == k;
        assert bs[i] == init[i];
      }
    }
  }

  lemma {:induction false} KeyOf(bs: seq<Box>, i: int)
    requires 0 <= i < |bs|
    ensures bs[i].leftSide.0 in Keys(bs)
  {
    if i < |bs| - 1 {
      KeyOf(bs[..|bs| - 1], i);
    }
  }

  /** `rows[row]` holds exactly the boxes of that row. */
  lemma {:induction false} RowBoxesMembers(bs: seq<Box>, row: int)
    ensures forall b :: b in RowBoxes(bs, row) <==> b in bs && b.leftSide.0 == row
  {
    if |bs| > 0 {
      RowBoxesMembers(bs[..|bs| - 1], row);
      assert bs == bs[..|bs| - 1] + [bs[|bs| - 1]];
    }
  }

  /** The boxes of the given rows, each wherever it stands in bs. */
  lemma {:induction false} ScheduleMembers(bs: seq<Box>, rows: seq<int>)
    ensures forall b :: b in Schedule(bs, rows) <==> b in bs && b.leftSide.0 in rows
  {
    if |rows| > 0 {
      RowBoxesMembers(bs, rows[0]);
      ScheduleMembers(bs, rows[1..]);
      assert rows == [rows[0]] + rows[1..];
    }
  }

  /** Sorting the keys keeps them all and adds none. */
  lemma SortKeysHas(keys: seq<int>, up: bool, k: int)
    ensures k in SortKeys(keys, up) <==> k in keys
  {
    var sorted := Sorting.SortInts(keys);
    assert k in sorted <==> k in multiset(sorted);
    assert k in keys <==> k in multiset(keys);
    if !up && k in sorted {
      var i :| 0 <= i < |sorted| && sorted[i] == k;
      assert Reverse(sorted)[|sorted| - 1 - i] == k;
    }
  }

  lemma SortKeysMembers(keys: seq<int>, up: bool)
    ensures forall k :: k in SortKeys(keys, up) <==> k in keys
  {
    forall k {
      SortKeysHas(keys, up, k);
    }
  }

  /** `moveVerticalBoxes` moves every connected box, and only those. */
  lemma ScheduleIsBoxes(bs: seq<Box>, up: bool)
    ensures forall b :: b in Schedule(bs, SortKeys(Keys(bs), up)) <==> b in bs
  {
    var keys := Keys(bs);
    var sorted := SortKeys(keys, up);
    forall b | b in bs
      ensures b.leftSide.0 in sorted
    {
      var i :| 0 <= i < |bs| && bs[i] == b;
      KeyOf(bs, i);
      SortKeysHas(keys, up, b.leftSide.0);
    }
    ScheduleMembers(bs, sorted);
  }

  /** x comes no later than y: ascending when moving up, descending when
      moving down. */
  predicate RowBefore(x: int, y: int, up: bool)
  {
    if up then x <= y else x >= y
  }

  predicate RowsInOrder(rows: seq<int>, up: bool)
  {
    forall i, j :: 0 <= i < j < |rows| ==> RowBefore(rows[i], rows[j], up)
  }

  lemma SortKeysInOrder(keys: seq<int>, up: bool)
    ensures RowsInOrder(SortKeys(keys, up), up)
  {
    var sorted := Sorting.SortInts(keys);
    if !up {
      var r := Reverse(sorted);
      forall i, j | 0 <= i < j < |r|
        ensures r[i] >= r[j]
      {
        assert r[i] == sorted[|sorted| - 1 - i] && r[j] == sorted[|sorted| - 1 - j];
      }
    }
  }

  predicate BoxesInOrder(order: seq<Box>, up: bool)
  {
    forall i, j :: 0 <= i < j < |order| ==> RowBefore(order[i].leftSide.0, order[j].leftSide.0, up)
  }

  /** Boxes are moved row by row in the sorted order of the rows: the
      rows nearest the move's far end go first. */
  lemma {:induction false} ScheduleInOrder(bs: seq<Box>, rows: seq<int>, up: bool)
    requires RowsInOrder(rows, up)
    ensures BoxesInOrder(Schedule(bs, rows), up)
  {
    if |rows| > 0 {
      var first := RowBoxes(bs, rows[0]);
      var rest := Schedule(bs, rows[1..]);
      assert RowsInOrder(rows[1..], up) by {
        forall i, j | 0 <= i < j < |rows[1..]|
          ensures RowBefore(rows[1..][i], rows[1..][j], up)
        {
          assert rows[1..][i] == rows[i + 1] && rows[1..][j] == rows[j + 1];
        }
      }
      ScheduleInOrder(bs, rows[1..], up);
      RowBoxesMembers(bs, rows[0]);
      ScheduleMembers(bs, rows[1..]);
      var order := first + rest;
      assert BoxesInOrder(rest, up);
      forall i, j | 0 <= i < j < |order|
        ensures RowBefore(order[i].leftSide.0, order[j].leftSide.0, up)
      {
        if j < |first| {
          assert order[i] == first[i] && order[j] == first[j];
          assert first[i] in first && first[j] in first;
        } else if i < |first| {
          assert order[i] == first[i] && first[i] in first;
          assert order[j] == rest[j - |first|] && rest[j - |first|] in rest;
          var k :| 0 <= k < |rows[1..]| && rows[1..][k] == order[j].leftSide.0;
          assert rows[k + 1] == order[j].leftSide.0;
          assert RowBefore(rows[0], rows[k + 1], up);
        } else {
          assert order[i] == rest[i - |first|] && order[j] == rest[j - |first|];
          assert RowBefore(rest[i - |first|].leftSide.0, rest[j - |first|].leftSide.0, up);
        }
      }
    }
  }

  /** No key outside the rows of the boxes has any box. */
  lemma {:induction false} RowBoxesEmpty(bs: seq<Box>, row: int)
    requires row !in Keys(bs)
    ensures RowBoxes(bs, row) == []
  {
    if |bs| > 0 {
      RowBoxesEmpty(bs[..|bs| - 1], row);
    }
  }

  /** The first loop of `moveVerticalBoxes`: the rows in order of first
      appearance, and the boxes of each row. */
  method GroupRows(bs: seq<Box>) returns (rows: map<int, seq<Box>>, keys: seq<int>)
    ensures keys == Keys(bs)
    ensures forall k :: k in rows <==> k in keys
    ensures forall k :: k in rows ==> rows[k] == RowBoxes(bs, k)
  {
    rows := map[];
    keys := [];
    for i := 0 to |bs|
      invariant keys == Keys(bs[..i])
      invariant forall k :: k in rows <==> k in keys
      invariant forall k :: k in rows ==> rows[k] == RowBoxes(bs[..i], k)
    {
      var box := bs[i];
      var row := box.leftSide.0;
      assert bs[..i + 1][..i] == bs[..i];
      if row !in keys {
        RowBoxesEmpty(bs[..i], row);
        keys := keys + [row];
      }
      rows := rows[row := (if row in rows then rows[row] else []) + [box]];
    }
    assert bs[..|bs|] == bs;
  }

  /** The result of moving a list of boxes on the simulated grid. */
  datatype Outcome = Panic | Blocked | Moved(grid: Grid)

  /** Moving each box in turn: both cells in front of it must be empty,
      else the move is refused; then its left and its right cell are
      pushed with `moveItem`. */
  function Simulate(g: Grid, order: seq<Box>, dr: int, dc: int): Outcome
    requires IsMove(dr, dc)
    decreases |order|
  {
    if |order| == 0 then Moved(g)
    else
      var b := order[0];
      var l := (b.leftSide.0 + dr, b.leftSide.1 + dc);
      var r := (b.rightSide.0 + dr, b.rightSide.1 + dc);
      if !InBounds(g, l.0, l.1) then Panic
      else if g[l.0][l.1] != EmptyCell then Blocked
      else if !InBounds(g, r.0, r.1) then Panic
      else if g[r.0][r.1] != EmptyCell then Blocked
      else match MoveItemSpec(g, b.leftSide.0, b.leftSide.1, dr, dc)
        case None => Panic
        case Some((_, h)) =>
          match MoveItemSpec(h, b.rightSide.0, b.rightSide.1, dr, dc)
          case None => Panic
          case Some((_, h2)) => Simulate(h2, order[1..], dr, dc)
  }

  lemma {:induction false} SimulateAppend(g: Grid, a: seq<Box>, b: seq<Box>, dr: int, dc: int)
    requires IsMove(dr, dc)
    ensures Simulate(g, a + b, dr, dc) ==
      match Simulate(g, a, dr, dc)
      case Moved(h) => Simulate(h, b, dr, dc)
      case other => other
    decreases |a|
  {
    if |a| > 0 {
      assert (a + b)[0] == a[0] && (a + b)[1..] == a[1..] + b;
      var x := a[0];
      var l := (x.leftSide.0 + dr, x.leftSide.1 + dc);
      var r := (x.rightSide.0 + dr, x.rightSide.1 + dc);
      if InBounds(g, l.0, l.1) && g[l.0][l.1] == EmptyCell && InBounds(g, r.0, r.1) && g[r.0][r.1] == EmptyCell {
        var m := MoveItemSpec(g, x.leftSide.0, x.leftSide.1, dr, dc);
        if m.Some? {
          var m2 := MoveItemSpec(m.value.1, x.rightSide.0, x.rightSide.1, dr, dc);
          if m2.Some? {
            SimulateAppend(m2.value.1, a[1..], b, dr, dc);
          }
        }
      }
    } else {
      assert a + b == b;
    }
  }

  /** Moving boxes only moves symbols around: every symbol keeps its count. */
  lemma {:induction false} SimulateCounts(g: Grid, order: seq<Box>, dr: int, dc: int)
    requires IsMove(dr, dc)
    requires Simulate(g, order, dr, dc).Moved?
    ensures forall y :: Count(Simulate(g, order, dr, dc).grid, y) == Count(g, y)
    decreases |order|
  {
    if |order| > 0 {
      var x := order[0];
      var m := MoveItemSpec(g, x.leftSide.0, x.leftSide.1, dr, dc);
      MoveItemCounts(g, x.leftSide.0, x.leftSide.1, dr, dc);
      var m2 := MoveItemSpec(m.value.1, x.rightSide.0, x.rightSide.1, dr, dc);
      MoveItemCounts(m.value.1, x.rightSide.0, x.rightSide.1, dr, dc);
      SimulateCounts(m2.value.1, order[1..], dr, dc);
    }
  }
}
