/** Day 4: a word search. Part 1 counts every occurrence of "XMAS" in any
    of the eight directions; part 2 counts the "A" cells whose two
    diagonals both read "MAS", forwards or backwards. */
module Day4 {
  import opened Wrappers

  type Grid = seq<seq<char>>

  const Target: string := "XMAS"

  /** The eight directions of `part1`, as (row step, column step). */
  const Directions: seq<(int, int)> := [(0, -1), (0, 1), (-1, 0), (1, 0), (-1, -1), (-1, 1), (1, -1), (1, 1)]

  /** Every row is at least as long as the first, which sets the column
      count. */
  predicate Wide(grid: Grid)
  {
    forall r :: 0 <= r < |grid| ==> |grid[r]| >= |grid[0]|
  }

  /** Every row is as long as the first. */
  predicate Rectangular(grid: Grid)
  {
    forall r :: 0 <= r < |grid| ==> |grid[r]| == |grid[0]|
  }

  /** Inside the rows and the first row's columns. */
  predicate InWindow(grid: Grid, x: int, y: int)
  {
    0 <= x < |grid| && 0 <= y < |grid[0]|
  }

  /** The `k`th letter of the word starting at (x, y) in direction
      (dx, dy) is in the window and is the `k`th letter of "XMAS". */
  predicate LetterAt(grid: Grid, x: int, y: int, dx: int, dy: int, k: nat)
    requires Wide(grid) && k < |Target|
  {
    InWindow(grid, x + k * dx, y + k * dy) && grid[x + k * dx][y + k * dy] == Target[k]
  }

  /** "XMAS" reads from (x, y) in direction (dx, dy). */
  predicate XmasAt(grid: Grid, x: int, y: int, dx: int, dy: int)
    requires Wide(grid)
  {
    forall k :: 0 <= k < |Target| ==> LetterAt(grid, x, y, dx, dy, k)
  }

  // ---------------------------------------------------------------------
  // part1

  /** `checkDirections`: each of the four letters in turn, stopping at the
      first one out of bounds or wrong. */
  method CheckDirections(grid: Grid, x: int, y: int, dx: int, dy: int) returns (found: bool)
    requires Wide(grid)
    ensures found <==> XmasAt(grid, x, y, dx, dy)
  {
    var rows := |grid|;
    var cols := if rows == 0 then 0 else |grid[0]|;
    for k := 0 to |Target|
      invariant forall j :: 0 <= j < k ==> LetterAt(grid, x, y, dx, dy, j)
    {
      var nx, ny := x + k * dx, y + k * dy;
      if nx < 0 || nx >= rows || ny < 0 || ny >= cols || grid[nx][ny] != Target[k] {
        assert !LetterAt(grid, x, y, dx, dy, k);
        return false;
      }
    }
    return true;
  }

  /** The number of the first `n` directions in which "XMAS" reads from
      (x, y). */
  function Found(grid: Grid, x: int, y: int, n: nat): nat
    requires Wide(grid) && n <= |Directions|
  {
    if n == 0 then 0
    else Found(grid, x, y, n - 1) + (if XmasAt(grid, x, y, Directions[n - 1].0, Directions[n - 1].1) then 1 else 0)
  }

  /** The words counted at one cell: only an "X" cell is tried. */
  function CellCount(grid: Grid, r: nat, c: nat): nat
    requires Wide(grid) && InWindow(grid, r, c)
  {
    if grid[r][c] == Target[0] then Found(grid, r, c, |Directions|) else 0
  }

  /** The words counted in the first `n` cells of row `r`. */
  function RowCount(grid: Grid, r: nat, n: nat): nat
    requires Wide(grid) && r < |grid| && n <= |grid[0]|
  {
    if n == 0 then 0 else RowCount(grid, r, n - 1) + CellCount(grid, r, n - 1)
  }

  /** The words counted in the first `m` rows. */
  function GridCount(grid: Grid, m: nat): nat
    requires Wide(grid) && m <= |grid|
  {
    if m == 0 then 0 else GridCount(grid, m - 1) + RowCount(grid, m - 1, |grid[0]|)
  }

  /** The directions loop at one "X" cell. */
  method CountAt(grid: Grid, r: nat, c: nat) returns (matches: nat)
    requires Wide(grid) && InWindow(grid, r, c)
    ensures matches == Found(grid, r, c, |Directions|)
  {
    matches := 0;
    for i := 0 to |Directions|
      invariant matches == Found(grid, r, c, i)
    {
      var (dx, dy) := Directions[i];
      var found := CheckDirections(grid, r, c, dx, dy);
      if found {
        matches := matches + 1;
      }
    }
  }

  /** The column loop over one row. */
  method CountInRow(grid: Grid, r: nat) returns (matches: nat)
    requires Wide(grid) && r < |grid|
    ensures matches == RowCount(grid, r, |grid[0]|)
  {
    matches := 0;
    for c := 0 to |grid[0]|
      invariant matches == RowCount(grid, r, c)
    {
      if grid[r][c] == Target[0] {
        var here := CountAt(grid, r, c);
        matches := matches + here;
      }
    }
  }

  /** `part1`: the number of (cell, direction) pairs from which "XMAS"
      reads. None when the grid is empty (Go reads `grid[0]`) or a row is
      shorter than the first (Go's scan reads past its end). */
  method Part1(grid: Grid) returns (matches: Option<nat>)
    ensures matches.None? <==> |grid| == 0 || !Wide(grid)
    ensures matches.Some? ==> matches.value == GridCount(grid, |grid|)
  {
    if |grid| == 0 || !Wide(grid) {
      return None;
    }
    var total := 0;
    for r := 0 to |grid|
      invariant total == GridCount(grid, r)
    {
      var inRow := CountInRow(grid, r);
      total := total + inRow;
    }
    return Some(total);
  }

  /** The directions table holds each of the eight one-cell steps exactly
      once. */
  lemma DirectionsAreTheSteps()
    ensures forall dx, dy :: -1 <= dx <= 1 && -1 <= dy <= 1 && (dx, dy) != (0, 0) ==> (dx, dy) in Directions
    ensures forall i, j :: 0 <= i < j < |Directions| ==> Directions[i] != Directions[j]
    ensures forall i :: 0 <= i < |Directions| ==> Directions[i] != (0, 0)
  {
  }

  /** A word starts on an "X" and lies wholly inside the grid, so scanning
      only "X" cells and checking bounds loses nothing. */
  lemma XmasInside(grid: Grid, x: int, y: int, dx: int, dy: int)
    requires Wide(grid) && XmasAt(grid, x, y, dx, dy)
    ensures InWindow(grid, x, y) && InWindow(grid, x + dx, y + dy)
    ensures InWindow(grid, x + 2 * dx, y + 2 * dy) && InWindow(grid, x + 3 * dx, y + 3 * dy)
    ensures grid[x][y] == 'X' && grid[x + dx][y + dy] == 'M' && grid[x + 2 * dx][y + 2 * dy] == 'A' && grid[x + 3 * dx][y + 3 * dy] == 'S'
  {
    assert LetterAt(grid, x, y, dx, dy, 0) && LetterAt(grid, x, y, dx, dy, 1);
    assert LetterAt(grid, x, y, dx, dy, 2) && LetterAt(grid, x, y, dx, dy, 3);
  }

  /** Read backwards, each counted word is "SAMX" from its last cell: the
      same four cells are counted once per direction, so a word is never
      counted twice. */
  lemma XmasReversed(grid: Grid, x: int, y: int, dx: int, dy: int)
    requires Wide(grid) && XmasAt(grid, x, y, dx, dy) && (dx, dy) != (0, 0)
    ensures !XmasAt(grid, x + 3 * dx, y + 3 * dy, -dx, -dy)
  {
    XmasInside(grid, x, y, dx, dy);
    assert !LetterAt(grid, x + 3 * dx, y + 3 * dy, -dx, -dy, 0);
  }

  /** Each cell counts at most once per direction. */
  lemma {:induction false} FoundAtMost(grid: Grid, x: int, y: int, n: nat)
    requires Wide(grid) && n <= |Directions|
    ensures Found(grid, x, y, n) <= n
  {
    if n > 0 {
      FoundAtMost(grid, x, y, n - 1);
    }
  }

  /** A word read from cell (x, y) in one of the directions adds one to
      that cell's count. */
  lemma {:induction false} FoundPositive(grid: Grid, x: int, y: int, n: nat, i: nat)
    requires Wide(grid) && i < n <= |Directions| && XmasAt(grid, x, y, Directions[i].0, Directions[i].1)
    ensures Found(grid, x, y, n) >= 1
  {
    if i < n - 1 {
      FoundPositive(grid, x, y, n - 1, i);
    }
  }

  lemma {:induction false} RowCountPositive(grid: Grid, r: nat, n: nat, c: nat)
    requires Wide(grid) && r < |grid| && c < n <= |grid[0]| && CellCount(grid, r, c) >= 1
    ensures RowCount(grid, r, n) >= 1
  {
    if c < n - 1 {
      RowCountPositive(grid, r, n - 1, c);
    }
  }

  lemma {:induction false} GridCountPositive(grid: Grid, m: nat, r: nat)
    requires Wide(grid) && r < m <= |grid| && |grid[0]| > 0 && RowCount(grid, r, |grid[0]|) >= 1
    ensures GridCount(grid, m) >= 1
  {
    if r < m - 1 {
      GridCountPositive(grid, m - 1, r);
    }
  }

  /** Every occurrence is counted: a grid holding "XMAS" in any of the
      eight directions gets a positive count. */
  lemma OccurrenceCounted(grid: Grid, x: nat, y: nat, i: nat)
    requires Wide(grid) && InWindow(grid, x, y) && i < |Directions|
    requires XmasAt(grid, x, y, Directions[i].0, Directions[i].1)
    ensures GridCount(grid, |grid|) >= 1
  {
    XmasInside(grid, x, y, Directions[i].0, Directions[i].1);
    FoundPositive(grid, x, y, |Directions|, i);
    RowCountPositive(grid, x, |grid[0]|, y);
    GridCountPositive(grid, |grid|, x);
  }

  // ---------------------------------------------------------------------
  // part2

  /** `combinationMap`: the letter a diagonal must end in given the one it
      starts with; None for any other letter, where Go's map gives "",
      which no cell holds. */
  function Complement(letter: char): Option<char>
  {
    if letter == 'M' then Some('S') else if letter == 'S' then Some('M') else None
  }

  /** `checkCorner`: inside the grid and holding the wanted letter. */
  predicate CheckCorner(grid: Grid, x: int, y: int, letter: Option<char>)
    requires Wide(grid)
  {
    InWindow(grid, x, y) && letter == Some(grid[x][y])
  }

  /** The test `part2` makes at an inner cell: an "A" whose bottom-right
      corner complements its top-left one and whose bottom-left corner
      complements its top-right one. */
  predicate XMasAt(grid: Grid, r: int, c: int)
    requires Wide(grid) && 1 <= r < |grid| - 1 && 1 <= c < |grid[0]| - 1
  {
    grid[r][c] == 'A' &&
    InWindow(grid, r - 1, c - 1) && InWindow(grid, r - 1, c + 1) &&
    CheckCorner(grid, r + 1, c + 1, Complement(grid[r - 1][c - 1])) &&
    CheckCorner(grid, r + 1, c - 1, Complement(grid[r - 1][c + 1]))
  }

  /** The two ends of a diagonal through an "A" spell "MAS" one way or the
      other. */
  predicate Mas(a: char, b: char)
  {
    (a == 'M' && b == 'S') || (a == 'S' && b == 'M')
  }

  /** What the test means: both diagonals through the "A" read "MAS",
      forwards or backwards. */
  lemma XMasMeaning(grid: Grid, r: int, c: int)
    requires Wide(grid) && 1 <= r < |grid| - 1 && 1 <= c < |grid[0]| - 1
    ensures XMasAt(grid, r, c) <==>
              grid[r][c] == 'A' && Mas(grid[r - 1][c - 1], grid[r + 1][c + 1]) && Mas(grid[r - 1][c + 1], grid[r + 1][c - 1])
  {
  }

  /** The crosses counted in columns 1 to `n` - 1 of inner row `r`. */
  function RowXMas(grid: Grid, r: nat, n: nat): nat
    requires Wide(grid) && 1 <= r < |grid| - 1 && 1 <= n <= |grid[0]| - 1
  {
    if n == 1 then 0 else RowXMas(grid, r, n - 1) + (if XMasAt(grid, r, n - 1) then 1 else 0)
  }

  /** The crosses counted in inner rows 1 to `m` - 1. */
  function GridXMas(grid: Grid, m: nat): nat
    requires Wide(grid) && 1 <= m <= |grid| - 1 && |grid[0]| >= 2
  {
    if m == 1 then 0 else GridXMas(grid, m - 1) + RowXMas(grid, m - 1, |grid[0]| - 1)
  }

  /** The crosses of the whole grid: only cells off the border are
      tried. */
  function XMasCount(grid: Grid): nat
    requires Wide(grid) && |grid| > 0
  {
    if |grid| < 2 || |grid[0]| < 2 then 0 else GridXMas(grid, |grid| - 1)
  }

  /** The column loop of `part2` over one inner row. */
  method XMasInRow(grid: Grid, r: nat) returns (matches: nat)
    requires Wide(grid) && 1 <= r < |grid| - 1 && |grid[0]| >= 2
    ensures matches == RowXMas(grid, r, |grid[0]| - 1)
  {
    var rows, cols := |grid|, |grid[0]|;
    matches := 0;
    for c := 1 to cols - 1
      invariant matches == RowXMas(grid, r, c)
    {
      if grid[r][c] == 'A' {
        var upLeftX, upLeftY := r - 1, c - 1;
        var upRightX, upRightY := r - 1, c + 1;
        if InWindow(grid, upLeftX, upLeftY) && InWindow(grid, upRightX, upRightY) {
          var targetBottomRight := Complement(grid[upLeftX][upLeftY]);
          var targetBottomLeft := Complement(grid[upRightX][upRightY]);
          if CheckCorner(grid, r + 1, c + 1, targetBottomRight) && CheckCorner(grid, r + 1, c - 1, targetBottomLeft) {
            matches := matches + 1;
          }
        }
      }
    }
  }

  /** `part2`: the number of inner "A" cells that centre a cross of two
      "MAS"; None when the grid is empty (Go reads `grid[0]`). */
  method Part2(grid: Grid) returns (matches: Option<nat>)
    requires Wide(grid)
    ensures matches.None? <==> |grid| == 0
    ensures matches.Some? ==> matches.value == XMasCount(grid)
  {
    if |grid| == 0 {
      return None;
    }
    var rows, cols := |grid|, |grid[0]|;
    if rows < 2 || cols < 2 {
      return Some(0);
    }
    var total := 0;
    for r := 1 to rows - 1
      invariant total == GridXMas(grid, r)
    {
      var inRow := XMasInRow(grid, r);
      total := total + inRow;
    }
    return Some(total);
  }

  /** A cross is the same cross upside down: mirroring the rows keeps
      every cross, since each diagonal still reads "MAS" one way or the
      other. */
  lemma XMasMirrored(grid: Grid, r: int, c: int)
    requires Rectangular(grid) && 1 <= r < |grid| - 1 && 1 <= c < |grid[0]| - 1
    ensures Rectangular(Mirror(grid)) && |Mirror(grid)[0]| == |grid[0]|
    ensures Wide(grid) && Wide(Mirror(grid))
    ensures XMasAt(Mirror(grid), |grid| - 1 - r, c) <==> XMasAt(grid, r, c)
  {
    var m := Mirror(grid);
    XMasMeaning(grid, r, c);
    XMasMeaning(m, |grid| - 1 - r, c);
  }

  /** The grid with its rows in reverse order. */
  function Mirror(grid: Grid): (m: Grid)
    ensures |m| == |grid| && forall r :: 0 <= r < |grid| ==> m[r] == grid[|grid| - 1 - r]
  {
    seq(|grid|, r requires 0 <= r < |grid| => grid[|grid| - 1 - r])
  }

  /** The example cross of the puzzle: one cross in a 3 x 3 grid. */
  lemma XMasExample()
    ensures Wide(["M.S", ".A.", "M.S"]) && XMasCount(["M.S", ".A.", "M.S"]) == 1
  {
    var g: Grid := ["M.S", ".A.", "M.S"];
    assert XMasAt(g, 1, 1);
  }

  /** `main`: both parts on the grid of letters. */
  method Solve(grid: Grid) returns (answers: Option<(nat, nat)>)
    ensures answers.None? <==> |grid| == 0 || !Wide(grid)
    ensures answers.Some? ==> Wide(grid) && answers.value == (GridCount(grid, |grid|), XMasCount(grid))
  {
    var part1 := Part1(grid);
    if part1.None? {
      return None;
    }
    var part2 := Part2(grid);
    if part2.None? {
      return None;
    }
    return Some((part1.value, part2.value));
  }
}
