/** Day 20: a race on a track through a grid of walls. A breadth first
    search numbers the cells of the track in the order it reaches them;
    a cheat jumps from one cell of the route to another within a few
    steps, through walls, and saves the difference of their numbers less
    the length of the jump. */
module Day20 {
  import opened Wrappers
  import opened GoInt
  import HashSetUtil

  /** A cell: `x` indexes the rows of the grid, `y` the columns. */
  datatype Point = Point(x: int, y: int)

  /** A jump from a cell of the route to a later one. */
  datatype Cheat = Cheat(original: Point, end: Point)

  const StartChar := 'S'
  const EndChar := 'E'
  const Wall := '#'

  /** The least saving that the answers count. */
  const Threshold := 100

  // ---------------------------------------------------------------------
  // calculateDistance and getMoves

  /** `calculateDistance`: the Manhattan distance. */
  function Distance(current: Point, neighbor: Point): (d: nat)
    ensures d == 0 <==> current == neighbor
    ensures d == Abs(neighbor.x - current.x) + Abs(neighbor.y - current.y)
  {
    Abs(current.x - neighbor.x) + Abs(current.y - neighbor.y)
  }

  /** The candidates of row `y` of `getMoves`, for the first `n` offsets
      `x` from `-cheatDistance` on. */
  function RowMoves(current: Point, cheatDistance: nat, y: int, n: nat): seq<Point>
  {
    if n == 0 then []
    else
      var neighbor := Point(current.x + (n - 1 - cheatDistance), current.y + y);
      var distance := Distance(current, neighbor);
      RowMoves(current, cheatDistance, y, n - 1) +
      (if distance > 0 && distance <= cheatDistance then [neighbor] else [])
  }

  /** The candidates of the first `m` rows of `getMoves`. */
  function GridMoves(current: Point, cheatDistance: nat, m: nat): seq<Point>
  {
    if m == 0 then []
    else GridMoves(current, cheatDistance, m - 1) +
         RowMoves(current, cheatDistance, m - 1 - cheatDistance, 2 * cheatDistance + 1)
  }

  /** The points within `cheatDistance` of `current` (not `current`
      itself), row by row and in each row from left to right. */
  function Moves(current: Point, cheatDistance: int): seq<Point>
  {
    if cheatDistance < 0 then [] else GridMoves(current, cheatDistance, 2 * cheatDistance + 1)
  }

  /** `getMoves`: two nested loops over the offsets of a square; the inner
      loop is `MovesInRow`. */
  method GetMoves(current: Point, cheatDistance: int) returns (validNeighbors: seq<Point>)
    ensures validNeighbors == Moves(current, cheatDistance)
  {
    validNeighbors := [];
    if cheatDistance < 0 {
      return;
    }
    var d: nat := cheatDistance;
    var y := 0 - d;
    while y <= d
      invariant 0 <= y + d <= 2 * d + 1
      invariant validNeighbors == GridMoves(current, d, y + d)
    {
      var row := MovesInRow(current, d, y);
      validNeighbors := validNeighbors + row;
      y := y + 1;
    }
  }

  /** The inner loop of `getMoves`: the offsets `x` from `-cheatDistance`
      to `cheatDistance` in row `y`. */
  method MovesInRow(current: Point, cheatDistance: nat, y: int) returns (row: seq<Point>)
    ensures row == RowMoves(current, cheatDistance, y, 2 * cheatDistance + 1)
  {
    row := [];
    var x := 0 - cheatDistance;
    while x <= cheatDistance
      invariant 0 <= x + cheatDistance <= 2 * cheatDistance + 1
      invariant row == RowMoves(current, cheatDistance, y, x + cheatDistance)
    {
      var neighbor := Point(current.x + x, current.y + y);
      var distance := Distance(current, neighbor);
      if distance > 0 && distance <= cheatDistance {
        row := row + [neighbor];
      }
      x := x + 1;
    }
  }

  /** `p` comes before `q` in the order `getMoves` lists them: by row
      offset, then by column offset. */
  predicate Before(p: Point, q: Point)
  {
    p.y < q.y || (p.y == q.y && p.x < q.x)
  }

  /** `p` is a candidate of `getMoves`: not `current`, and at most
      `cheatDistance` from it. */
  predicate Near(current: Point, p: Point, cheatDistance: int)
  {
    0 < Distance(current, p) <= cheatDistance
  }

  /** Row `y` holds exactly the points of that row within
      `cheatDistance` of `current`, among the first `n` columns. */
  lemma {:induction false} RowMovesMembers(current: Point, cheatDistance: nat, y: int, n: nat)
    ensures forall p :: p in RowMoves(current, cheatDistance, y, n) <==>
              p.y == current.y + y && current.x - cheatDistance <= p.x < current.x - cheatDistance + n &&
              Near(current, p, cheatDistance)
  {
    if n > 0 {
      RowMovesMembers(current, cheatDistance, y, n - 1);
    }
  }

  /** Row `y` lies in that row, left of column `n`, from left to right. */
  lemma {:induction false} RowMovesOrdered(current: Point, cheatDistance: nat, y: int, n: nat)
    ensures forall p :: p in RowMoves(current, cheatDistance, y, n) ==>
              p.y == current.y + y && p.x < current.x - cheatDistance + n
    ensures forall i, j :: 0 <= i < j < |RowMoves(current, cheatDistance, y, n)| ==>
              Before(RowMoves(current, cheatDistance, y, n)[i], RowMoves(current, cheatDistance, y, n)[j])
  {
    if n > 0 {
      RowMovesOrdered(current, cheatDistance, y, n - 1);
    }
  }

  lemma {:induction false} GridMovesMembers(current: Point, cheatDistance: nat, m: nat)
    ensures forall p :: p in GridMoves(current, cheatDistance, m) <==>
              current.y - cheatDistance <= p.y < current.y - cheatDistance + m &&
              Near(current, p, cheatDistance)
  {
    if m > 0 {
      GridMovesMembers(current, cheatDistance, m - 1);
      var y := m - 1 - cheatDistance;
      RowMovesMembers(current, cheatDistance, y, 2 * cheatDistance + 1);
      var front := GridMoves(current, cheatDistance, m - 1);
      var row := RowMoves(current, cheatDistance, y, 2 * cheatDistance + 1);
      assert GridMoves(current, cheatDistance, m) == front + row;
      forall p ensures p in front + row <==> p in front || p in row {
      }
    }
  }

  lemma {:induction false} GridMovesOrdered(current: Point, cheatDistance: nat, m: nat)
    ensures forall p :: p in GridMoves(current, cheatDistance, m) ==> p.y < current.y - cheatDistance + m
    ensures forall i, j :: 0 <= i < j < |GridMoves(current, cheatDistance, m)| ==>
              Before(GridMoves(current, cheatDistance, m)[i], GridMoves(current, cheatDistance, m)[j])
  {
    if m > 0 {
      GridMovesOrdered(current, cheatDistance, m - 1);
      var y := m - 1 - cheatDistance;
      RowMovesOrdered(current, cheatDistance, y, 2 * cheatDistance + 1);
      var front := GridMoves(current, cheatDistance, m - 1);
      var row := RowMoves(current, cheatDistance, y, 2 * cheatDistance + 1);
      assert GridMoves(current, cheatDistance, m) == front + row;
      forall i, j | 0 <= i < j < |front + row| ensures Before((front + row)[i], (front + row)[j]) {
        if j < |front| {
          assert (front + row)[i] == front[i] && (front + row)[j] == front[j];
        } else if i >= |front| {
          assert (front + row)[i] == row[i - |front|] && (front + row)[j] == row[j - |front|];
        } else {
          assert front[i] in front && row[j - |front|] in row;
        }
      }
      forall p | p in front + row ensures p.y < current.y - cheatDistance + m {
        assert p in front || p in row;
      }
    }
  }

  /** `getMoves` lists exactly the points at distance 1 to `cheatDistance`
      from `current`, each once, row by row. */
  lemma MovesSpec(current: Point, cheatDistance: int)
    ensures forall p :: p in Moves(current, cheatDistance) <==> 0 < Distance(current, p) <= cheatDistance
    ensures forall i, j :: 0 <= i < j < |Moves(current, cheatDistance)| ==>
              Before(Moves(current, cheatDistance)[i], Moves(current, cheatDistance)[j])
  {
    if cheatDistance >= 0 {
      GridMovesMembers(current, cheatDistance, 2 * cheatDistance + 1);
      GridMovesOrdered(current, cheatDistance, 2 * cheatDistance + 1);
    }
  }

  /** The four neighbours, in the order the search tries them: up a
      column, up a row, down a row, down a column. */
  lemma MovesOne(current: Point)
    ensures Moves(current, 1) == [Point(current.x, current.y - 1), Point(current.x - 1, current.y),
                                  Point(current.x + 1, current.y), Point(current.x, current.y + 1)]
  {
    var x, y := current.x, current.y;
    assert RowMoves(current, 1, -1, 1) == [];
    assert RowMoves(current, 1, -1, 2) == [Point(x, y - 1)];
    assert RowMoves(current, 1, -1, 3) == [Point(x, y - 1)];
    assert RowMoves(current, 1, 0, 1) == [Point(x - 1, y)];
    assert RowMoves(current, 1, 0, 2) == [Point(x - 1, y)];
    assert RowMoves(current, 1, 0, 3) == [Point(x - 1, y), Point(x + 1, y)];
    assert RowMoves(current, 1, 1, 1) == [];
    assert RowMoves(current, 1, 1, 2) == [Point(x, y + 1)];
    assert RowMoves(current, 1, 1, 3) == [Point(x, y + 1)];
    assert GridMoves(current, 1, 1) == [Point(x, y - 1)];
    assert GridMoves(current, 1, 2) == [Point(x, y - 1), Point(x - 1, y), Point(x + 1, y)];
  }

  // ---------------------------------------------------------------------
  // find

  /** Cell (r, c) lies before (r', c') in row-major order. */
  predicate RowMajor(r: int, c: int, r': int, c': int)
  {
    r < r' || (r == r' && c < c')
  }

  /** `p` is what `find` returns when it does not panic: the first cell
      holding `target` in row-major order over the first `len(grid[0])`
      columns of every row, or (-1, -1) when those columns hold none. */
  ghost predicate First(target: char, grid: seq<seq<char>>, p: Point)
  {
    |grid| > 0 &&
    if p == Point(-1, -1) then
      forall i, j :: 0 <= i < |grid| && 0 <= j < |grid[0]| ==> j < |grid[i]| && grid[i][j] != target
    else
      0 <= p.x < |grid| && 0 <= p.y < |grid[0]| && p.y < |grid[p.x]| && grid[p.x][p.y] == target &&
      forall i, j :: 0 <= i < |grid| && 0 <= j < |grid[0]| && RowMajor(i, j, p.x, p.y) ==>
        j < |grid[i]| && grid[i][j] != target
  }

  /** `find`'s answer is determined by the grid. */
  lemma FirstUnique(target: char, grid: seq<seq<char>>, p: Point, q: Point)
    requires First(target, grid, p) && First(target, grid, q)
    ensures p == q
  {
  }

  /** `find`: the scan is `First`; None when the grid is empty or the scan
      indexes past a shorter row (Go panics). */
  method Find(target: char, grid: seq<seq<char>>) returns (r: Option<Point>)
    ensures r.Some? ==> First(target, grid, r.value)
    ensures r.None? ==> |grid| == 0 || exists i :: 0 <= i < |grid| && |grid[i]| < |grid[0]|
    ensures (|grid| > 0 && forall i :: 0 <= i < |grid| ==> |grid[i]| == |grid[0]|) ==> r.Some?
  {
    if |grid| == 0 {
      return None;
    }
    var rows, cols := |grid|, |grid[0]|;
    for row := 0 to rows
      invariant forall i, j :: 0 <= i < row && 0 <= j < cols ==> j < |grid[i]| && grid[i][j] != target
      invariant forall i :: 0 <= i < row ==> |grid[i]| >= cols
    {
      for c := 0 to cols
        invariant forall i, j :: 0 <= i < row && 0 <= j < cols ==> j < |grid[i]| && grid[i][j] != target
        invariant c <= |grid[row]|
        invariant forall j :: 0 <= j < c ==> grid[row][j] != target
      {
        if c >= |grid[row]| {
          return None;
        }
        if grid[row][c] == target {
          return Some(Point(row, c));
        }
      }
    }
    return Some(Point(-1, -1));
  }

  // ---------------------------------------------------------------------
  // bfs

  /** Cell `p` can be indexed: Go's `grid[p.x][p.y]` does not panic. */
  predicate InGrid(grid: seq<seq<char>>, p: Point)
  {
    0 <= p.x < |grid| && 0 <= p.y < |grid[p.x]|
  }

  /** Cell `p` is in the grid and not a wall. */
  predicate Open(grid: seq<seq<char>>, p: Point)
  {
    InGrid(grid, p) && grid[p.x][p.y] != Wall
  }

  /** The cells that are not walls. */
  function OpenCells(grid: seq<seq<char>>): set<Point>
  {
    set x, y | 0 <= x < |grid| && 0 <= y < |grid[x]| && grid[x][y] != Wall :: Point(x, y)
  }

  lemma OpenCell(grid: seq<seq<char>>, p: Point)
    requires Open(grid, p)
    ensures p in OpenCells(grid)
  {
    assert p == Point(p.x, p.y);
  }

  /** The cells the search can ever hold: the start and the open cells. */
  function Area(grid: seq<seq<char>>, start: Point): set<Point>
  {
    OpenCells(grid) + {start}
  }

  /** The visited cells and the queued cells all lie in the area. */
  predicate Inside(grid: seq<seq<char>>, start: Point, visited: map<Point, int>, queue: seq<Point>)
  {
    visited.Keys <= Area(grid, start) && forall i :: 0 <= i < |queue| ==> queue[i] in Area(grid, start)
  }

  /** The inner loop of `bfs` over the neighbours `moves`: a visited
      neighbour is skipped, one outside the grid panics (None), a wall is
      skipped and any other is appended to the queue. */
  function Pushes(grid: seq<seq<char>>, visited: map<Point, int>, moves: seq<Point>, queue: seq<Point>): (r: Option<seq<Point>>)
    ensures r.None? <==> exists i :: 0 <= i < |moves| && moves[i] !in visited && !InGrid(grid, moves[i])
    ensures r.Some? ==> |queue| <= |r.value| <= |queue| + |moves| && r.value[..|queue|] == queue
    ensures r.Some? ==> forall p :: p in r.value[|queue|..] <==> p in moves && p !in visited && Open(grid, p)
  {
    if |moves| == 0 then Some(queue)
    else
      var m := moves[0];
      var rest := moves[1..];
      assert forall p :: p in moves <==> p == m || p in rest;
      var r := if m in visited || (InGrid(grid, m) && grid[m.x][m.y] == Wall) then Pushes(grid, visited, rest, queue)
               else if !InGrid(grid, m) then None
               else Pushes(grid, visited, rest, queue + [m]);
      assert r.None? ==> exists i :: 0 <= i < |moves| && moves[i] !in visited && !InGrid(grid, moves[i]) by {
        if r.None? && !(m !in visited && !InGrid(grid, m)) {
          var i :| 0 <= i < |rest| && rest[i] !in visited && !InGrid(grid, rest[i]);
          assert moves[i + 1] == rest[i];
        }
      }
      assert (exists i :: 0 <= i < |moves| && moves[i] !in visited && !InGrid(grid, moves[i])) ==> r.None? by {
        if exists i :: 0 <= i < |moves| && moves[i] !in visited && !InGrid(grid, moves[i]) {
          var i :| 0 <= i < |moves| && moves[i] !in visited && !InGrid(grid, moves[i]);
          if i > 0 {
            assert rest[i - 1] == moves[i];
          }
        }
      }
      assert r.Some? && !(m in visited || (InGrid(grid, m) && grid[m.x][m.y] == Wall)) ==>
             r.value[|queue|..] == [m] + r.value[|queue| + 1..];
      r
  }

  /** The search's measure of the queue: 5 for a cell already numbered, 1
      for one that is not. */
  function Weight(queue: seq<Point>, visited: map<Point, int>): nat
  {
    if |queue| == 0 then 0 else (if queue[0] in visited then 5 else 1) + Weight(queue[1..], visited)
  }

  lemma {:induction false} WeightAppend(a: seq<Point>, b: seq<Point>, visited: map<Point, int>)
    ensures Weight(a + b, visited) == Weight(a, visited) + Weight(b, visited)
  {
    if |a| > 0 {
      assert (a + b)[1..] == a[1..] + b;
      WeightAppend(a[1..], b, visited);
    } else {
      assert a + b == b;
    }
  }

  lemma {:induction false} WeightFresh(a: seq<Point>, visited: map<Point, int>)
    requires forall i :: 0 <= i < |a| ==> a[i] !in visited
    ensures Weight(a, visited) == |a|
  {
    if |a| > 0 {
      WeightFresh(a[1..], visited);
    }
  }

  lemma WeightSameKeys(a: seq<Point>, visited: map<Point, int>, marked: map<Point, int>)
    requires visited.Keys == marked.Keys
    ensures Weight(a, visited) == Weight(a, marked)
  {
  }

  /** One round of the search keeps every cell in the area and shrinks the
      measure: either a new cell is numbered, or a stale queue entry (weight
      5) is replaced by at most four new ones (weight 1 each). */
  lemma ExploreStep(grid: seq<seq<char>>, start: Point, visited: map<Point, int>, queue: seq<Point>,
                    marked: map<Point, int>, next: seq<Point>)
    requires Inside(grid, start, visited, queue) && |queue| > 0
    requires marked == visited[queue[0] := |visited|]
    requires Pushes(grid, marked, Moves(queue[0], 1), queue[1..]) == Some(next)
    ensures Inside(grid, start, marked, next)
    ensures |Area(grid, start) - marked.Keys| < |Area(grid, start) - visited.Keys| ||
            (|Area(grid, start) - marked.Keys| == |Area(grid, start) - visited.Keys| &&
             Weight(next, marked) < Weight(queue, visited))
  {
    StepInside(grid, start, visited, queue, marked, next);
    if queue[0] in visited {
      StepStale(grid, visited, queue, marked, next);
    } else {
      assert marked.Keys == visited.Keys + {queue[0]};
      Shrinks(Area(grid, start), visited.Keys, queue[0]);
    }
  }

  /** Numbering a new cell of the area leaves fewer cells to number. */
  lemma Shrinks(area: set<Point>, keys: set<Point>, p: Point)
    requires p in area && p !in keys
    ensures |area - (keys + {p})| < |area - keys|
  {
    assert area - (keys + {p}) == (area - keys) - {p};
  }

  /** The cells a round queues are open. */
  lemma StepInside(grid: seq<seq<char>>, start: Point, visited: map<Point, int>, queue: seq<Point>,
                   marked: map<Point, int>, next: seq<Point>)
    requires Inside(grid, start, visited, queue) && |queue| > 0
    requires marked == visited[queue[0] := |visited|]
    requires Pushes(grid, marked, Moves(queue[0], 1), queue[1..]) == Some(next)
    ensures Inside(grid, start, marked, next)
  {
    var rest := queue[1..];
    var tail := next[|rest|..];
    forall i | 0 <= i < |next| ensures next[i] in Area(grid, start) {
      if i >= |rest| {
        assert tail[i - |rest|] in tail;
        OpenCell(grid, next[i]);
      } else {
        assert next[i] == queue[i + 1];
      }
    }
  }

  /** Dequeuing a cell numbered before lowers the weight of the queue: it
      loses 5 and gains at most 1 for each of the four neighbours. */
  lemma StepStale(grid: seq<seq<char>>, visited: map<Point, int>, queue: seq<Point>,
                  marked: map<Point, int>, next: seq<Point>)
    requires |queue| > 0 && queue[0] in visited
    requires marked == visited[queue[0] := |visited|]
    requires Pushes(grid, marked, Moves(queue[0], 1), queue[1..]) == Some(next)
    ensures marked.Keys == visited.Keys && Weight(next, marked) < Weight(queue, visited)
  {
    var rest := queue[1..];
    var tail := next[|rest|..];
    assert next == rest + tail;
    MovesOne(queue[0]);
    WeightAppend(rest, tail, marked);
    WeightSameKeys(rest, visited, marked);
    forall i | 0 <= i < |tail| ensures tail[i] !in marked {
      assert tail[i] in tail;
    }
    WeightFresh(tail, marked);
  }

  /** The loop of `bfs` from a given state: the cell at the head of the
      queue is numbered with the count of cells numbered so far (a cell
      dequeued a second time is numbered again); the search stops with the
      numbering when that cell is the end, and otherwise queues the
      neighbours that are open and not yet numbered. A drained queue
      yields Go's nil map, which reads as empty. */
  function Explore(grid: seq<seq<char>>, start: Point, end: Point, visited: map<Point, int>, queue: seq<Point>): Option<map<Point, int>>
    requires Inside(grid, start, visited, queue)
    decreases |Area(grid, start) - visited.Keys|, Weight(queue, visited)
  {
    if |queue| == 0 then Some(map[])
    else
      var current := queue[0];
      var marked := visited[current := |visited|];
      if current == end then Some(marked)
      else
        match Pushes(grid, marked, Moves(current, 1), queue[1..])
        case None => None
        case Some(next) =>
          ExploreStep(grid, start, visited, queue, marked, next);
          Explore(grid, start, end, marked, next)
  }

  /** `bfs`. */
  method Bfs(grid: seq<seq<char>>, start: Point, end: Point) returns (route: Option<map<Point, int>>)
    ensures route == Explore(grid, start, end, map[], [start])
  {
    var visited: map<Point, int> := map[];
    var queue := [start];
    while |queue| > 0
      invariant Inside(grid, start, visited, queue)
      invariant Explore(grid, start, end, visited, queue) == Explore(grid, start, end, map[], [start])
      decreases |Area(grid, start) - visited.Keys|, Weight(queue, visited)
    {
      ghost var visited0, queue0 := visited, queue;
      var current := queue[0];
      queue := queue[1..];
      visited := visited[current := |visited|];
      if current == end {
        return Some(visited);
      }
      var moves := GetMoves(current, 1);
      var next := PushMoves(grid, visited, moves, queue);
      if next.None? {
        return None;
      }
      queue := next.value;
      ExploreStep(grid, start, visited0, queue0, visited, queue);
    }
    return Some(map[]);
  }

  /** The inner loop of `bfs` over the neighbours of the dequeued cell. */
  method PushMoves(grid: seq<seq<char>>, visited: map<Point, int>, moves: seq<Point>, queue0: seq<Point>)
    returns (next: Option<seq<Point>>)
    ensures next == Pushes(grid, visited, moves, queue0)
  {
    var queue := queue0;
    for i := 0 to |moves|
      invariant Pushes(grid, visited, moves[i..], queue) == Pushes(grid, visited, moves, queue0)
    {
      var possibleMove := moves[i];
      assert moves[i..][1..] == moves[i + 1..];
      if possibleMove in visited {
        continue;
      }
      if !InGrid(grid, possibleMove) {
        return None;
      }
      if grid[possibleMove.x][possibleMove.y] == Wall {
        continue;
      }
      queue := queue + [possibleMove];
    }
    return Some(queue);
  }

  /** The state before the first round, or a later one: the start has
      been numbered 0 and is not queued again. */
  predicate StartFirst(start: Point, visited: map<Point, int>, queue: seq<Point>)
  {
    (visited == map[] && queue == [start]) || (start in visited && visited[start] == 0 && start !in queue)
  }

  /** A result of the search that is not empty holds the start, numbered
      0, the end, numbered last (the count of cells before it), every cell
      numbered in `visited`, and nothing outside the start and the open
      cells. */
  ghost predicate Numbering(grid: seq<seq<char>>, start: Point, end: Point, visited: map<Point, int>, r: Option<map<Point, int>>)
  {
    r.Some? ==>
      var m := r.value;
      m == map[] ||
      (start in m && m[start] == 0 && end in m && m[end] == |m| - 1 &&
       visited.Keys <= m.Keys && m.Keys <= Area(grid, start))
  }

  lemma {:induction false} ExploreResult(grid: seq<seq<char>>, start: Point, end: Point, visited: map<Point, int>, queue: seq<Point>)
    requires Inside(grid, start, visited, queue) && StartFirst(start, visited, queue) && end !in visited
    ensures Numbering(grid, start, end, visited, Explore(grid, start, end, visited, queue))
    decreases |Area(grid, start) - visited.Keys|, Weight(queue, visited)
  {
    if |queue| > 0 {
      var current := queue[0];
      var marked := visited[current := |visited|];
      if current == end {
        assert |marked| == |visited| + 1;
      } else {
        match Pushes(grid, marked, Moves(current, 1), queue[1..])
        case None =>
        case Some(next) =>
          ExploreStep(grid, start, visited, queue, marked, next);
          StartStaysFirst(grid, start, visited, queue, marked, next);
          ExploreResult(grid, start, end, marked, next);
          assert Explore(grid, start, end, visited, queue) == Explore(grid, start, end, marked, next);
      }
    }
  }

  /** A round of the search never queues the start again. */
  lemma StartStaysFirst(grid: seq<seq<char>>, start: Point, visited: map<Point, int>, queue: seq<Point>,
                        marked: map<Point, int>, next: seq<Point>)
    requires StartFirst(start, visited, queue) && |queue| > 0
    requires marked == visited[queue[0] := |visited|]
    requires Pushes(grid, marked, Moves(queue[0], 1), queue[1..]) == Some(next)
    ensures StartFirst(start, marked, next)
  {
    assert start !in next[|queue| - 1..];
    assert next == next[..|queue| - 1] + next[|queue| - 1..];
  }

  /** `bfs` from the start: see `ExploreResult`. */
  lemma BfsResult(grid: seq<seq<char>>, start: Point, end: Point)
    ensures Explore(grid, start, end, map[], [start]).Some? ==>
              var m := Explore(grid, start, end, map[], [start]).value;
              m == map[] ||
              (start in m && m[start] == 0 && end in m && m[end] == |m| - 1 && m.Keys <= Area(grid, start))
  {
    ExploreResult(grid, start, end, map[], [start]);
  }

  // ---------------------------------------------------------------------
  // The race track

  /** The numbering of a route: its i-th cell gets i. */
  function RouteOf(w: seq<Point>): map<Point, int>
  {
    if |w| == 0 then map[] else RouteOf(w[..|w| - 1])[w[|w| - 1] := |w| - 1]
  }

  predicate Distinct(w: seq<Point>)
  {
    forall i, j :: 0 <= i < j < |w| ==> w[i] != w[j]
  }

  /** For a route without repeats, `RouteOf` numbers exactly its cells,
      each with its position. */
  lemma {:induction false} RouteOfSpec(w: seq<Point>)
    requires Distinct(w)
    ensures forall p :: p in RouteOf(w) <==> p in w
    ensures forall i :: 0 <= i < |w| ==> RouteOf(w)[w[i]] == i
    ensures |RouteOf(w)| == |w|
  {
    if |w| > 0 {
      var front := w[..|w| - 1];
      RouteOfSpec(front);
      assert w == front + [w[|w| - 1]];
      assert w[|w| - 1] !in RouteOf(front);
    }
  }

  /** The puzzle's race track: a single path of open cells from the start
      to the end, each step to a neighbouring cell, every other neighbour of
      a cell before the end being a wall inside the grid. */
  ghost predicate Racetrack(grid: seq<seq<char>>, w: seq<Point>)
  {
    |w| > 0 && Distinct(w) &&
    (forall i :: 0 <= i < |w| ==> Open(grid, w[i])) &&
    (forall i :: 0 <= i < |w| - 1 ==> Walled(grid, w, i))
  }

  /** The i-th cell of the track neighbours the next one, and its other
      neighbours but the previous one are walls inside the grid. */
  ghost predicate Walled(grid: seq<seq<char>>, w: seq<Point>, i: int)
    requires 0 <= i < |w| - 1
  {
    Distance(w[i], w[i + 1]) == 1 &&
    forall p :: Distance(w[i], p) == 1 ==>
      p == w[i + 1] || (i > 0 && p == w[i - 1]) || (InGrid(grid, p) && grid[p.x][p.y] == Wall)
  }

  /** The neighbour loop queues exactly `next` when every other neighbour
      is numbered already or a wall. */
  lemma {:induction false} PushesOne(grid: seq<seq<char>>, visited: map<Point, int>, moves: seq<Point>, queue: seq<Point>, next: Point)
    requires Open(grid, next) && next !in visited && Distinct(moves)
    requires forall i :: 0 <= i < |moves| ==>
               moves[i] == next || moves[i] in visited || (InGrid(grid, moves[i]) && grid[moves[i].x][moves[i].y] == Wall)
    ensures Pushes(grid, visited, moves, queue) == Some(queue + (if next in moves then [next] else []))
  {
    if |moves| > 0 {
      var rest := moves[1..];
      assert Distinct(rest);
      assert next in moves <==> next == moves[0] || next in rest;
      if moves[0] == next {
        assert next !in rest;
        assert Pushes(grid, visited, moves, queue) == Pushes(grid, visited, rest, queue + [next]);
        PushesOne(grid, visited, rest, queue + [next], next);
        assert queue + [next] + [] == queue + [next];
      } else {
        PushesOne(grid, visited, rest, queue, next);
      }
    } else {
      assert queue + [] == queue;
    }
  }

  /** Numbering the first k cells of the track and queueing the k-th
      keeps the search inside its area. */
  lemma TrackInside(grid: seq<seq<char>>, w: seq<Point>, k: nat)
    requires Racetrack(grid, w) && k < |w|
    ensures Inside(grid, w[0], RouteOf(w[..k]), [w[k]])
  {
    RouteOfSpec(w[..k]);
    forall p | p in RouteOf(w[..k]).Keys ensures p in Area(grid, w[0]) {
      var i :| 0 <= i < k && w[..k][i] == p;
      OpenCell(grid, w[i]);
    }
    OpenCell(grid, w[k]);
  }

  /** With the first k + 1 cells of the track numbered, the neighbour loop
      at the k-th queues exactly the next cell of the track. */
  lemma TrackPushes(grid: seq<seq<char>>, w: seq<Point>, k: nat)
    requires Racetrack(grid, w) && k < |w| - 1
    ensures Pushes(grid, RouteOf(w[..k + 1]), Moves(w[k], 1), []) == Some([w[k + 1]])
  {
    var marked := RouteOf(w[..k + 1]);
    RouteOfSpec(w[..k + 1]);
    var moves := Moves(w[k], 1);
    MovesSpec(w[k], 1);
    assert Distinct(moves) by {
      forall i, j | 0 <= i < j < |moves| ensures moves[i] != moves[j] {
        assert Before(moves[i], moves[j]);
      }
    }
    assert w[k + 1] !in marked;
    assert Walled(grid, w, k);
    forall i | 0 <= i < |moves|
      ensures moves[i] == w[k + 1] || moves[i] in marked || (InGrid(grid, moves[i]) && grid[moves[i].x][moves[i].y] == Wall)
    {
      assert moves[i] in moves;
      if k > 0 && moves[i] == w[k - 1] {
        assert w[..k + 1][k - 1] == w[k - 1];
      }
    }
    assert w[k + 1] in moves;
    PushesOne(grid, marked, moves, [], w[k + 1]);
    assert [] + [w[k + 1]] == [w[k + 1]];
  }

  /** Numbering the k-th cell of the track extends the numbering of the
      first k by a new cell. */
  lemma TrackMark(w: seq<Point>, k: nat)
    requires Distinct(w) && k < |w|
    ensures w[k] !in RouteOf(w[..k])
    ensures RouteOf(w[..k])[w[k] := |RouteOf(w[..k])|] == RouteOf(w[..k + 1])
  {
    assert Distinct(w[..k]);
    RouteOfSpec(w[..k]);
    assert w[..k + 1][..k] == w[..k];
  }

  /** From the state where the first k cells of the track are numbered and
      the k-th is queued, the search numbers the rest of the track. */
  lemma {:induction false} TrackStep(grid: seq<seq<char>>, w: seq<Point>, k: nat)
    requires Racetrack(grid, w) && k < |w|
    ensures Inside(grid, w[0], RouteOf(w[..k]), [w[k]])
    ensures Explore(grid, w[0], w[|w| - 1], RouteOf(w[..k]), [w[k]]) == Some(RouteOf(w))
    decreases |w| - k
  {
    TrackInside(grid, w, k);
    TrackMark(w, k);
    if k == |w| - 1 {
      assert w[..k + 1] == w;
    } else {
      assert w[k] != w[|w| - 1];
      TrackPushes(grid, w, k);
      TrackStep(grid, w, k + 1);
    }
  }

  /** On the puzzle's race track `bfs` numbers every cell of the track
      with its position on it, and nothing else. */
  lemma TrackRoute(grid: seq<seq<char>>, w: seq<Point>)
    requires Racetrack(grid, w)
    ensures Explore(grid, w[0], w[|w| - 1], map[], [w[0]]) == Some(RouteOf(w))
  {
    TrackStep(grid, w, 0);
    assert w[..0] == [];
  }

  // ---------------------------------------------------------------------
  // findCheatPaths

  /** Go's map read: the zero value for a missing key. */
  function Get(route: map<Point, int>, p: Point): int
  {
    if p in route then route[p] else 0
  }

  /** What a cheat saves: the number of its end less the number of its
      start less the length of the jump. */
  function Saving(route: map<Point, int>, c: Cheat): int
  {
    Get(route, c.end) - Get(route, c.original) - Distance(c.original, c.end)
  }

  /** A cheat `findCheatPaths` records: both ends numbered, at most
      `cheatDistance` apart, and a positive saving. */
  predicate Recorded(route: map<Point, int>, cheatDistance: int, c: Cheat)
  {
    c.original in route && c.end in route && Near(c.original, c.end, cheatDistance) && Saving(route, c) > 0
  }

  /** The cheats that save at least `least`. */
  function AtLeast(route: map<Point, int>, cheatDistance: int, least: int): set<Cheat>
  {
    set a, b | a in route && b in route && Recorded(route, cheatDistance, Cheat(a, b)) &&
               Saving(route, Cheat(a, b)) >= least :: Cheat(a, b)
  }

  /** The cheats that save exactly `saving`. */
  function SavedBy(route: map<Point, int>, cheatDistance: int, saving: int): set<Cheat>
  {
    set a, b | a in route && b in route && Recorded(route, cheatDistance, Cheat(a, b)) &&
               Saving(route, Cheat(a, b)) == saving :: Cheat(a, b)
  }

  lemma AtLeastSpec(route: map<Point, int>, cheatDistance: int, least: int)
    ensures forall c :: c in AtLeast(route, cheatDistance, least) <==>
              Recorded(route, cheatDistance, c) && Saving(route, c) >= least
  {
    forall c | Recorded(route, cheatDistance, c) && Saving(route, c) >= least
      ensures c in AtLeast(route, cheatDistance, least)
    {
      assert c == Cheat(c.original, c.end);
    }
  }

  lemma SavedBySpec(route: map<Point, int>, cheatDistance: int, saving: int)
    ensures forall c :: c in SavedBy(route, cheatDistance, saving) <==>
              Recorded(route, cheatDistance, c) && Saving(route, c) == saving
  {
    forall c | Recorded(route, cheatDistance, c) && Saving(route, c) == saving
      ensures c in SavedBy(route, cheatDistance, saving)
    {
      assert c == Cheat(c.original, c.end);
    }
  }

  /** The first loop of `findCheatPaths`: every numbered cell, in Go's map
      order, against every point within `cheatDistance` of it; a point that
      is numbered and saves something records the cheat with its saving. */
  method RecordCheats(route: map<Point, int>, cheatDistance: int) returns (cheats: map<Cheat, int>)
    ensures forall c :: c in cheats <==> Recorded(route, cheatDistance, c)
    ensures forall c :: c in cheats ==> cheats[c] == Saving(route, c)
  {
    cheats := map[];
    var steps := HashSetUtil.Elements(route.Keys);
    for i := 0 to |steps|
      invariant forall c :: c in cheats <==> Recorded(route, cheatDistance, c) && c.original in steps[..i]
      invariant forall c :: c in cheats ==> cheats[c] == Saving(route, c)
    {
      var currentStep := steps[i];
      var potentialMoves := GetMoves(currentStep, cheatDistance);
      MovesSpec(currentStep, cheatDistance);
      assert steps[..i + 1] == steps[..i] + [currentStep];
      cheats := RecordFrom(route, cheatDistance, currentStep, potentialMoves, cheats);
    }
    assert steps[..|steps|] == steps;
  }

  /** The inner loop of `findCheatPaths` for one numbered cell: each of
      the candidate points that is numbered and saves something records
      the cheat from that cell with its saving. */
  method RecordFrom(route: map<Point, int>, cheatDistance: int, currentStep: Point, potentialMoves: seq<Point>,
                    cheats0: map<Cheat, int>) returns (cheats: map<Cheat, int>)
    requires currentStep in route
    requires forall p :: p in potentialMoves <==> Near(currentStep, p, cheatDistance)
    requires forall c :: c in cheats0 ==> cheats0[c] == Saving(route, c)
    ensures forall c :: c in cheats <==> c in cheats0 || (c.original == currentStep && Recorded(route, cheatDistance, c))
    ensures forall c :: c in cheats ==> cheats[c] == Saving(route, c)
  {
    cheats := cheats0;
    var routeDistance := route[currentStep];
    for j := 0 to |potentialMoves|
      invariant forall c :: c in cheats <==>
                  (c in cheats0 || (c.original == currentStep && c.end in potentialMoves[..j] && Recorded(route, cheatDistance, c)))
      invariant forall c :: c in cheats ==> cheats[c] == Saving(route, c)
    {
      var possibleMove := potentialMoves[j];
      assert potentialMoves[..j + 1] == potentialMoves[..j] + [possibleMove];
      if possibleMove in route {
        var currentRouteDistance := route[possibleMove];
        var distanceSaved := currentRouteDistance - routeDistance - Distance(currentStep, possibleMove);
        if distanceSaved > 0 {
          cheats := cheats[Cheat(currentStep, possibleMove) := distanceSaved];
        }
      }
    }
    assert potentialMoves[..|potentialMoves|] == potentialMoves;
  }

  /** The cheats among `seen` that save `saving`. */
  function Tally(seen: set<Cheat>, cheats: map<Cheat, int>, saving: int): set<Cheat>
  {
    set c | c in seen && c in cheats && cheats[c] == saving
  }

  /** Counting one more cheat adds it to the tally of its own saving
      only. */
  lemma TallyStep(seen: set<Cheat>, cheats: map<Cheat, int>, c: Cheat, saving: int)
    requires c in cheats && c !in seen
    ensures Tally(seen + {c}, cheats, saving) ==
            Tally(seen, cheats, saving) + (if cheats[c] == saving then {c} else {})
    ensures c !in Tally(seen, cheats, saving)
  {
  }

  /** `cheatRoute` counts, for each saving, the cheats among `seen` that
      save that much. */
  ghost predicate Counts(cheatRoute: map<int, int>, seen: set<Cheat>, cheats: map<Cheat, int>)
  {
    forall s :: (s in cheatRoute <==> |Tally(seen, cheats, s)| > 0) &&
                (s in cheatRoute ==> cheatRoute[s] == |Tally(seen, cheats, s)|)
  }

  /** `cheatRoute[distance]++` counts one more cheat. */
  lemma CountStep(cheatRoute: map<int, int>, seen: set<Cheat>, cheats: map<Cheat, int>, c: Cheat)
    requires Counts(cheatRoute, seen, cheats) && c in cheats && c !in seen
    ensures var distance := cheats[c];
            Counts(cheatRoute[distance := (if distance in cheatRoute then cheatRoute[distance] else 0) + 1], seen + {c}, cheats)
  {
    forall s ensures Tally(seen + {c}, cheats, s) == Tally(seen, cheats, s) + (if cheats[c] == s then {c} else {})
      && c !in Tally(seen, cheats, s) {
      TallyStep(seen, cheats, c, s);
    }
  }

  /** The cheats of a map that save `saving`. */
  function WithSaving(cheats: map<Cheat, int>, saving: int): set<Cheat>
  {
    set c | c in cheats && cheats[c] == saving
  }

  /** The second loop of `findCheatPaths`: how many recorded cheats save
      each amount, counting over the cheats in Go's map order. */
  method CountSavings(cheats: map<Cheat, int>) returns (cheatRoute: map<int, int>)
    ensures forall s :: s in cheatRoute <==> WithSaving(cheats, s) != {}
    ensures forall s :: s in cheatRoute ==> cheatRoute[s] == |WithSaving(cheats, s)|
  {
    cheatRoute := map[];
    var keys := HashSetUtil.Elements(cheats.Keys);
    ghost var seen: set<Cheat> := {};
    for i := 0 to |keys|
      invariant forall j :: 0 <= j < i ==> keys[j] in seen
      invariant forall j :: i <= j < |keys| ==> keys[j] !in seen
      invariant Counts(cheatRoute, seen, cheats)
    {
      var c := keys[i];
      var distance := cheats[c];
      CountStep(cheatRoute, seen, cheats, c);
      seen := seen + {c};
      cheatRoute := cheatRoute[distance := (if distance in cheatRoute then cheatRoute[distance] else 0) + 1];
    }
    forall s ensures Tally(seen, cheats, s) == WithSaving(cheats, s) {
      forall c | c in WithSaving(cheats, s) ensures c in seen {
        assert c in keys;
      }
    }
  }

  /** `findCheatPaths`: for each saving, the number of recorded cheats that
      save exactly that much. */
  method FindCheatPaths(route: map<Point, int>, cheatDistance: int) returns (cheatRoute: map<int, int>)
    ensures forall s :: s in cheatRoute <==> SavedBy(route, cheatDistance, s) != {}
    ensures forall s :: s in cheatRoute ==> cheatRoute[s] == |SavedBy(route, cheatDistance, s)|
  {
    var cheats := RecordCheats(route, cheatDistance);
    cheatRoute := CountSavings(cheats);
    forall s ensures SavedBy(route, cheatDistance, s) == WithSaving(cheats, s) {
      SavedByCheats(route, cheatDistance, cheats, s);
    }
  }

  /** The cheats of a saving are those the recorded map gives it. */
  lemma SavedByCheats(route: map<Point, int>, cheatDistance: int, cheats: map<Cheat, int>, saving: int)
    requires forall c :: c in cheats <==> Recorded(route, cheatDistance, c)
    requires forall c :: c in cheats ==> cheats[c] == Saving(route, c)
    ensures SavedBy(route, cheatDistance, saving) == WithSaving(cheats, saving)
  {
    SavedBySpec(route, cheatDistance, saving);
  }

  // ---------------------------------------------------------------------
  // part1, part2 and main

  /** The cheats saving at least `Threshold` whose saving is among
      `listed`. */
  function Counted(route: map<Point, int>, cheatDistance: int, listed: seq<int>): set<Cheat>
  {
    set c | c in AtLeast(route, cheatDistance, Threshold) && Saving(route, c) in listed
  }

  /** Adding a new saving to the listing adds the cheats of that saving,
      when it reaches the threshold, and none of them were counted. */
  lemma CountedStep(route: map<Point, int>, cheatDistance: int, listed: seq<int>, saving: int)
    requires saving !in listed
    ensures Counted(route, cheatDistance, listed + [saving]) ==
            Counted(route, cheatDistance, listed) + (if saving >= Threshold then SavedBy(route, cheatDistance, saving) else {})
    ensures Counted(route, cheatDistance, listed) * SavedBy(route, cheatDistance, saving) == {}
  {
    AtLeastSpec(route, cheatDistance, Threshold);
    SavedBySpec(route, cheatDistance, saving);
  }

  /** `part1` and `part2` with the given cheat distance: the number of
      cheats that save at least `Threshold`, summed over the savings
      `findCheatPaths` counts; None when the search panics. */
  method Part(grid: seq<seq<char>>, start: Point, end: Point, cheatDistance: int) returns (totalSaved: Option<int>)
    ensures totalSaved.None? <==> Explore(grid, start, end, map[], [start]).None?
    ensures totalSaved.Some? ==>
              totalSaved.value == |AtLeast(Explore(grid, start, end, map[], [start]).value, cheatDistance, Threshold)|
  {
    var originalRoute := Bfs(grid, start, end);
    if originalRoute.None? {
      return None;
    }
    var route := originalRoute.value;
    var cheatRoute := FindCheatPaths(route, cheatDistance);
    var distances := HashSetUtil.Elements(cheatRoute.Keys);
    var total := 0;
    for i := 0 to |distances|
      invariant total == |Counted(route, cheatDistance, distances[..i])|
    {
      var distance := distances[i];
      assert distances[..i + 1] == distances[..i] + [distance];
      CountedStep(route, cheatDistance, distances[..i], distance);
      if distance >= Threshold {
        total := total + cheatRoute[distance];
      }
    }
    assert distances[..|distances|] == distances;
    CountedAll(route, cheatDistance, cheatRoute, distances);
    return Some(total);
  }

  /** Once every saving `findCheatPaths` reports is listed, every cheat
      over the threshold is counted. */
  lemma CountedAll(route: map<Point, int>, cheatDistance: int, cheatRoute: map<int, int>, distances: seq<int>)
    requires forall s :: s in cheatRoute <==> SavedBy(route, cheatDistance, s) != {}
    requires forall s :: s in distances <==> s in cheatRoute
    ensures Counted(route, cheatDistance, distances) == AtLeast(route, cheatDistance, Threshold)
  {
    AtLeastSpec(route, cheatDistance, Threshold);
    forall c | c in AtLeast(route, cheatDistance, Threshold) ensures c in Counted(route, cheatDistance, distances) {
      SavedBySpec(route, cheatDistance, Saving(route, c));
      assert c in SavedBy(route, cheatDistance, Saving(route, c));
    }
  }

  /** On the race track a cheat from the i-th cell to the j-th counts
      exactly when the jump is at most `cheatDistance` long and saves at
      least `least` and something: the steps skipped less the jump. Every
      counted cheat starts and ends on the track. */
  lemma TrackCheats(w: seq<Point>, cheatDistance: int, least: int)
    requires Distinct(w)
    ensures forall i, j :: 0 <= i < |w| && 0 <= j < |w| ==>
              (Cheat(w[i], w[j]) in AtLeast(RouteOf(w), cheatDistance, least) <==>
               0 < Distance(w[i], w[j]) <= cheatDistance && j - i - Distance(w[i], w[j]) > 0 &&
               j - i - Distance(w[i], w[j]) >= least)
    ensures forall c :: c in AtLeast(RouteOf(w), cheatDistance, least) ==> c.original in w && c.end in w
  {
    RouteOfSpec(w);
    AtLeastSpec(RouteOf(w), cheatDistance, least);
  }

  /** The answers for a grid and its start and end: parts 1 and 2 with
      cheats of up to 2 and up to 20 steps. */
  ghost predicate Answered(grid: seq<seq<char>>, start: Point, end: Point, answers: (int, int))
  {
    Explore(grid, start, end, map[], [start]).Some? &&
    var route := Explore(grid, start, end, map[], [start]).value;
    answers == (|AtLeast(route, 2, Threshold)|, |AtLeast(route, 20, Threshold)|)
  }

  /** `main`: find the start and the end, then run both parts; None when
      `find` or the search panics. */
  method Solve(grid: seq<seq<char>>) returns (answers: Option<(int, int)>)
    ensures answers.Some? ==>
              exists start, end :: First(StartChar, grid, start) && First(EndChar, grid, end) &&
                                   Answered(grid, start, end, answers.value)
    ensures answers.None? ==>
              |grid| == 0 || (exists i :: 0 <= i < |grid| && |grid[i]| < |grid[0]|) ||
              exists start, end :: First(StartChar, grid, start) && First(EndChar, grid, end) &&
                                   Explore(grid, start, end, map[], [start]).None?
  {
    var start := Find(StartChar, grid);
    var end := Find(EndChar, grid);
    if start.None? || end.None? {
      return None;
    }
    var s, e := start.value, end.value;
    var part1 := Part(grid, s, e, 2);
    if part1.None? {
      assert First(StartChar, grid, s) && First(EndChar, grid, e) && Explore(grid, s, e, map[], [s]).None?;
      return None;
    }
    var part2 := Part(grid, s, e, 20);
    answers := Some((part1.value, part2.value));
    assert Answered(grid, s, e, answers.value);
    assert First(StartChar, grid, s) && First(EndChar, grid, e);
  }
}
