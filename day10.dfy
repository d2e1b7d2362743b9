/** Day 10: a topographic map of single-digit heights. A hiking trail starts
    at a cell of height 0 and climbs by exactly one at each step up, down,
    left or right until it reaches a 9. Part 1 scores each trailhead by the
    number of distinct 9s it reaches, part 2 by the number of distinct
    trails; each answer is the sum over the trailheads. */
module Day10 {
  import opened Wrappers
  import opened Text
  import HashSetUntil

  type Grid = seq<seq<int>>

  /** A cell on a path: its row, its column and its height. */
  datatype Position = Position(row: int, col: int, height: int)

  /** The four moves of `bfs`, as (row step, column step). */
  const Directions: seq<(int, int)> := [(0, 1), (1, 0), (0, -1), (-1, 0)]

  /** At least one row, and every row at least as long as the first, which
      sets the column count. */
  predicate Wide(grid: Grid)
  {
    |grid| > 0 && forall r :: 0 <= r < |grid| ==> |grid[r]| >= |grid[0]|
  }

  /** Every height is a single digit, as `convertData` gives them. */
  predicate Heights(grid: Grid)
  {
    forall r, c :: 0 <= r < |grid| && 0 <= c < |grid[r]| ==> 0 <= grid[r][c] <= 9
  }

  /** The move of `bfs` from `p` in direction `d`: the neighbour when it is
      inside the rows and the first row's columns and exactly one higher. */
  function Step(grid: Grid, p: Position, d: nat): Option<Position>
    requires Wide(grid) && d < 4
  {
    var nr, nc := Directions[d].0 + p.row, Directions[d].1 + p.col;
    if 0 <= nr < |grid| && 0 <= nc < |grid[0]| && grid[nr][nc] == p.height + 1 then Some(Position(nr, nc, grid[nr][nc]))
    else None
  }

  /** The steps left before a climb reaches height 10. */
  function Rank(h: int): nat
  {
    if h < 10 then 10 - h else 0
  }

  /** `q` is one move of `bfs` from `p`. */
  predicate Move(grid: Grid, p: Position, q: Position)
    requires Wide(grid)
  {
    exists d :: 0 <= d < 4 && Step(grid, p, d) == Some(q)
  }

  /** A path from `start` that climbs by one at each move. */
  predicate Hike(grid: Grid, start: Position, path: seq<Position>)
    requires Wide(grid)
  {
    |path| > 0 && path[0] == start && forall i :: 0 <= i < |path| - 1 ==> Move(grid, path[i], path[i + 1])
  }

  /** A move climbs by exactly one. */
  lemma MoveHeight(grid: Grid, p: Position, q: Position)
    requires Wide(grid) && Move(grid, p, q)
    ensures q.height == p.height + 1
  {
  }

  function Last(path: seq<Position>): Position
    requires |path| > 0
  {
    path[|path| - 1]
  }

  // ---------------------------------------------------------------------
  // What a trailhead scores

  /** The number of trails from `p`: a 9 ends one; below 9 the trails
      through each possible move add up. */
  function Trails(grid: Grid, p: Position): nat
    requires Wide(grid)
    decreases Rank(p.height), 5
  {
    if p.height >= 9 then (if p.height == 9 then 1 else 0) else TrailsUpTo(grid, p, 4)
  }

  /** The trails from `p` through its first `d` moves. */
  function TrailsUpTo(grid: Grid, p: Position, d: nat): nat
    requires Wide(grid) && d <= 4 && p.height < 9
    decreases Rank(p.height), d
  {
    if d == 0 then 0
    else
      TrailsUpTo(grid, p, d - 1) +
      match Step(grid, p, d - 1)
      case Some(q) => Trails(grid, q)
      case None => 0
  }

  /** The 9s the trails from `p` reach. */
  function Peaks(grid: Grid, p: Position): set<Position>
    requires Wide(grid)
    decreases Rank(p.height), 5
  {
    if p.height >= 9 then (if p.height == 9 then {p} else {}) else PeaksUpTo(grid, p, 4)
  }

  function PeaksUpTo(grid: Grid, p: Position, d: nat): set<Position>
    requires Wide(grid) && d <= 4 && p.height < 9
    decreases Rank(p.height), d
  {
    if d == 0 then {}
    else
      PeaksUpTo(grid, p, d - 1) +
      match Step(grid, p, d - 1)
      case Some(q) => Peaks(grid, q)
      case None => {}
  }

  /** The paths `bfs` takes off its queue when it starts from `p`. */
  function Nodes(grid: Grid, p: Position): nat
    requires Wide(grid)
    decreases Rank(p.height), 5
  {
    if p.height >= 9 then 1 else 1 + NodesUpTo(grid, p, 4)
  }

  function NodesUpTo(grid: Grid, p: Position, d: nat): nat
    requires Wide(grid) && d <= 4 && p.height < 9
    decreases Rank(p.height), d
  {
    if d == 0 then 0
    else
      NodesUpTo(grid, p, d - 1) +
      match Step(grid, p, d - 1)
      case Some(q) => Nodes(grid, q)
      case None => 0
  }

  /** The score of a trailhead: with `uniquePaths` its trails, otherwise
      the 9s it reaches. */
  function Score(grid: Grid, p: Position, uniquePaths: bool): nat
    requires Wide(grid)
  {
    if uniquePaths then Trails(grid, p) else |Peaks(grid, p)|
  }

  // ---------------------------------------------------------------------
  // bfs

  /** The paths of the queue, each extended by one move to a neighbour
      one higher, for the first `d` directions in order. */
  function Extensions(grid: Grid, path: seq<Position>, d: nat): seq<seq<Position>>
    requires Wide(grid) && |path| > 0 && d <= 4
  {
    if d == 0 then []
    else
      Extensions(grid, path, d - 1) +
      match Step(grid, Last(path), d - 1)
      case Some(q) => [path + [q]]
      case None => []
  }

  predicate NonEmpty(queue: seq<seq<Position>>)
  {
    forall i :: 0 <= i < |queue| ==> |queue[i]| > 0
  }

  function QueueTrails(grid: Grid, queue: seq<seq<Position>>): nat
    requires Wide(grid) && NonEmpty(queue)
  {
    if |queue| == 0 then 0 else Trails(grid, Last(queue[0])) + QueueTrails(grid, queue[1..])
  }

  function QueuePeaks(grid: Grid, queue: seq<seq<Position>>): set<Position>
    requires Wide(grid) && NonEmpty(queue)
  {
    if |queue| == 0 then {} else Peaks(grid, Last(queue[0])) + QueuePeaks(grid, queue[1..])
  }

  function QueueNodes(grid: Grid, queue: seq<seq<Position>>): nat
    requires Wide(grid) && NonEmpty(queue)
  {
    if |queue| == 0 then 0 else Nodes(grid, Last(queue[0])) + QueueNodes(grid, queue[1..])
  }

  lemma {:induction false} QueueSnoc(grid: Grid, queue: seq<seq<Position>>, path: seq<Position>)
    requires Wide(grid) && NonEmpty(queue) && |path| > 0
    ensures NonEmpty(queue + [path])
    ensures QueueTrails(grid, queue + [path]) == QueueTrails(grid, queue) + Trails(grid, Last(path))
    ensures QueuePeaks(grid, queue + [path]) == QueuePeaks(grid, queue) + Peaks(grid, Last(path))
    ensures QueueNodes(grid, queue + [path]) == QueueNodes(grid, queue) + Nodes(grid, Last(path))
  {
    if |queue| > 0 {
      assert (queue + [path])[1..] == queue[1..] + [path];
      QueueSnoc(grid, queue[1..], path);
    } else {
      assert (queue + [path])[1..] == [];
    }
  }

  /** Queuing the extensions of a path below 9 adds exactly what the path
      itself stood for. */
  lemma {:induction false} ExtensionsSums(grid: Grid, queue: seq<seq<Position>>, path: seq<Position>, d: nat)
    requires Wide(grid) && NonEmpty(queue) && |path| > 0 && d <= 4 && Last(path).height < 9
    ensures NonEmpty(queue + Extensions(grid, path, d))
    ensures QueueTrails(grid, queue + Extensions(grid, path, d)) == QueueTrails(grid, queue) + TrailsUpTo(grid, Last(path), d)
    ensures QueuePeaks(grid, queue + Extensions(grid, path, d)) == QueuePeaks(grid, queue) + PeaksUpTo(grid, Last(path), d)
    ensures QueueNodes(grid, queue + Extensions(grid, path, d)) == QueueNodes(grid, queue) + NodesUpTo(grid, Last(path), d)
  {
    if d == 0 {
      assert queue + Extensions(grid, path, d) == queue;
    } else {
      ExtensionsSums(grid, queue, path, d - 1);
      var front := queue + Extensions(grid, path, d - 1);
      match Step(grid, Last(path), d - 1)
      case Some(q) =>
        assert queue + Extensions(grid, path, d) == front + [path + [q]];
        assert Last(path + [q]) == q;
        QueueSnoc(grid, front, path + [q]);
      case None =>
        assert queue + Extensions(grid, path, d) == front;
    }
  }

  /** With single-digit heights nothing is one higher than a 9. */
  lemma NoStepAbove(grid: Grid, p: Position, d: nat)
    requires Wide(grid) && Heights(grid) && d < 4 && p.height >= 9
    ensures Step(grid, p, d) == None
  {
  }

  lemma {:induction false} NoExtensionsAbove(grid: Grid, path: seq<Position>, d: nat)
    requires Wide(grid) && Heights(grid) && |path| > 0 && d <= 4 && Last(path).height >= 9
    ensures Extensions(grid, path, d) == []
  {
    if d > 0 {
      NoExtensionsAbove(grid, path, d - 1);
      NoStepAbove(grid, Last(path), d - 1);
    }
  }

  /** Every extension of a path is the path and one more move of `bfs`:
      to a neighbour in bounds and exactly one higher. */
  lemma {:induction false} ExtensionsAreMoves(grid: Grid, path: seq<Position>, d: nat, i: nat)
    requires Wide(grid) && |path| > 0 && d <= 4 && i < |Extensions(grid, path, d)|
    ensures exists k :: 0 <= k < d && Step(grid, Last(path), k).Some? &&
                        Extensions(grid, path, d)[i] == path + [Step(grid, Last(path), k).value]
  {
    if i < |Extensions(grid, path, d - 1)| {
      ExtensionsAreMoves(grid, path, d - 1, i);
    } else {
      assert Extensions(grid, path, d)[i] == path + [Step(grid, Last(path), d - 1).value];
    }
  }

  /** Extending a hike by a move gives a hike. */
  lemma ExtendHike(grid: Grid, start: Position, path: seq<Position>, k: nat)
    requires Wide(grid) && Hike(grid, start, path) && k < 4 && Step(grid, Last(path), k).Some?
    ensures Hike(grid, start, path + [Step(grid, Last(path), k).value])
  {
    var t := path + [Step(grid, Last(path), k).value];
    forall i | 0 <= i < |t| - 1 ensures Move(grid, t[i], t[i + 1]) {
      if i < |path| - 1 {
        assert t[i] == path[i] && t[i + 1] == path[i + 1];
      } else {
        assert Step(grid, t[i], k) == Some(t[i + 1]);
      }
    }
  }

  /** Every queued path is a hike from `start`. */
  predicate AllHikes(grid: Grid, start: Position, queue: seq<seq<Position>>)
    requires Wide(grid)
  {
    forall i :: 0 <= i < |queue| ==> Hike(grid, start, queue[i])
  }

  lemma AllHikesTail(grid: Grid, start: Position, queue: seq<seq<Position>>)
    requires Wide(grid) && AllHikes(grid, start, queue) && |queue| > 0
    ensures Hike(grid, start, queue[0]) && AllHikes(grid, start, queue[1..]) && NonEmpty(queue[1..])
  {
    forall i | 0 <= i < |queue[1..]| ensures Hike(grid, start, queue[1..][i]) {
      assert queue[1..][i] == queue[i + 1];
    }
  }

  /** Queuing the extensions of a hike keeps every queued path a hike. */
  lemma ExtendedHikes(grid: Grid, start: Position, queue: seq<seq<Position>>, path: seq<Position>)
    requires Wide(grid) && Hike(grid, start, path) && AllHikes(grid, start, queue)
    ensures AllHikes(grid, start, queue + Extensions(grid, path, 4))
  {
    var next := queue + Extensions(grid, path, 4);
    forall i | 0 <= i < |next| ensures Hike(grid, start, next[i]) {
      if i >= |queue| {
        ExtensionsAreMoves(grid, path, 4, i - |queue|);
        var k :| 0 <= k < 4 && Step(grid, Last(path), k).Some? &&
                 next[i] == path + [Step(grid, Last(path), k).value];
        ExtendHike(grid, start, path, k);
      }
    }
  }

  /** The direction loop of `bfs`: the current path extended by each move
      to an in-bounds neighbour one higher, queued in direction order. */
  method Extend(grid: Grid, currentPath: seq<Position>, queue: seq<seq<Position>>) returns (next: seq<seq<Position>>)
    requires Wide(grid) && |currentPath| > 0
    ensures next == queue + Extensions(grid, currentPath, 4)
  {
    var rows := |grid|;
    var cols := |grid[0]|;
    var current := currentPath[|currentPath| - 1];
    next := queue;
    for k := 0 to 4
      invariant next == queue + Extensions(grid, currentPath, k)
    {
      var direction := Directions[k];
      var nr, nc := direction.0 + current.row, direction.1 + current.col;
      if nr >= 0 && nr < rows && nc >= 0 && nc < cols {
        if grid[nr][nc] == current.height + 1 {
          var newPath := currentPath + [Position(nr, nc, grid[nr][nc])];
          next := next + [newPath];
        }
      }
    }
  }

  /** What `bfs` has scored so far plus what its queue still stands for
      is the trailhead's score: with `uniquePaths` the trails, otherwise
      the 9s, of which `seen` holds those already scored. */
  predicate Tally(grid: Grid, start: Position, uniquePaths: bool, score: nat, seen: set<Position>, queue: seq<seq<Position>>)
    requires Wide(grid) && NonEmpty(queue)
  {
    (uniquePaths ==> score + QueueTrails(grid, queue) == Trails(grid, start)) &&
    (!uniquePaths ==> seen + QueuePeaks(grid, queue) == Peaks(grid, start) && score == |seen|)
  }

  /** Scoring a path that ends at a 9 keeps the tally. */
  lemma TallyPeak(grid: Grid, start: Position, uniquePaths: bool, score: nat, seen: set<Position>, queue: seq<seq<Position>>)
    requires Wide(grid) && NonEmpty(queue) && |queue| > 0 && Tally(grid, start, uniquePaths, score, seen, queue)
    requires Last(queue[0]).height == 9 && (Last(queue[0]) !in seen || uniquePaths)
    ensures NonEmpty(queue[1..])
    ensures Tally(grid, start, uniquePaths, score + 1, if uniquePaths then seen else seen + {Last(queue[0])}, queue[1..])
    ensures QueueNodes(grid, queue[1..]) < QueueNodes(grid, queue)
  {
    var c := Last(queue[0]);
    QueueFront(grid, queue);
    assert Trails(grid, c) == 1 && Peaks(grid, c) == {c} && Nodes(grid, c) == 1;
    if !uniquePaths {
      assert |seen + {c}| == |seen| + 1;
    }
  }

  /** The queue's totals, its first path taken apart from the rest. */
  lemma QueueFront(grid: Grid, queue: seq<seq<Position>>)
    requires Wide(grid) && NonEmpty(queue) && |queue| > 0
    ensures NonEmpty(queue[1..])
    ensures QueueTrails(grid, queue) == Trails(grid, Last(queue[0])) + QueueTrails(grid, queue[1..])
    ensures QueuePeaks(grid, queue) == Peaks(grid, Last(queue[0])) + QueuePeaks(grid, queue[1..])
    ensures QueueNodes(grid, queue) == Nodes(grid, Last(queue[0])) + QueueNodes(grid, queue[1..])
  {
  }

  /** Replacing a path below 9 by its extensions keeps the tally, and
      shrinks what is left to take off the queue. */
  lemma TallyExtend(grid: Grid, start: Position, uniquePaths: bool, score: nat, seen: set<Position>, queue: seq<seq<Position>>)
    requires Wide(grid) && NonEmpty(queue) && |queue| > 0 && Tally(grid, start, uniquePaths, score, seen, queue)
    requires Last(queue[0]).height < 9
    ensures NonEmpty(queue[1..] + Extensions(grid, queue[0], 4))
    ensures Tally(grid, start, uniquePaths, score, seen, queue[1..] + Extensions(grid, queue[0], 4))
    ensures QueueNodes(grid, queue[1..] + Extensions(grid, queue[0], 4)) < QueueNodes(grid, queue)
  {
    var c := Last(queue[0]);
    QueueFront(grid, queue);
    ExtensionsSums(grid, queue[1..], queue[0], 4);
    assert Trails(grid, c) == TrailsUpTo(grid, c, 4);
    assert Peaks(grid, c) == PeaksUpTo(grid, c, 4);
    assert Nodes(grid, c) == 1 + NodesUpTo(grid, c, 4);
  }

  /** A path at 9 or above that is not scored (a 9 already scored in
      part 1) is dropped: nothing is one higher. */
  lemma TallySeen(grid: Grid, start: Position, uniquePaths: bool, score: nat, seen: set<Position>, queue: seq<seq<Position>>)
    requires Wide(grid) && Heights(grid) && NonEmpty(queue) && |queue| > 0 && Tally(grid, start, uniquePaths, score, seen, queue)
    requires Last(queue[0]).height >= 9 && !(Last(queue[0]).height == 9 && (Last(queue[0]) !in seen || uniquePaths))
    ensures queue[1..] + Extensions(grid, queue[0], 4) == queue[1..] && NonEmpty(queue[1..])
    ensures Tally(grid, start, uniquePaths, score, seen, queue[1..])
    ensures QueueNodes(grid, queue[1..]) < QueueNodes(grid, queue)
  {
    var c := Last(queue[0]);
    QueueFront(grid, queue);
    NoExtensionsAbove(grid, queue[0], 4);
    if c.height == 9 {
      assert Peaks(grid, c) == {c};
    } else {
      assert Trails(grid, c) == 0 && Peaks(grid, c) == {};
    }
  }

  /** `bfs`: drains a queue of paths, starting from the trailhead alone.
      A path ending at a 9 is scored (once per 9 unless `uniquePaths`) and
      not extended; any other path is replaced by its extensions. The
      score is the number of trails from the start, or of the 9s they
      reach. */
  method Bfs(grid: Grid, start: Position, uniquePaths: bool) returns (score: nat)
    requires Wide(grid) && Heights(grid)
    ensures score == Score(grid, start, uniquePaths)
  {
    var queue: seq<seq<Position>> := [[start]];
    var seenPeaks := HashSetUntil.NewHashSet<Position>();
    score := 0;
    assert QueuePeaks(grid, queue) == Peaks(grid, start) + QueuePeaks(grid, []);
    while |queue| > 0
      invariant NonEmpty(queue) && AllHikes(grid, start, queue)
      invariant Tally(grid, start, uniquePaths, score, seenPeaks.data, queue)
      decreases QueueNodes(grid, queue)
    {
      ghost var before := queue;
      AllHikesTail(grid, start, queue);
      var currentPath := queue[0];
      queue := queue[1..];
      var current := currentPath[|currentPath| - 1];
      if current.height == 9 && (!seenPeaks.Contains(current) || uniquePaths) {
        TallyPeak(grid, start, uniquePaths, score, seenPeaks.data, before);
        if !uniquePaths {
          seenPeaks.Add(current);
        }
        score := score + 1;
      } else {
        if current.height < 9 {
          TallyExtend(grid, start, uniquePaths, score, seenPeaks.data, before);
        } else {
          TallySeen(grid, start, uniquePaths, score, seenPeaks.data, before);
        }
        ExtendedHikes(grid, start, queue, currentPath);
        queue := Extend(grid, currentPath, queue);
      }
    }
  }

  // ---------------------------------------------------------------------
  // searchForTrailHead

  /** The scores of the trailheads among the first `c` columns of row `r`. */
  function RowScore(grid: Grid, uniquePaths: bool, r: nat, c: nat): nat
    requires Wide(grid) && r < |grid| && c <= |grid[0]|
  {
    if c == 0 then 0
    else RowScore(grid, uniquePaths, r, c - 1) + (if grid[r][c - 1] == 0 then Score(grid, Position(r, c - 1, 0), uniquePaths) else 0)
  }

  /** The scores of the trailheads in the first `r` rows. */
  function GridScore(grid: Grid, uniquePaths: bool, r: nat): nat
    requires Wide(grid) && r <= |grid|
  {
    if r == 0 then 0 else GridScore(grid, uniquePaths, r - 1) + RowScore(grid, uniquePaths, r - 1, |grid[0]|)
  }

  /** The column loop of `searchForTrailHead` for one row. */
  method ScoreRow(input: Grid, uniquePaths: bool, row: nat) returns (sum: nat)
    requires Wide(input) && Heights(input) && row < |input|
    ensures sum == RowScore(input, uniquePaths, row, |input[0]|)
  {
    sum := 0;
    for col := 0 to |input[0]|
      invariant sum == RowScore(input, uniquePaths, row, col)
    {
      if input[row][col] == 0 {
        var result := Bfs(input, Position(row, col, 0), uniquePaths);
        sum := sum + result;
      }
    }
  }

  /** `searchForTrailHead`: the sum of the scores of every cell of height 0
      within the rows and the first row's columns. Go reads `input[0]` and
      then every cell of that window, so an empty map or a row shorter than
      the first panics. The goroutines and the results channel become a
      sequential sum. */
  method SearchForTrailHead(input: Grid, uniquePaths: bool) returns (sum: Option<nat>)
    requires Heights(input)
    ensures sum.None? <==> !Wide(input)
    ensures sum.Some? ==> sum.value == GridScore(input, uniquePaths, |input|)
  {
    if !Wide(input) {
      return None;
    }
    var total := 0;
    for row := 0 to |input|
      invariant total == GridScore(input, uniquePaths, row)
    {
      var rowSum := ScoreRow(input, uniquePaths, row);
      total := total + rowSum;
    }
    sum := Some(total);
  }

  // ---------------------------------------------------------------------
  // What the scores mean

  lemma {:induction false} PeaksUpToMembers(grid: Grid, p: Position, d: nat, q: Position)
    requires Wide(grid) && d <= 4 && p.height < 9
    ensures q in PeaksUpTo(grid, p, d) <==>
            exists k :: 0 <= k < d && Step(grid, p, k).Some? && q in Peaks(grid, Step(grid, p, k).value)
  {
    if d > 0 {
      PeaksUpToMembers(grid, p, d - 1, q);
    }
  }

  /** Heights climb by one along a hike. */
  lemma {:induction false} HikeHeight(grid: Grid, start: Position, path: seq<Position>)
    requires Wide(grid) && Hike(grid, start, path)
    ensures Last(path).height == start.height + |path| - 1
  {
    if |path| > 1 {
      var front := path[..|path| - 1];
      assert Hike(grid, start, front) by {
        forall i | 0 <= i < |front| - 1 ensures Move(grid, front[i], front[i + 1]) {
          assert front[i] == path[i] && front[i + 1] == path[i + 1];
        }
      }
      HikeHeight(grid, start, front);
      var i := |path| - 2;
      assert Move(grid, path[i], path[i + 1]);
      MoveHeight(grid, path[i], path[i + 1]);
    }
  }

  /** A move followed by a hike is a hike. */
  lemma ConsHike(grid: Grid, p: Position, k: nat, t: seq<Position>)
    requires Wide(grid) && k < 4 && Step(grid, p, k).Some? && Hike(grid, Step(grid, p, k).value, t)
    ensures Hike(grid, p, [p] + t)
  {
    var s := [p] + t;
    forall i | 0 <= i < |s| - 1 ensures Move(grid, s[i], s[i + 1]) {
      if i == 0 {
        assert Step(grid, s[0], k) == Some(s[1]);
      } else {
        assert s[i] == t[i - 1] && s[i + 1] == t[i];
      }
    }
  }

  /** The 9s a trailhead reaches are exactly the ends of the hikes from it
      that end at height 9. */
  lemma {:induction false} PeaksReachable(grid: Grid, p: Position, q: Position)
    requires Wide(grid)
    ensures q in Peaks(grid, p) <==> q.height == 9 && exists t :: Hike(grid, p, t) && Last(t) == q
    decreases Rank(p.height)
  {
    if q in Peaks(grid, p) {
      if p.height >= 9 {
        assert Hike(grid, p, [p]) && Last([p]) == q;
      } else {
        PeaksUpToMembers(grid, p, 4, q);
        var k :| 0 <= k < 4 && Step(grid, p, k).Some? && q in Peaks(grid, Step(grid, p, k).value);
        var r := Step(grid, p, k).value;
        PeaksReachable(grid, r, q);
        var t :| Hike(grid, r, t) && Last(t) == q;
        ConsHike(grid, p, k, t);
        assert Last([p] + t) == q;
      }
    }
    if q.height == 9 && exists t :: Hike(grid, p, t) && Last(t) == q {
      var t :| Hike(grid, p, t) && Last(t) == q;
      HikeHeight(grid, p, t);
      if |t| == 1 {
        assert q == p;
      } else {
        assert Move(grid, t[0], t[1]);
        var d :| 0 <= d < 4 && Step(grid, t[0], d) == Some(t[1]);
        var r := t[1];
        assert Hike(grid, r, t[1..]) by {
          forall i | 0 <= i < |t[1..]| - 1 ensures Move(grid, t[1..][i], t[1..][i + 1]) {
            assert t[1..][i] == t[i + 1] && t[1..][i + 1] == t[i + 2];
          }
        }
        assert Last(t[1..]) == q;
        PeaksReachable(grid, r, q);
        PeaksUpToMembers(grid, p, 4, q);
      }
    }
  }

  /** The trails from `p` listed one by one: a 9 is the trail of itself;
      below 9, `p` followed by each trail from each move in turn. */
  function FullHikes(grid: Grid, p: Position): seq<seq<Position>>
    requires Wide(grid)
    decreases Rank(p.height), 5
  {
    if p.height >= 9 then (if p.height == 9 then [[p]] else []) else FullHikesUpTo(grid, p, 4)
  }

  function FullHikesUpTo(grid: Grid, p: Position, d: nat): seq<seq<Position>>
    requires Wide(grid) && d <= 4 && p.height < 9
    decreases Rank(p.height), d
  {
    if d == 0 then [] else FullHikesUpTo(grid, p, d - 1) + Via(grid, p, d - 1)
  }

  /** The trails from `p` whose first move is in direction `k`. */
  function Via(grid: Grid, p: Position, k: nat): seq<seq<Position>>
    requires Wide(grid) && k < 4 && p.height < 9
    decreases Rank(p.height), k
  {
    match Step(grid, p, k)
    case Some(q) => Prefix(p, FullHikes(grid, q))
    case None => []
  }

  /** Each path of `ts` with `p` put in front. */
  function Prefix(p: Position, ts: seq<seq<Position>>): (r: seq<seq<Position>>)
    ensures |r| == |ts|
    ensures forall i :: 0 <= i < |ts| ==> r[i] == [p] + ts[i]
  {
    if |ts| == 0 then [] else [[p] + ts[0]] + Prefix(p, ts[1..])
  }

  lemma PrefixMembers(p: Position, ts: seq<seq<Position>>, t: seq<Position>)
    ensures t in Prefix(p, ts) <==> |t| > 0 && t[0] == p && t[1..] in ts
  {
    if t in Prefix(p, ts) {
      var i :| 0 <= i < |ts| && Prefix(p, ts)[i] == t;
      assert t[1..] == ts[i];
    }
    if |t| > 0 && t[0] == p && t[1..] in ts {
      var i :| 0 <= i < |ts| && ts[i] == t[1..];
      assert Prefix(p, ts)[i] == t;
    }
  }

  lemma {:induction false} FullHikesUpToMembers(grid: Grid, p: Position, d: nat, t: seq<Position>)
    requires Wide(grid) && d <= 4 && p.height < 9
    ensures t in FullHikesUpTo(grid, p, d) <==> exists k :: 0 <= k < d && t in Via(grid, p, k)
  {
    if d > 0 {
      FullHikesUpToMembers(grid, p, d - 1, t);
      assert FullHikesUpTo(grid, p, d) == FullHikesUpTo(grid, p, d - 1) + Via(grid, p, d - 1);
      if t in Via(grid, p, d - 1) {
        assert 0 <= d - 1 < d;
      }
      if exists k :: 0 <= k < d && t in Via(grid, p, k) {
        var k :| 0 <= k < d && t in Via(grid, p, k);
        if k < d - 1 {
          assert 0 <= k < d - 1 && t in Via(grid, p, k);
          assert exists k' :: 0 <= k' < d - 1 && t in Via(grid, p, k');
          assert t in FullHikesUpTo(grid, p, d - 1);
        }
      }
    }
  }

  /** The listing has one entry per trail. */
  lemma {:induction false} FullHikesCount(grid: Grid, p: Position)
    requires Wide(grid)
    ensures |FullHikes(grid, p)| == Trails(grid, p)
    decreases Rank(p.height), 5
  {
    if p.height < 9 {
      FullHikesUpToCount(grid, p, 4);
    }
  }

  lemma {:induction false} FullHikesUpToCount(grid: Grid, p: Position, d: nat)
    requires Wide(grid) && d <= 4 && p.height < 9
    ensures |FullHikesUpTo(grid, p, d)| == TrailsUpTo(grid, p, d)
    decreases Rank(p.height), d
  {
    if d > 0 {
      FullHikesUpToCount(grid, p, d - 1);
      match Step(grid, p, d - 1)
      case Some(q) =>
        FullHikesCount(grid, q);
      case None =>
    }
  }

  /** Every listed trail is a hike from `p` that ends at a 9. */
  lemma {:induction false} FullHikesSound(grid: Grid, p: Position, t: seq<Position>)
    requires Wide(grid) && t in FullHikes(grid, p)
    ensures Hike(grid, p, t) && Last(t).height == 9
    decreases Rank(p.height)
  {
    if p.height >= 9 {
      assert t == [p];
    } else {
      FullHikesUpToMembers(grid, p, 4, t);
      var k :| 0 <= k < 4 && t in Via(grid, p, k);
      assert Step(grid, p, k).Some?;
      var q := Step(grid, p, k).value;
      PrefixMembers(p, FullHikes(grid, q), t);
      FullHikesSound(grid, q, t[1..]);
      assert t == [p] + t[1..];
      ConsHike(grid, p, k, t[1..]);
      assert Last(t) == Last(t[1..]);
    }
  }

  /** Every hike from `p` that ends at a 9 is listed. */
  lemma {:induction false} FullHikesComplete(grid: Grid, p: Position, t: seq<Position>)
    requires Wide(grid) && Hike(grid, p, t) && Last(t).height == 9
    ensures t in FullHikes(grid, p)
    decreases Rank(p.height)
  {
    HikeHeight(grid, p, t);
    if |t| == 1 {
      assert t == [p];
    } else {
      assert Move(grid, t[0], t[1]);
      var k :| 0 <= k < 4 && Step(grid, t[0], k) == Some(t[1]);
      var q := t[1];
      assert Hike(grid, q, t[1..]) by {
        forall i | 0 <= i < |t[1..]| - 1 ensures Move(grid, t[1..][i], t[1..][i + 1]) {
          assert t[1..][i] == t[i + 1] && t[1..][i + 1] == t[i + 2];
        }
      }
      assert Last(t[1..]) == Last(t);
      FullHikesComplete(grid, q, t[1..]);
      PrefixMembers(p, FullHikes(grid, q), t);
      assert t in Via(grid, p, k);
      FullHikesUpToMembers(grid, p, 4, t);
    }
  }

  predicate Distinct(ts: seq<seq<Position>>)
  {
    forall i, j :: 0 <= i < j < |ts| ==> ts[i] != ts[j]
  }

  lemma PrefixDistinct(p: Position, ts: seq<seq<Position>>)
    requires Distinct(ts)
    ensures Distinct(Prefix(p, ts))
  {
    forall i, j | 0 <= i < j < |ts| ensures Prefix(p, ts)[i] != Prefix(p, ts)[j] {
      assert Prefix(p, ts)[i][1..] == ts[i] && Prefix(p, ts)[j][1..] == ts[j];
    }
  }

  /** Two moves in different directions reach different cells. */
  lemma StepsDiffer(grid: Grid, p: Position, k: nat, d: nat)
    requires Wide(grid) && k < d < 4 && Step(grid, p, k).Some? && Step(grid, p, d).Some?
    ensures Step(grid, p, k).value != Step(grid, p, d).value
  {
  }

  /** A trail whose first move is in direction `k` reaches that
      neighbour second. */
  lemma ViaSecond(grid: Grid, p: Position, k: nat, t: seq<Position>)
    requires Wide(grid) && k < 4 && p.height < 9 && t in Via(grid, p, k)
    ensures Step(grid, p, k).Some? && |t| > 1 && t[1] == Step(grid, p, k).value
  {
    var q := Step(grid, p, k).value;
    PrefixMembers(p, FullHikes(grid, q), t);
    FullHikesSound(grid, q, t[1..]);
    assert t[1] == t[1..][0];
  }

  /** No trail is listed twice. */
  lemma {:induction false} FullHikesDistinct(grid: Grid, p: Position)
    requires Wide(grid)
    ensures Distinct(FullHikes(grid, p))
    decreases Rank(p.height), 5
  {
    if p.height < 9 {
      FullHikesUpToDistinct(grid, p, 4);
    }
  }

  lemma {:induction false} FullHikesUpToDistinct(grid: Grid, p: Position, d: nat)
    requires Wide(grid) && d <= 4 && p.height < 9
    ensures Distinct(FullHikesUpTo(grid, p, d))
    decreases Rank(p.height), d
  {
    if d > 0 {
      FullHikesUpToDistinct(grid, p, d - 1);
      match Step(grid, p, d - 1)
      case Some(q) =>
        var a := FullHikesUpTo(grid, p, d - 1);
        var b := Prefix(p, FullHikes(grid, q));
        FullHikesDistinct(grid, q);
        PrefixDistinct(p, FullHikes(grid, q));
        forall i, j | 0 <= i < |a| && 0 <= j < |b| ensures a[i] != b[j] {
          FullHikesUpToMembers(grid, p, d - 1, a[i]);
          var k :| 0 <= k < d - 1 && a[i] in Via(grid, p, k);
          ViaSecond(grid, p, k, a[i]);
          assert b[j] in Via(grid, p, d - 1);
          ViaSecond(grid, p, d - 1, b[j]);
          StepsDiffer(grid, p, k, d - 1);
        }
        assert FullHikesUpTo(grid, p, d) == a + b;
      case None =>
    }
  }

  /** With `uniquePaths` a trailhead scores its distinct trails: the
      listing holds no repeat, holds exactly the hikes from `p` that end at
      a 9, and is as long as `Trails` says. */
  lemma TrailsCountHikes(grid: Grid, p: Position)
    requires Wide(grid)
    ensures Trails(grid, p) == |FullHikes(grid, p)| && Distinct(FullHikes(grid, p))
    ensures forall t :: t in FullHikes(grid, p) <==> Hike(grid, p, t) && Last(t).height == 9
  {
    FullHikesCount(grid, p);
    FullHikesDistinct(grid, p);
    forall t ensures t in FullHikes(grid, p) <==> Hike(grid, p, t) && Last(t).height == 9 {
      if t in FullHikes(grid, p) {
        FullHikesSound(grid, p, t);
      }
      if Hike(grid, p, t) && Last(t).height == 9 {
        FullHikesComplete(grid, p, t);
      }
    }
  }

  /** Each 9 reached is the end of at least one trail, so the part 1 score
      of a trailhead never exceeds its part 2 score. */
  lemma {:induction false} PeaksAtMostTrails(grid: Grid, p: Position)
    requires Wide(grid)
    ensures |Peaks(grid, p)| <= Trails(grid, p)
    decreases Rank(p.height), 5
  {
    if p.height < 9 {
      PeaksUpToAtMost(grid, p, 4);
    }
  }

  lemma {:induction false} PeaksUpToAtMost(grid: Grid, p: Position, d: nat)
    requires Wide(grid) && d <= 4 && p.height < 9
    ensures |PeaksUpTo(grid, p, d)| <= TrailsUpTo(grid, p, d)
    decreases Rank(p.height), d
  {
    if d > 0 {
      PeaksUpToAtMost(grid, p, d - 1);
      match Step(grid, p, d - 1)
      case Some(q) =>
        PeaksAtMostTrails(grid, q);
        UnionSize(PeaksUpTo(grid, p, d - 1), Peaks(grid, q));
      case None =>
    }
  }

  lemma UnionSize<T>(a: set<T>, b: set<T>)
    ensures |a + b| <= |a| + |b|
  {
    assert |a + b| == |a| + |b| - |a * b|;
  }

  lemma {:induction false} RowScoreAtMost(grid: Grid, r: nat, c: nat)
    requires Wide(grid) && r < |grid| && c <= |grid[0]|
    ensures RowScore(grid, false, r, c) <= RowScore(grid, true, r, c)
  {
    if c > 0 {
      RowScoreAtMost(grid, r, c - 1);
      PeaksAtMostTrails(grid, Position(r, c - 1, 0));
    }
  }

  /** Part 1's answer never exceeds part 2's. */
  lemma {:induction false} Part1AtMostPart2(grid: Grid, r: nat)
    requires Wide(grid) && r <= |grid|
    ensures GridScore(grid, false, r) <= GridScore(grid, true, r)
  {
    if r > 0 {
      Part1AtMostPart2(grid, r - 1);
      RowScoreAtMost(grid, r - 1, |grid[0]|);
    }
  }

  // ---------------------------------------------------------------------
  // convertData and main

  /** The heights a line of digits stands for. */
  function RowOf(line: string): (row: seq<int>)
    requires AllDigits(line)
    ensures |row| == |line|
  {
    seq(|line|, j requires 0 <= j < |line| => DigitValue(line[j]) as int)
  }

  /** What `convertData` returns: each line's characters as heights, or
      nothing when some character is not a digit, on which
      `util.ParseInt` stops the program. */
  function Convert(input: seq<string>): Option<Grid>
  {
    if forall k :: 0 <= k < |input| ==> AllDigits(input[k]) then
      Some(seq(|input|, k requires 0 <= k < |input| && AllDigits(input[k]) => RowOf(input[k])))
    else None
  }

  /** The inner loop of `convertData`: each character parsed in turn. */
  method ConvertLine(line: string) returns (converted: Option<seq<int>>)
    ensures converted.Some? <==> AllDigits(line)
    ensures converted.Some? ==> converted.value == RowOf(line)
  {
    var row: seq<int> := [];
    for j := 0 to |line|
      invariant AllDigits(line[..j]) && row == RowOf(line[..j])
    {
      var num := Atoi([line[j]]);
      AtoiOneChar(line[j]);
      if num.None? {
        return None;
      }
      row := row + [num.value];
      assert line[..j + 1] == line[..j] + [line[j]];
    }
    assert line[..|line|] == line;
    converted := Some(row);
  }

  /** `convertData`: every line of digits as a row of heights. */
  method ConvertData(input: seq<string>) returns (toReturn: Option<Grid>)
    ensures toReturn == Convert(input)
  {
    var rows: Grid := [];
    for i := 0 to |input|
      invariant |rows| == i && forall k :: 0 <= k < i ==> AllDigits(input[k]) && rows[k] == RowOf(input[k])
    {
      var converted := ConvertLine(input[i]);
      if converted.None? {
        assert !AllDigits(input[i]);
        return None;
      }
      rows := rows + [converted.value];
    }
    assert Convert(input).Some?;
    assert rows == Convert(input).value;
    toReturn := Some(rows);
  }

  /** The digits of a row of single-digit heights. */
  function Render(grid: Grid): seq<string>
    requires Heights(grid)
  {
    seq(|grid|, r requires 0 <= r < |grid| => seq(|grid[r]|, c requires 0 <= c < |grid[r]| => DigitChar(grid[r][c])))
  }

  /** `convertData` gives single-digit heights, one row per line and one
      height per character, and reads back any such map from its digits. */
  lemma ConvertRoundTrip(grid: Grid, input: seq<string>)
    requires Heights(grid)
    ensures Convert(Render(grid)) == Some(grid)
    ensures Convert(input).Some? ==>
              (Heights(Convert(input).value) && |Convert(input).value| == |input| &&
               forall r :: 0 <= r < |input| ==> |Convert(input).value[r]| == |input[r]|)
  {
    var lines := Render(grid);
    forall r | 0 <= r < |lines| ensures AllDigits(lines[r]) && RowOf(lines[r]) == grid[r] {
      assert forall c :: 0 <= c < |grid[r]| ==> DigitValue(DigitChar(grid[r][c])) == grid[r][c];
    }
    assert Convert(lines).value == grid;
  }

  /** `main`: both parts on the converted map, or nothing when a character
      is not a digit or the map is empty or ragged. Part 1 never exceeds
      part 2. */
  method Solve(input: seq<string>) returns (answers: Option<(nat, nat)>)
    ensures answers.None? <==> Convert(input).None? || !Wide(Convert(input).value)
    ensures answers.Some? ==> var grid := Convert(input).value;
              answers.value == (GridScore(grid, false, |grid|), GridScore(grid, true, |grid|)) &&
              answers.value.0 <= answers.value.1
  {
    var grid := ConvertData(input);
    if grid.None? {
      return None;
    }
    ConvertRoundTrip([], input);
    var part1 := SearchForTrailHead(grid.value, false);
    var part2 := SearchForTrailHead(grid.value, true);
    if part1.None? || part2.None? {
      return None;
    }
    Part1AtMostPart2(grid.value, |grid.value|);
    answers := Some((part1.value, part2.value));
  }
}
