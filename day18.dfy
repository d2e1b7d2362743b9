/** Day 18: bytes fall onto a memory grid and corrupt cells; a breadth
    first search finds the fewest steps from the top-left corner to the
    bottom-right one, and the first byte that cuts the way off. */
module Day18 {
  import opened Wrappers
  import opened Text
  import HashSetUtil
  import HashSetUntil

  type Pos = (int, int)

  /** The number of bytes `part1` lets fall. */
  const Part1Bytes := 0x400

  /** The side of the puzzle's grid. */
  const Side := 71

  /** The four moves, in the order the search tries them. */
  const Directions: seq<Pos> := [(0, 1), (0, -1), (1, 0), (-1, 0)]

  /** A position in the queue and the steps taken to reach it. */
  datatype Grid = Grid(pos: Pos, steps: int)

  function Neighbour(p: Pos, k: nat): Pos
    requires k < |Directions|
  {
    (p.0 + Directions[k].0, p.1 + Directions[k].1)
  }

  /** The four positions one step away. */
  function Neighbours(p: Pos): (ns: seq<Pos>)
    ensures |ns| == |Directions| && forall k :: 0 <= k < |Directions| ==> ns[k] == Neighbour(p, k)
  {
    seq(|Directions|, k requires 0 <= k < |Directions| => Neighbour(p, k))
  }

  /** A position the search may step onto: inside the grid and not
      corrupted. */
  predicate Open(p: Pos, corrupted: set<Pos>, row: int, col: int)
  {
    0 <= p.0 < row && 0 <= p.1 < col && p !in corrupted
  }

  /** A walk from `from`: each position one step from the one before and
      open. The first position itself need not be open. */
  predicate Walk(w: seq<Pos>, from: Pos, corrupted: set<Pos>, row: int, col: int)
  {
    |w| >= 1 && w[0] == from &&
    forall i :: 0 < i < |w| ==> StepTo(w, i, corrupted, row, col)
  }

  /** The step into `w[i]` moves to a neighbour that is open. */
  predicate StepTo(w: seq<Pos>, i: nat, corrupted: set<Pos>, row: int, col: int)
    requires 0 < i < |w|
  {
    w[i] in Neighbours(w[i - 1]) && Open(w[i], corrupted, row, col)
  }

  function Last(w: seq<Pos>): Pos
    requires |w| > 0
  {
    w[|w| - 1]
  }

  /** What `bfs` answers: the number of steps of a shortest walk from
      `start` to `end`, or -1 exactly when no walk reaches `end`. */
  ghost predicate ShortestSteps(steps: int, corrupted: set<Pos>, start: Pos, end: Pos, row: int, col: int)
  {
    steps >= -1 &&
    (steps >= 0 ==> exists w :: Walk(w, start, corrupted, row, col) && Last(w) == end && |w| == steps + 1) &&
    (steps >= 0 ==> forall w :: Walk(w, start, corrupted, row, col) && Last(w) == end ==> |w| >= steps + 1) &&
    (steps == -1 ==> forall w :: Walk(w, start, corrupted, row, col) ==> Last(w) != end)
  }

  /** No walk from `start` reaches `end`. */
  ghost predicate Blocked(corrupted: set<Pos>, start: Pos, end: Pos, row: int, col: int)
  {
    forall w :: Walk(w, start, corrupted, row, col) ==> Last(w) != end
  }

  // ---------------------------------------------------------------------
  // bfs

  /** The cells of the grid. */
  function Cells(row: int, col: int): set<Pos>
  {
    set i, j | 0 <= i < row && 0 <= j < col :: (i, j)
  }

  /** The positions in the queue. */
  function Positions(queue: seq<Grid>): set<Pos>
  {
    set g | g in queue :: g.pos
  }

  /** The state of the search: `Visits`, `Queued` and `Expanded`. */
  ghost predicate Search(corrupted: set<Pos>, start: Pos, end: Pos, row: int, col: int,
                         visited: set<Pos>, dist: map<Pos, nat>, paths: map<Pos, seq<Pos>>,
                         done: set<Pos>, queue: seq<Grid>, level: nat, u: Pos, k: nat)
  {
    Visits(corrupted, start, row, col, visited, dist, paths) &&
    Queued(dist, done, queue, level) &&
    Expanded(corrupted, end, row, col, dist, done, u, k)
  }

  /** `dist` gives the steps of every visited position, the start's 0, and
      `paths` a walk of that many steps to it; only the start and cells of
      the grid are visited. */
  ghost predicate Visits(corrupted: set<Pos>, start: Pos, row: int, col: int,
                         visited: set<Pos>, dist: map<Pos, nat>, paths: map<Pos, seq<Pos>>)
  {
    visited == dist.Keys && paths.Keys == dist.Keys &&
    (forall v :: v in visited ==> v == start || (0 <= v.0 < row && 0 <= v.1 < col)) &&
    start in dist && dist[start] == 0 &&
    (forall v :: v in paths ==>
       Walk(paths[v], start, corrupted, row, col) && Last(paths[v]) == v && |paths[v]| == dist[v] + 1)
  }

  /** `done` holds the positions taken off the queue, with at most `level`
      steps; the queue holds the other visited positions, each once, in
      order of steps, all within one of `level`. */
  ghost predicate Queued(dist: map<Pos, nat>, done: set<Pos>, queue: seq<Grid>, level: nat)
  {
    (forall i :: 0 <= i < |queue| ==>
       queue[i].pos in dist && queue[i].steps == dist[queue[i].pos] && queue[i].pos !in done &&
       level <= queue[i].steps <= level + 1) &&
    (forall i, j :: 0 <= i < j < |queue| ==> queue[i].steps <= queue[j].steps && queue[i].pos != queue[j].pos) &&
    dist.Keys == done + Positions(queue) &&
    (forall v :: v in done ==> v in dist && dist[v] <= level)
  }

  /** The open neighbours of every finished position are visited with at
      most one more step, except those of `u` from direction `k` on, which
      is being expanded; the end is not finished. */
  ghost predicate Expanded(corrupted: set<Pos>, end: Pos, row: int, col: int,
                           dist: map<Pos, nat>, done: set<Pos>, u: Pos, k: nat)
  {
    (forall v, j ::
       (v in done && v in dist && 0 <= j < |Directions| && (v != u || j < k) && Open(Neighbour(v, j), corrupted, row, col)) ==>
       Neighbour(v, j) in dist && dist[Neighbour(v, j)] <= dist[v] + 1) &&
    end !in done
  }

  /** Along any walk from the start that ends outside `done`, the first
      position not yet finished is in the queue, with no more steps than
      the walk took to get there. */
  lemma {:induction false} Frontier(corrupted: set<Pos>, start: Pos, end: Pos, row: int, col: int,
                                    visited: set<Pos>, dist: map<Pos, nat>, paths: map<Pos, seq<Pos>>,
                                    done: set<Pos>, queue: seq<Grid>, level: nat, u: Pos,
                                    w: seq<Pos>, n: nat) returns (i: int)
    requires Search(corrupted, start, end, row, col, visited, dist, paths, done, queue, level, u, |Directions|)
    requires Walk(w, start, corrupted, row, col) && n < |w|
    ensures (i == -1 && w[n] in done && dist[w[n]] <= n) || (0 <= i < |queue| && queue[i].steps <= n)
  {
    var prev := -1;
    if n > 0 {
      prev := Frontier(corrupted, start, end, row, col, visited, dist, paths, done, queue, level, u, w, n - 1);
      if prev >= 0 {
        return prev;
      }
      assert StepTo(w, n, corrupted, row, col);
      var j :| 0 <= j < |Directions| && Neighbours(w[n - 1])[j] == w[n];
      assert w[n] == Neighbour(w[n - 1], j);
    }
    if w[n] in done {
      return -1;
    }
    assert w[n] in Positions(queue);
    var g :| g in queue && g.pos == w[n];
    i :| 0 <= i < |queue| && queue[i] == g;
  }

  /** `bfs`: the queue is drained front first; a position is marked visited
      when it is queued, so each is queued at most once; the answer is the
      steps of `end` when it is taken off the queue, or -1 when the queue
      runs dry. */
  method Bfs(coordinates: HashSetUtil.HashSet<Pos>, current: Pos, end: Pos, row: int, col: int)
    returns (steps: int)
    ensures ShortestSteps(steps, coordinates.data, current, end, row, col)
  {
    ghost var corrupted := coordinates.data;
    ghost var area := Cells(row, col) + {current};
    var queue := [Grid(current, 0)];
    var visited := HashSetUntil.NewHashSet();
    visited.Add(current);
    ghost var dist: map<Pos, nat> := map[current := 0];
    ghost var paths := map[current := [current]];
    ghost var done: set<Pos> := {};
    ghost var level: nat := 0;
    ghost var u := current;
    assert Positions(queue) == {current};

    while |queue| > 0
      invariant fresh(visited) && coordinates.data == corrupted
      invariant Search(corrupted, current, end, row, col, visited.data, dist, paths, done, queue, level, u, |Directions|)
      decreases |area - visited.data|, |queue|
    {
      var position := queue[0];
      if position.pos == end {
        Found(corrupted, current, end, row, col, visited.data, dist, paths, done, queue, level, u);
        return position.steps;
      }
      Pop(corrupted, current, end, row, col, visited.data, dist, paths, done, queue, level, u);
      queue := queue[1..];
      u := position.pos;
      done := done + {u};
      level := position.steps;
      ghost var before := visited.data;
      ghost var popped := queue;
      queue, dist, paths := Expand(coordinates, visited, position, queue, row, col, current, end, dist, paths, done);
      if visited.data != before {
        InArea(corrupted, current, end, row, col, visited.data, dist, paths, done, queue, level, u);
        Shrinks(area, before, visited.data);
      }
    }
    Drained(corrupted, current, end, row, col, visited.data, dist, paths, done, queue, level, u);
    return -1;
  }

  /** The inner loop of `bfs`: each neighbour of the position taken off the
      queue, in the order of `Directions`, is passed over when it is outside
      the grid, corrupted or already visited, and otherwise marked visited
      and queued with one more step. */
  method Expand(coordinates: HashSetUtil.HashSet<Pos>, visited: HashSetUtil.HashSet<Pos>, position: Grid,
                queue0: seq<Grid>, row: int, col: int, ghost start: Pos, ghost end: Pos,
                ghost dist0: map<Pos, nat>, ghost paths0: map<Pos, seq<Pos>>, ghost done: set<Pos>)
    returns (queue: seq<Grid>, ghost dist: map<Pos, nat>, ghost paths: map<Pos, seq<Pos>>)
    requires visited != coordinates && position.steps >= 0
    requires Search(coordinates.data, start, end, row, col, visited.data, dist0, paths0, done, queue0,
                    position.steps, position.pos, 0)
    requires position.pos in done && dist0[position.pos] == position.steps
    modifies visited
    ensures Search(coordinates.data, start, end, row, col, visited.data, dist, paths, done, queue,
                   position.steps, position.pos, |Directions|)
    ensures old(visited.data) <= visited.data && (visited.data == old(visited.data) ==> queue == queue0)
  {
    ghost var corrupted := coordinates.data;
    ghost var u := position.pos;
    ghost var level: nat := position.steps;
    queue, dist, paths := queue0, dist0, paths0;
    for k := 0 to |Directions|
      invariant coordinates.data == corrupted
      invariant Search(corrupted, start, end, row, col, visited.data, dist, paths, done, queue, level, u, k)
      invariant u in done && dist[u] == level
      invariant old(visited.data) <= visited.data
      invariant visited.data == old(visited.data) ==> queue == queue0
    {
      queue, dist, paths := Visit(coordinates, visited, position, k, queue, row, col, start, end, dist, paths, done);
    }
  }

  /** One turn of the inner loop of `bfs`, for the neighbour in direction
      `k`. */
  method Visit(coordinates: HashSetUtil.HashSet<Pos>, visited: HashSetUtil.HashSet<Pos>, position: Grid, k: nat,
               queue0: seq<Grid>, row: int, col: int, ghost start: Pos, ghost end: Pos,
               ghost dist0: map<Pos, nat>, ghost paths0: map<Pos, seq<Pos>>, ghost done: set<Pos>)
    returns (queue: seq<Grid>, ghost dist: map<Pos, nat>, ghost paths: map<Pos, seq<Pos>>)
    requires visited != coordinates && position.steps >= 0 && k < |Directions|
    requires Search(coordinates.data, start, end, row, col, visited.data, dist0, paths0, done, queue0,
                    position.steps, position.pos, k)
    requires position.pos in done && dist0[position.pos] == position.steps
    modifies visited
    ensures Search(coordinates.data, start, end, row, col, visited.data, dist, paths, done, queue,
                   position.steps, position.pos, k + 1)
    ensures dist.Keys == visited.data && position.pos in done && dist[position.pos] == position.steps
    ensures old(visited.data) <= visited.data && (visited.data == old(visited.data) ==> queue == queue0)
  {
    ghost var corrupted := coordinates.data;
    ghost var u := position.pos;
    ghost var level: nat := position.steps;
    queue, dist, paths := queue0, dist0, paths0;
    var newPos := Neighbour(position.pos, k);
    if newPos.0 < 0 || newPos.0 >= row || newPos.1 < 0 || newPos.1 >= col || coordinates.Contains(newPos) {
      Skip(corrupted, start, end, row, col, visited.data, dist, paths, done, queue, level, u, k);
    } else if visited.Contains(newPos) {
      Revisit(corrupted, start, end, row, col, visited.data, dist, paths, done, queue, level, u, k);
    } else {
      var steps := position.steps + 1;
      Push(corrupted, start, end, row, col, visited.data, dist, paths, done, queue, level, u, k, newPos, steps);
      visited.Add(newPos);
      queue := queue + [Grid(newPos, steps)];
      dist := dist[newPos := steps];
      paths := paths[newPos := paths[u] + [newPos]];
    }
  }

  /** The end at the front of the queue: its steps are those of a walk,
      and no walk to it is shorter. */
  lemma Found(corrupted: set<Pos>, start: Pos, end: Pos, row: int, col: int,
              visited: set<Pos>, dist: map<Pos, nat>, paths: map<Pos, seq<Pos>>,
              done: set<Pos>, queue: seq<Grid>, level: nat, u: Pos)
    requires Search(corrupted, start, end, row, col, visited, dist, paths, done, queue, level, u, |Directions|)
    requires |queue| > 0 && queue[0].pos == end
    ensures ShortestSteps(queue[0].steps, corrupted, start, end, row, col)
  {
    forall w | Walk(w, start, corrupted, row, col) && Last(w) == end
      ensures |w| >= queue[0].steps + 1
    {
      var i := Frontier(corrupted, start, end, row, col, visited, dist, paths, done, queue, level, u, w, |w| - 1);
    }
    assert Walk(paths[end], start, corrupted, row, col);
  }

  /** The queue run dry before the end was reached: no walk reaches it. */
  lemma Drained(corrupted: set<Pos>, start: Pos, end: Pos, row: int, col: int,
                visited: set<Pos>, dist: map<Pos, nat>, paths: map<Pos, seq<Pos>>,
                done: set<Pos>, queue: seq<Grid>, level: nat, u: Pos)
    requires Search(corrupted, start, end, row, col, visited, dist, paths, done, queue, level, u, |Directions|)
    requires |queue| == 0
    ensures ShortestSteps(-1, corrupted, start, end, row, col)
  {
    forall w | Walk(w, start, corrupted, row, col)
      ensures Last(w) != end
    {
      if Last(w) == end {
        var i := Frontier(corrupted, start, end, row, col, visited, dist, paths, done, queue, level, u, w, |w| - 1);
      }
    }
  }

  /** The search visits only the start and cells of the grid. */
  lemma InArea(corrupted: set<Pos>, start: Pos, end: Pos, row: int, col: int,
               visited: set<Pos>, dist: map<Pos, nat>, paths: map<Pos, seq<Pos>>,
               done: set<Pos>, queue: seq<Grid>, level: nat, u: Pos)
    requires Search(corrupted, start, end, row, col, visited, dist, paths, done, queue, level, u, |Directions|)
    ensures visited <= Cells(row, col) + {start}
  {
    forall v | v in visited ensures v in Cells(row, col) + {start} {
      if v != start {
        assert v in Cells(row, col);
      }
    }
  }

  lemma Shrinks(area: set<Pos>, before: set<Pos>, after: set<Pos>)
    requires before <= after && before != after && after <= area
    ensures |area - after| < |area - before|
  {
    var x :| x in after && x !in before;
    assert area - before == (area - after) + (after - before);
    assert (area - after) * (after - before) == {};
    assert x in after - before;
  }

  /** Taking the front off the queue: the search moves to its level. */
  lemma Pop(corrupted: set<Pos>, start: Pos, end: Pos, row: int, col: int,
            visited: set<Pos>, dist: map<Pos, nat>, paths: map<Pos, seq<Pos>>,
            done: set<Pos>, queue: seq<Grid>, level: nat, u: Pos)
    requires Search(corrupted, start, end, row, col, visited, dist, paths, done, queue, level, u, |Directions|)
    requires |queue| > 0 && queue[0].pos != end
    ensures queue[0].steps >= 0
    ensures Search(corrupted, start, end, row, col, visited, dist, paths, done + {queue[0].pos}, queue[1..],
                   queue[0].steps, queue[0].pos, 0)
  {
    var rest := queue[1..];
    assert Positions(queue) == {queue[0].pos} + Positions(rest) by {
      forall p | p in Positions(queue) ensures p in {queue[0].pos} + Positions(rest) {
        var g :| g in queue && g.pos == p;
        var i :| 0 <= i < |queue| && queue[i] == g;
        if i > 0 {
          assert rest[i - 1] == g;
        }
      }
    }
    forall i | 0 <= i < |rest|
      ensures rest[i].pos != queue[0].pos
    {
      assert rest[i] == queue[i + 1];
    }
  }

  /** A neighbour outside the grid or corrupted is passed over. */
  lemma Skip(corrupted: set<Pos>, start: Pos, end: Pos, row: int, col: int,
             visited: set<Pos>, dist: map<Pos, nat>, paths: map<Pos, seq<Pos>>,
             done: set<Pos>, queue: seq<Grid>, level: nat, u: Pos, k: nat)
    requires Search(corrupted, start, end, row, col, visited, dist, paths, done, queue, level, u, k)
    requires k < |Directions| && !Open(Neighbour(u, k), corrupted, row, col)
    ensures Search(corrupted, start, end, row, col, visited, dist, paths, done, queue, level, u, k + 1)
  {
  }

  /** A neighbour that is already visited is passed over: it is finished,
      with at most `level` steps, or queued, with at most one more. */
  lemma Revisit(corrupted: set<Pos>, start: Pos, end: Pos, row: int, col: int,
                visited: set<Pos>, dist: map<Pos, nat>, paths: map<Pos, seq<Pos>>,
                done: set<Pos>, queue: seq<Grid>, level: nat, u: Pos, k: nat)
    requires Search(corrupted, start, end, row, col, visited, dist, paths, done, queue, level, u, k)
    requires k < |Directions| && Neighbour(u, k) in visited
    requires u in done && dist[u] == level
    ensures Search(corrupted, start, end, row, col, visited, dist, paths, done, queue, level, u, k + 1)
  {
    var q := Neighbour(u, k);
    if q !in done {
      assert q in Positions(queue);
      var g :| g in queue && g.pos == q;
      var i :| 0 <= i < |queue| && queue[i] == g;
    }
  }

  /** A new open neighbour is visited and queued with one more step. */
  lemma Push(corrupted: set<Pos>, start: Pos, end: Pos, row: int, col: int,
             visited: set<Pos>, dist: map<Pos, nat>, paths: map<Pos, seq<Pos>>,
             done: set<Pos>, queue: seq<Grid>, level: nat, u: Pos, k: nat, q: Pos, steps: nat)
    requires Search(corrupted, start, end, row, col, visited, dist, paths, done, queue, level, u, k)
    requires k < |Directions| && q == Neighbour(u, k) && Open(q, corrupted, row, col) && q !in visited
    requires u in done && dist[u] == level && steps == level + 1
    ensures Search(corrupted, start, end, row, col, visited + {q}, dist[q := steps], paths[q := paths[u] + [q]],
                   done, queue + [Grid(q, steps)], level, u, k + 1)
  {
    PushVisits(corrupted, start, row, col, visited, dist, paths, u, q, steps);
    PushQueued(dist, done, queue, level, q, steps);
    PushExpanded(corrupted, end, row, col, dist, done, u, k, q, steps);
  }

  lemma PushVisits(corrupted: set<Pos>, start: Pos, row: int, col: int,
                   visited: set<Pos>, dist: map<Pos, nat>, paths: map<Pos, seq<Pos>>, u: Pos, q: Pos, steps: nat)
    requires Visits(corrupted, start, row, col, visited, dist, paths)
    requires u in dist && q in Neighbours(u) && Open(q, corrupted, row, col) && q !in visited && steps == dist[u] + 1
    ensures Visits(corrupted, start, row, col, visited + {q}, dist[q := steps], paths[q := paths[u] + [q]])
  {
    var w := paths[u] + [q];
    assert w[|w| - 2] == Last(paths[u]) == u;
    assert StepTo(w, |w| - 1, corrupted, row, col);
    assert forall i :: 0 < i < |w| - 1 ==> StepTo(paths[u], i, corrupted, row, col) ==> StepTo(w, i, corrupted, row, col);
    assert Walk(w, start, corrupted, row, col);
    var dist', paths' := dist[q := steps], paths[q := w];
    forall v | v in paths'
      ensures Walk(paths'[v], start, corrupted, row, col) && Last(paths'[v]) == v && |paths'[v]| == dist'[v] + 1
    {
      if v != q {
        assert paths'[v] == paths[v] && dist'[v] == dist[v];
      }
    }
  }

  lemma PushQueued(dist: map<Pos, nat>, done: set<Pos>, queue: seq<Grid>, level: nat, q: Pos, steps: nat)
    requires Queued(dist, done, queue, level)
    requires q !in dist && steps == level + 1
    ensures Queued(dist[q := steps], done, queue + [Grid(q, steps)], level)
  {
    var queue' := queue + [Grid(q, steps)];
    assert Positions(queue') == Positions(queue) + {q};
    forall i | 0 <= i < |queue| ensures queue[i].pos != q {
      assert queue[i].pos in Positions(queue);
    }
  }

  lemma PushExpanded(corrupted: set<Pos>, end: Pos, row: int, col: int,
                     dist: map<Pos, nat>, done: set<Pos>, u: Pos, k: nat, q: Pos, steps: nat)
    requires Expanded(corrupted, end, row, col, dist, done, u, k)
    requires k < |Directions| && q == Neighbour(u, k) && q !in dist && q !in done && u in dist && steps == dist[u] + 1
    ensures Expanded(corrupted, end, row, col, dist[q := steps], done, u, k + 1)
  {
    var dist' := dist[q := steps];
    forall v, j | v in done && v in dist' && 0 <= j < |Directions| && (v != u || j < k + 1) &&
                  Open(Neighbour(v, j), corrupted, row, col)
      ensures Neighbour(v, j) in dist' && dist'[Neighbour(v, j)] <= dist'[v] + 1
    {
      if v == u && j == k {
        assert dist'[v] == dist[u];
      } else {
        assert v in dist && Neighbour(v, j) in dist;
      }
    }
  }

  // ---------------------------------------------------------------------
  // What the answer of `bfs` means

  /** At most one number of steps answers the search: `bfs`'s result is
      determined by the grid. */
  lemma ShortestUnique(a: int, b: int, corrupted: set<Pos>, start: Pos, end: Pos, row: int, col: int)
    requires ShortestSteps(a, corrupted, start, end, row, col)
    requires ShortestSteps(b, corrupted, start, end, row, col)
    ensures a == b
  {
  }

  /** A walk that avoids more corrupted cells avoids fewer. */
  lemma WalkFewer(w: seq<Pos>, from: Pos, fewer: set<Pos>, more: set<Pos>, row: int, col: int)
    requires fewer <= more && Walk(w, from, more, row, col)
    ensures Walk(w, from, fewer, row, col)
  {
    forall i | 0 < i < |w| ensures StepTo(w, i, fewer, row, col) {
      assert StepTo(w, i, more, row, col);
    }
  }

  /** More corrupted cells never shorten the way: when the end can still
      be reached, it could be reached before, in no more steps. */
  lemma MoreCorruptedNoShorter(fewer: set<Pos>, more: set<Pos>, a: int, b: int,
                               start: Pos, end: Pos, row: int, col: int)
    requires fewer <= more
    requires ShortestSteps(a, fewer, start, end, row, col)
    requires ShortestSteps(b, more, start, end, row, col)
    requires b >= 0
    ensures 0 <= a <= b
  {
    var w :| Walk(w, start, more, row, col) && Last(w) == end && |w| == b + 1;
    WalkFewer(w, start, fewer, more, row, col);
  }

  /** Once the way is cut off, more corrupted cells keep it cut off. */
  lemma StaysBlocked(fewer: set<Pos>, more: set<Pos>, start: Pos, end: Pos, row: int, col: int)
    requires fewer <= more && Blocked(fewer, start, end, row, col)
    ensures Blocked(more, start, end, row, col)
  {
    forall w | Walk(w, start, more, row, col) ensures Last(w) != end {
      WalkFewer(w, start, fewer, more, row, col);
    }
  }

  // ---------------------------------------------------------------------
  // part1 and part2

  /** The cells corrupted by the first `n` bytes. */
  function Fallen(coordinates: seq<Pos>, n: int): set<Pos>
    requires n <= |coordinates|
  {
    set i | 0 <= i < n :: coordinates[i]
  }

  lemma FallenNext(coordinates: seq<Pos>, n: nat)
    requires n < |coordinates|
    ensures Fallen(coordinates, n + 1) == Fallen(coordinates, n) + {coordinates[n]}
  {
    forall p | p in Fallen(coordinates, n + 1) ensures p in Fallen(coordinates, n) + {coordinates[n]} {
      var i :| 0 <= i < n + 1 && coordinates[i] == p;
      if i < n {
        assert coordinates[i] in Fallen(coordinates, n);
      }
    }
  }

  lemma FallenGrows(coordinates: seq<Pos>, m: int, n: int)
    requires m <= n <= |coordinates|
    ensures Fallen(coordinates, m) <= Fallen(coordinates, n)
  {
  }

  /** `part1`: the fewest steps from the top-left corner to the
      bottom-right one once the first `bytes` bytes have fallen; None when
      there are fewer than `bytes` bytes (Go indexes past the end and
      panics). */
  method Part1(coordinates: seq<Pos>, col: int, row: int, bytes: int) returns (steps: Option<int>)
    ensures steps.None? <==> bytes > |coordinates|
    ensures steps.Some? ==> ShortestSteps(steps.value, Fallen(coordinates, bytes), (0, 0), (row - 1, col - 1), row, col)
  {
    var corrupted := HashSetUntil.NewHashSet();
    var i := 0;
    while i < bytes
      invariant 0 <= i <= |coordinates| && (i == 0 || i <= bytes)
      invariant corrupted.data == Fallen(coordinates, i)
    {
      if i == |coordinates| {
        return None;
      }
      FallenNext(coordinates, i);
      corrupted.Add(coordinates[i]);
      i := i + 1;
    }
    if bytes < 0 {
      assert Fallen(coordinates, bytes) == {} == Fallen(coordinates, 0);
    }
    var answer := Bfs(corrupted, (0, 0), (row - 1, col - 1), row, col);
    return Some(answer);
  }

  /** The way from the top-left corner to the bottom-right one is cut off
      once byte `i` has fallen. */
  ghost predicate CutAt(coordinates: seq<Pos>, i: nat, row: int, col: int)
    requires i < |coordinates|
  {
    Blocked(Fallen(coordinates, i + 1), (0, 0), (row - 1, col - 1), row, col)
  }

  /** Every byte after the one that cuts the way off leaves it cut off, so
      the first such byte marks a threshold. */
  lemma CutStays(coordinates: seq<Pos>, i: nat, j: nat, row: int, col: int)
    requires i <= j < |coordinates| && CutAt(coordinates, i, row, col)
    ensures CutAt(coordinates, j, row, col)
  {
    FallenGrows(coordinates, i + 1, j + 1);
    StaysBlocked(Fallen(coordinates, i + 1), Fallen(coordinates, j + 1), (0, 0), (row - 1, col - 1), row, col);
  }

  /** `part2`: the bytes fall one at a time and the search runs after each;
      the answer is the first byte after which no way is left, or None
      when the way stays open to the last byte. */
  method Part2(coordinates: seq<Pos>, col: int, row: int) returns (cut: Option<Pos>)
    ensures cut.None? ==> forall i :: 0 <= i < |coordinates| ==> !CutAt(coordinates, i, row, col)
    ensures cut.Some? ==> exists i :: 0 <= i < |coordinates| && coordinates[i] == cut.value &&
                                      CutAt(coordinates, i, row, col) &&
                                      forall j :: 0 <= j < i ==> !CutAt(coordinates, j, row, col)
  {
    var corrupted := HashSetUntil.NewHashSet();
    for i := 0 to |coordinates|
      invariant corrupted.data == Fallen(coordinates, i)
      invariant forall j :: 0 <= j < i ==> !CutAt(coordinates, j, row, col)
    {
      FallenNext(coordinates, i);
      corrupted.Add(coordinates[i]);
      var steps := Bfs(corrupted, (0, 0), (row - 1, col - 1), row, col);
      if steps == -1 {
        return Some(coordinates[i]);
      }
      var w :| Walk(w, (0, 0), corrupted.data, row, col) && Last(w) == (row - 1, col - 1) && |w| == steps + 1;
    }
    return None;
  }

  /** `main`: the coordinates are parsed, then both parts run on a grid of
      side `Side`, part 1 with the first `Part1Bytes` bytes; None when
      parsing stops the program or part 1 panics before part 2 runs. */
  method Solve(input: seq<string>) returns (answers: Option<(int, Option<Pos>)>)
    ensures answers.None? <==> Coordinates(input).None? || |Coordinates(input).value| < Part1Bytes
    ensures answers.Some? ==>
              var coordinates := Coordinates(input).value;
              ShortestSteps(answers.value.0, Fallen(coordinates, Part1Bytes), (0, 0), (Side - 1, Side - 1), Side, Side) &&
              (answers.value.1.None? <==> forall i :: 0 <= i < |coordinates| ==> !CutAt(coordinates, i, Side, Side))
  {
    var coordinates := ParseCoordinates(input);
    if coordinates.None? {
      return None;
    }
    var steps := Part1(coordinates.value, Side, Side, Part1Bytes);
    if steps.None? {
      return None;
    }
    var cut := Part2(coordinates.value, Side, Side);
    return Some((steps.value, cut));
  }

  // ---------------------------------------------------------------------
  // parseCoordinates

  /** A line's coordinates: the first two matches of `-?\d+`, read by
      `util.ParseInt`; None when there are fewer than two (Go indexes past
      the matches and panics). */
  function Coordinate(line: string): Option<Pos>
  {
    var numbers := SignedNumerals(line);
    if |numbers| < 2 then None
    else
      match (Atoi(numbers[0]), Atoi(numbers[1]))
      case (Some(x), Some(y)) => Some((x, y))
      case _ => None
  }

  /** A line yields a coordinate exactly when it holds two numbers. */
  lemma CoordinateDefined(line: string)
    ensures Coordinate(line).Some? <==> |SignedNumerals(line)| >= 2
  {
    SignedNumeralsParse(line);
    var numbers := SignedNumerals(line);
    if |numbers| >= 2 {
      assert numbers[0] in numbers && numbers[1] in numbers;
    }
  }

  /** The coordinates of every line, in order; None when a line has fewer
      than two numbers. */
  function Coordinates(input: seq<string>): (r: Option<seq<Pos>>)
    ensures r.Some? <==> forall k :: 0 <= k < |input| ==> Coordinate(input[k]).Some?
    ensures r.Some? ==> |r.value| == |input| &&
                        forall k :: 0 <= k < |input| ==> Coordinate(input[k]) == Some(r.value[k])
  {
    if |input| == 0 then Some([])
    else
      match (Coordinates(input[..|input| - 1]), Coordinate(input[|input| - 1]))
      case (Some(front), Some(p)) => Some(front + [p])
      case _ => None
  }

  /** `parseCoordinates`: one coordinate per line, appended in order. */
  method ParseCoordinates(input: seq<string>) returns (coordinates: Option<seq<Pos>>)
    ensures coordinates == Coordinates(input)
  {
    var list: seq<Pos> := [];
    for k := 0 to |input|
      invariant Coordinates(input[..k]) == Some(list)
    {
      assert input[..k + 1][..k] == input[..k] && input[..k + 1][k] == input[k];
      var numbers := SignedNumerals(input[k]);
      if |numbers| < 2 {
        return None;
      }
      var x := Atoi(numbers[0]);
      var y := Atoi(numbers[1]);
      if x.None? || y.None? {
        return None;
      }
      list := list + [(x.value, y.value)];
    }
    assert input[..|input|] == input;
    return Some(list);
  }

  /** The line `x,y` of the puzzle's input. */
  function CoordinateLine(p: Pos): string
  {
    Itoa(p.0) + "," + Itoa(p.1)
  }

  /** A line written as `x,y` reads back as the same coordinate. */
  lemma CoordinateLineRoundTrip(p: Pos)
    ensures Coordinate(CoordinateLine(p)) == Some(p)
  {
    var tail := Itoa(p.1);
    assert CoordinateLine(p) == Itoa(p.0) + ("," + tail);
    SignedNumeralsItoa(p.0, "," + tail);
    SignedNumeralsSkip(",", tail);
    assert tail + "" == tail;
    SignedNumeralsItoa(p.1, "");
    AtoiItoa(p.0);
    AtoiItoa(p.1);
  }

  /** The puzzle's input: one `x,y` line per coordinate. */
  function CoordinateLines(coordinates: seq<Pos>): (lines: seq<string>)
    ensures |lines| == |coordinates| &&
            forall i :: 0 <= i < |coordinates| ==> lines[i] == CoordinateLine(coordinates[i])
  {
    seq(|coordinates|, i requires 0 <= i < |coordinates| => CoordinateLine(coordinates[i]))
  }

  /** Every list of coordinates, written one `x,y` per line, parses back. */
  lemma CoordinatesRoundTrip(coordinates: seq<Pos>)
    ensures Coordinates(CoordinateLines(coordinates)) == Some(coordinates)
  {
    var lines := CoordinateLines(coordinates);
    forall k | 0 <= k < |lines| ensures Coordinate(lines[k]) == Some(coordinates[k]) {
      CoordinateLineRoundTrip(coordinates[k]);
    }
    var parsed := Coordinates(lines).value;
    assert parsed == coordinates;
  }
}
