/** Day 16: a reindeer runs a maze from `S` to `E`. A step forward costs
    1 and a quarter turn on the spot costs 1000; `dijkstra` finds the
    cheapest score. The states, moves and walks are shared with the search
    for the tiles of the best paths (module `Day16Paths`). */
module Day16 {
  import opened Wrappers
  import HashSetUtil

  type Pos = (int, int)

  /** A Go `[][]string` of one-character strings. */
  type Grid = seq<seq<char>>

  const Wall := '#'
  const StartMark := 'S'
  const EndMark := 'E'
  const TurnCost := 1000

  /** Direction 0 of the `directions` table, the one the reindeer starts
      facing. */
  const East := 0

  /** Go's `directions` map: 0 East, 1 South, 2 West, 3 North, as (row,
      column) offsets; a missing key reads as the zero offset. */
  function Direction(d: int): Pos
  {
    if d == 0 then (0, 1) else if d == 1 then (1, 0) else if d == 2 then (0, -1) else if d == 3 then (-1, 0) else (0, 0)
  }

  /** The two quarter turns, in the order the searches try them. */
  const Rotations: seq<int> := [1, -1]

  /** `setItem`: a tile and the direction faced on it. */
  datatype State = State(pos: Pos, dir: int)

  /** `PriorityQueueItem`, without the heap index it keeps for itself. */
  datatype Item = Item(pos: Pos, dir: int, cost: int)

  function StateOf(x: Item): State
  {
    State(x.pos, x.dir)
  }

  function ItemOf(s: State, cost: int): Item
  {
    Item(s.pos, s.dir, cost)
  }

  /** The state one tile forward. */
  function Ahead(s: State): State
  {
    State((s.pos.0 + Direction(s.dir).0, s.pos.1 + Direction(s.dir).1), s.dir)
  }

  /** The state after turning by `r` quarters on the spot. Go computes
      `(r + dir + 4) % 4`, whose operand is not negative for a direction in
      0..3 and a turn of one quarter, so Go's `%` agrees with Dafny's. */
  function Turn(s: State, r: int): State
  {
    State(s.pos, (r + s.dir + 4) % 4)
  }

  /** Inside the grid as both searches bound it: `len(grid)` rows and
      `len(grid[0])` columns. */
  predicate InGrid(grid: Grid, p: Pos)
  {
    |grid| > 0 && 0 <= p.0 < |grid| && 0 <= p.1 < |grid[0]|
  }

  /** A tile the reindeer may step onto: inside the grid, present in its
      row and not a wall. */
  predicate Open(grid: Grid, p: Pos)
  {
    InGrid(grid, p) && p.1 < |grid[p.0]| && grid[p.0][p.1] != Wall
  }

  /** Every row as long as the first, so no index of the searches fails. */
  predicate Rectangular(grid: Grid)
  {
    |grid| > 0 && forall r :: 0 <= r < |grid| ==> |grid[r]| == |grid[0]|
  }

  /** One move: forward onto an open tile, or a quarter turn either way. */
  predicate Step(grid: Grid, a: State, b: State)
  {
    0 <= a.dir < 4 && ((b == Ahead(a) && Open(grid, b.pos)) || b == Turn(a, 1) || b == Turn(a, -1))
  }

  /** The score of a move: a turn stays on its tile and costs 1000, a step
      forward costs 1. */
  function Weight(a: State, b: State): nat
  {
    if a.pos == b.pos then TurnCost else 1
  }

  /** A walk from `from`: every state one move from the one before. */
  predicate Walk(grid: Grid, w: seq<State>, from: State)
  {
    |w| >= 1 && w[0] == from && forall i :: 0 < i < |w| ==> StepInto(grid, w, i)
  }

  predicate StepInto(grid: Grid, w: seq<State>, i: nat)
    requires 0 < i < |w|
  {
    Step(grid, w[i - 1], w[i])
  }

  function Last(w: seq<State>): State
    requires |w| > 0
  {
    w[|w| - 1]
  }

  /** The score of the first `n` moves of `w`. */
  function CostTo(w: seq<State>, n: nat): nat
    requires n < |w|
  {
    if n == 0 then 0 else CostTo(w, n - 1) + Weight(w[n - 1], w[n])
  }

  function Cost(w: seq<State>): nat
    requires |w| > 0
  {
    CostTo(w, |w| - 1)
  }

  /** The reindeer starts on `start` facing East. */
  function Begin(start: Pos): State
  {
    State(start, East)
  }

  /** What `dijkstra` answers: the lowest score of a walk from the start to
      any state on `end`, or -1 exactly when no walk reaches `end`. */
  ghost predicate Cheapest(grid: Grid, start: Pos, end: Pos, answer: int)
  {
    answer >= -1 &&
    (answer >= 0 ==> exists w :: Walk(grid, w, Begin(start)) && Last(w).pos == end && Cost(w) == answer) &&
    (answer >= 0 ==> forall w :: Walk(grid, w, Begin(start)) && Last(w).pos == end ==> Cost(w) >= answer) &&
    (answer == -1 ==> forall w :: Walk(grid, w, Begin(start)) ==> Last(w).pos != end)
  }

  // ---------------------------------------------------------------------
  // Moves and walks

  /** The moves of the maze: forward keeps the direction and enters the
      neighbouring tile the direction points at; a quarter turn keeps the
      tile and faces a direction in 0..3 at right angles to the old one. */
  lemma Moves(s: State, r: int)
    requires 0 <= s.dir < 4 && (r == 1 || r == -1)
    ensures Ahead(s).dir == s.dir && Ahead(s).pos != s.pos
    ensures Ahead(s).pos.0 == s.pos.0 || Ahead(s).pos.1 == s.pos.1
    ensures Ahead(s).pos.0 - s.pos.0 + Ahead(s).pos.1 - s.pos.1 == 1 || Ahead(s).pos.0 - s.pos.0 + Ahead(s).pos.1 - s.pos.1 == -1
    ensures Turn(s, r).pos == s.pos && 0 <= Turn(s, r).dir < 4 && Turn(s, r).dir != s.dir
    ensures Direction(Turn(s, r).dir).0 * Direction(s.dir).0 + Direction(Turn(s, r).dir).1 * Direction(s.dir).1 == 0
  {
  }

  /** The score of a move: forward costs 1 and enters an open tile, a turn
      costs 1000 and faces a direction in 0..3. */
  lemma {:induction false} StepCost(grid: Grid, a: State, b: State)
    requires Step(grid, a, b)
    ensures 0 <= b.dir < 4
    ensures b.pos == a.pos ==> Weight(a, b) == TurnCost && b.dir != a.dir && (b == Turn(a, 1) || b == Turn(a, -1))
    ensures b.pos != a.pos ==> Weight(a, b) == 1 && b.dir == a.dir && b == Ahead(a) && Open(grid, b.pos)
  {
    assert Ahead(a).pos != a.pos by {
      assert Direction(a.dir) != (0, 0);
    }
    assert Turn(a, 1).dir != a.dir && Turn(a, -1).dir != a.dir;
  }

  /** A walk extended by one move is a walk, and its score grows by that
      move's. */
  lemma {:induction false} Extend(grid: Grid, w: seq<State>, from: State, b: State)
    requires Walk(grid, w, from) && Step(grid, Last(w), b)
    ensures Walk(grid, w + [b], from) && Last(w + [b]) == b
    ensures Cost(w + [b]) == Cost(w) + Weight(Last(w), b)
  {
    var v := w + [b];
    forall i | 0 < i < |v|
      ensures StepInto(grid, v, i)
    {
      if i < |w| {
        assert StepInto(grid, w, i);
      }
    }
    CostToPrefix(w, v, |w| - 1);
  }

  /** The score of the first `n` moves depends on the first `n + 1`
      states only. */
  lemma {:induction false} CostToPrefix(w: seq<State>, v: seq<State>, n: nat)
    requires n < |w| <= |v| && w == v[..|w|]
    ensures CostTo(w, n) == CostTo(v, n)
  {
    if n > 0 {
      CostToPrefix(w, v, n - 1);
    }
  }

  /** Scores only grow along a walk. */
  lemma {:induction false} CostGrows(w: seq<State>, m: nat, n: nat)
    requires m <= n < |w|
    ensures CostTo(w, m) <= CostTo(w, n)
    decreases n - m
  {
    if m < n {
      CostGrows(w, m, n - 1);
    }
  }

  /** Every state of a walk faces a direction in 0..3 when its first does. */
  lemma {:induction false} WalkDirections(grid: Grid, w: seq<State>, from: State, n: nat)
    requires Walk(grid, w, from) && n < |w| && 0 <= from.dir < 4
    ensures 0 <= w[n].dir < 4
  {
    if n > 0 {
      assert StepInto(grid, w, n);
      StepCost(grid, w[n - 1], w[n]);
    }
  }

  /** A walk from an East-facing start that scores under 1000 makes no
      turn: it runs straight East, one tile per point. */
  lemma {:induction false} Straight(grid: Grid, w: seq<State>, from: State, n: nat)
    requires Walk(grid, w, from) && from.dir == East && n < |w| && CostTo(w, n) < TurnCost
    ensures w[n] == State((from.pos.0, from.pos.1 + n), East) && CostTo(w, n) == n
  {
    if n > 0 {
      CostGrows(w, n - 1, n);
      Straight(grid, w, from, n - 1);
      assert StepInto(grid, w, n);
      StepCost(grid, w[n - 1], w[n]);
    }
  }

  // ---------------------------------------------------------------------
  // findPOS

  /** Every cell before (`r`, `c`), in the row-major order `findPOS` scans
      `len(grid)` rows of `len(grid[0])` columns, is present and differs
      from `s`. */
  predicate Clear(grid: Grid, s: char, r: int, c: int)
    requires |grid| > 0
  {
    forall i, j :: 0 <= i < |grid| && 0 <= j < |grid[0]| && (i < r || (i == r && j < c)) ==> Differs(grid, s, i, j)
  }

  /** Cell (`i`, `j`) is present and differs from `s`. */
  predicate Differs(grid: Grid, s: char, i: int, j: int)
    requires 0 <= i < |grid|
  {
    0 <= j < |grid[i]| && grid[i][j] != s
  }

  /** `p` is what `findPOS` answers: the first cell holding `s`, or
      (-1, -1) when no cell does. */
  predicate Located(grid: Grid, s: char, p: Pos)
  {
    |grid| > 0 &&
    ((p != (-1, -1) && InGrid(grid, p) && p.1 < |grid[p.0]| && grid[p.0][p.1] == s && Clear(grid, s, p.0, p.1)) ||
     (p == (-1, -1) && Clear(grid, s, |grid|, 0)))
  }

  /** `findPOS`: the grid is scanned row by row. Go panics on an empty grid
      and on a row shorter than the first that the scan reaches before a
      match; the model answers None there. */
  method FindPos(grid: Grid, s: char) returns (p: Option<Pos>)
    ensures p.Some? ==> Located(grid, s, p.value)
    ensures p.None? ==> (|grid| == 0 ||
              exists r, c :: 0 <= r < |grid| && 0 <= c < |grid[0]| && c >= |grid[r]| && Clear(grid, s, r, c))
    ensures Rectangular(grid) ==> p.Some?
  {
    if |grid| == 0 {
      return None;
    }
    var rows := |grid|;
    var cols := |grid[0]|;
    for r := 0 to rows
      invariant Clear(grid, s, r, 0)
    {
      for c := 0 to cols
        invariant Clear(grid, s, r, c)
      {
        if c >= |grid[r]| {
          return None;
        }
        if grid[r][c] == s {
          return Some((r, c));
        }
        assert Differs(grid, s, r, c);
      }
    }
    return Some((-1, -1));
  }

  // ---------------------------------------------------------------------
  // dijkstra

  /** An item is pushed when it is in the queue or has been taken off it. */
  predicate Pushed(frontier: multiset<Item>, popped: set<Item>, x: Item)
  {
    x in frontier || x in popped
  }

  /** The item of least cost in the queue, the one `heap.Pop` returns; the
      heap breaks ties in an order not modelled here, so any least item may
      be taken. */
  predicate Least(frontier: multiset<Item>, x: Item)
  {
    x in frontier && forall y {:trigger frontier[y]} :: y in frontier ==> x.cost <= y.cost
  }

  lemma {:induction false} LeastExists(frontier: multiset<Item>) returns (x: Item)
    requires |frontier| > 0
    ensures Least(frontier, x)
    decreases |frontier|
  {
    var y :| y in frontier;
    var rest := frontier - multiset{y};
    if |rest| == 0 {
      assert frontier == multiset{y};
      return y;
    }
    var z := LeastExists(rest);
    x := if y.cost <= z.cost then y else z;
    forall u | u in frontier
      ensures x.cost <= u.cost
    {
      if u != y {
        assert u in rest;
      }
    }
  }

  /** The state of the search: `DWalks`, `DLevels`, `DDone` and
      `DExpanded`, and the start item pushed. `dist` gives the score at
      which each visited state was expanded; `except` holds the state being
      expanded, whose moves are not all pushed yet. */
  ghost predicate DSearch(grid: Grid, start: Pos, end: Pos, frontier: multiset<Item>, popped: set<Item>,
                          dist: map<State, int>, level: int, paths: map<Item, seq<State>>, except: set<State>)
  {
    DWalks(grid, start, frontier, popped, paths) &&
    DLevels(frontier, popped, level) &&
    DDone(end, popped, dist) &&
    DExpanded(grid, frontier, popped, dist, except) &&
    Pushed(frontier, popped, ItemOf(Begin(start), 0))
  }

  /** Every pushed item has a walk from the start to its state with its
      cost, and faces a direction in 0..3. */
  ghost predicate DWalks(grid: Grid, start: Pos, frontier: multiset<Item>, popped: set<Item>, paths: map<Item, seq<State>>)
  {
    (forall x {:trigger frontier[x]} :: x in frontier ==> x in paths && 0 <= x.dir < 4) &&
    (forall y :: y in popped ==> y in paths) &&
    (forall x {:trigger WalkTo(grid, start, paths, x)} :: x in paths ==> WalkTo(grid, start, paths, x))
  }

  /** `paths` holds a walk from the start to the state of `x`, with the
      cost of `x`. */
  ghost predicate WalkTo(grid: Grid, start: Pos, paths: map<Item, seq<State>>, x: Item)
    requires x in paths
  {
    Walk(grid, paths[x], Begin(start)) && Last(paths[x]) == StateOf(x) && Cost(paths[x]) == x.cost
  }

  /** Items leave the queue in order of cost: none taken off costs more
      than `level`, none waiting costs less. */
  ghost predicate DLevels(frontier: multiset<Item>, popped: set<Item>, level: int)
  {
    0 <= level &&
    (forall x {:trigger frontier[x]} :: x in frontier ==> level <= x.cost) &&
    (forall y {:trigger y in popped} :: y in popped ==> y.cost <= level)
  }

  /** Every item taken off the queue left its state visited with a score no
      higher, and none was on `end`; every visited state was expanded from
      an item taken off the queue. */
  ghost predicate DDone(end: Pos, popped: set<Item>, dist: map<State, int>)
  {
    (forall y {:trigger y in popped} :: y in popped ==> StateOf(y) in dist && dist[StateOf(y)] <= y.cost && y.pos != end) &&
    (forall v :: v in dist ==> ItemOf(v, dist[v]) in popped)
  }

  /** Every move out of an expanded state has been pushed with the score of
      the expansion plus that of the move. */
  ghost predicate DExpanded(grid: Grid, frontier: multiset<Item>, popped: set<Item>, dist: map<State, int>, except: set<State>)
  {
    forall v, b :: v in dist && v !in except && Step(grid, v, b) ==>
      Pushed(frontier, popped, ItemOf(b, dist[v] + Weight(v, b)))
  }

  /** The states the search can reach: the start's four and those of the
      cells of the grid. */
  ghost predicate InBox(grid: Grid, start: Pos, v: State)
  {
    0 <= v.dir < 4 && (v.pos == start || InGrid(grid, v.pos))
  }

  predicate Bounded(grid: Grid, start: Pos, frontier: multiset<Item>)
  {
    forall x {:trigger frontier[x]} :: x in frontier ==> 0 <= x.dir < 4 && (x.pos == start || InGrid(grid, x.pos))
  }

  /** Every state of a walk from the start stands on the start tile or
      inside the grid, facing a direction in 0..3. */
  lemma {:induction false} WalkInBox(grid: Grid, start: Pos, w: seq<State>, n: nat)
    requires Walk(grid, w, Begin(start)) && n < |w|
    ensures InBox(grid, start, w[n])
  {
    if n > 0 {
      WalkInBox(grid, start, w, n - 1);
      assert StepInto(grid, w, n);
      StepCost(grid, w[n - 1], w[n]);
    }
  }

  lemma Inside(grid: Grid, start: Pos, frontier: multiset<Item>, x: Item)
    requires Bounded(grid, start, frontier) && x in frontier
    ensures InBox(grid, start, StateOf(x))
  {
  }

  /** A finite set holding every state the search can reach, which bounds
      the number of states it visits. */
  lemma AreaOf(grid: Grid, start: Pos) returns (area: set<State>)
    requires |grid| > 0
    ensures forall v {:trigger InBox(grid, start, v)} :: InBox(grid, start, v) ==> v in area
  {
    var rows, cols := |grid|, |grid[0]|;
    area := (set r, c, d | 0 <= r < rows && 0 <= c < cols && 0 <= d < 4 :: State((r, c), d)) +
            (set d | 0 <= d < 4 :: State(start, d));
    forall v | InBox(grid, start, v)
      ensures v in area
    {
      if v.pos != start {
        var i, j, k := v.pos.0, v.pos.1, v.dir;
        assert v == State((i, j), k);
      } else {
        var k := v.dir;
        assert v == State(start, k);
      }
    }
  }

  lemma Shrinks<T>(s: set<T>, x: T)
    requires x in s
    ensures |s - {x}| < |s|
  {
  }

  /** `dijkstra`: the least item is taken off the queue; the answer is its
      cost when it stands on `end`; a state already visited is passed over;
      otherwise the state is marked visited and the step forward (when it
      enters an open tile) and both turns are pushed. The queue running dry
      answers -1. Go panics on an empty grid and on a row shorter than the
      first that a step reaches; the model answers None there. Each state
      is expanded at most once: `expanded` lists them in order. */
  method Dijkstra(grid: Grid, start: Pos, end: Pos) returns (answer: Option<int>, ghost expanded: seq<State>)
    ensures answer.Some? ==> Cheapest(grid, start, end, answer.value)
    ensures Rectangular(grid) ==> answer.Some?
    ensures Distinct(expanded)
  {
    expanded := [];
    if |grid| == 0 {
      return None, expanded;
    }
    ghost var unvisited := AreaOf(grid, start);
    var frontier := multiset{Item(start, East, 0)};
    var visited := new HashSetUtil.HashSet<State>();
    ghost var popped: set<Item> := {};
    ghost var dist: map<State, int> := map[];
    ghost var level := 0;
    ghost var paths := map[Item(start, East, 0) := [Begin(start)]];

    while |frontier| > 0
      invariant fresh(visited)
      invariant visited.data == dist.Keys
      invariant Search(grid, start, end, frontier, popped, dist, level, paths, expanded, unvisited)
      decreases |unvisited|, |frontier|
    {
      ghost var least := LeastExists(frontier);
      var item :| Least(frontier, item);
      if item.pos == end {
        Found(grid, start, end, frontier, popped, dist, level, paths, item);
        return Some(item.cost), expanded;
      }
      var state := State(item.pos, item.dir);
      if visited.Contains(state) {
        Revisit(grid, start, end, frontier, popped, dist, level, paths, expanded, unvisited, item);
        frontier := frontier - multiset{item};
        popped := popped + {item};
        level := item.cost;
        continue;
      }
      visited.Add(state);
      var ok;
      ok, frontier, popped, dist, level, paths, expanded, unvisited :=
        Settle(grid, start, end, frontier, popped, dist, level, paths, expanded, unvisited, item);
      if !ok {
        return None, expanded;
      }
    }
    Drained(grid, start, end, frontier, popped, dist, level, paths);
    return Some(-1), expanded;
  }

  /** The invariant of the loop of `dijkstra`: `DSearch`, every waiting
      item inside the grid or on the start, each state expanded once, and
      every state not yet visited among `unvisited`, which shrinks. */
  ghost predicate Search(grid: Grid, start: Pos, end: Pos, frontier: multiset<Item>, popped: set<Item>,
                         dist: map<State, int>, level: int, paths: map<Item, seq<State>>,
                         expanded: seq<State>, unvisited: set<State>)
  {
    DSearch(grid, start, end, frontier, popped, dist, level, paths, {}) &&
    Bounded(grid, start, frontier) &&
    Listed(expanded, dist) &&
    forall v {:trigger InBox(grid, start, v)} :: InBox(grid, start, v) && v !in dist ==> v in unvisited
  }

  /** A state not visited before is marked visited and expanded. */
  method Settle(grid: Grid, ghost start: Pos, ghost end: Pos, frontier0: multiset<Item>, ghost popped0: set<Item>,
                ghost dist0: map<State, int>, ghost level0: int, ghost paths0: map<Item, seq<State>>,
                ghost expanded0: seq<State>, ghost unvisited0: set<State>, item: Item)
    returns (ok: bool, frontier: multiset<Item>, ghost popped: set<Item>, ghost dist: map<State, int>, ghost level: int,
             ghost paths: map<Item, seq<State>>, ghost expanded: seq<State>, ghost unvisited: set<State>)
    requires |grid| > 0
    requires Search(grid, start, end, frontier0, popped0, dist0, level0, paths0, expanded0, unvisited0)
    requires Least(frontier0, item) && item.pos != end && StateOf(item) !in dist0
    ensures dist.Keys == dist0.Keys + {StateOf(item)} && |unvisited| < |unvisited0|
    ensures ok ==> Search(grid, start, end, frontier, popped, dist, level, paths, expanded, unvisited)
    ensures !ok ==> !Rectangular(grid) && Distinct(expanded)
  {
    var state := StateOf(item);
    Inside(grid, start, frontier0, item);
    Shrinks(unvisited0, state);
    unvisited := unvisited0 - {state};
    Visit(grid, start, end, frontier0, popped0, dist0, level0, paths0, item);
    KeysAdd(dist0, state, item.cost);
    Append(expanded0, dist0, state, item.cost);
    frontier := frontier0 - multiset{item};
    popped := popped0 + {item};
    dist := dist0[state := item.cost];
    level := item.cost;
    expanded := expanded0 + [state];
    Within(grid, start, frontier0, item);
    ok, frontier, paths := Expand(grid, start, end, frontier, popped, dist, level, paths0, item);
  }

  /** Taking an item off the queue leaves the rest inside the grid. */
  lemma Within(grid: Grid, start: Pos, frontier: multiset<Item>, item: Item)
    requires Bounded(grid, start, frontier)
    ensures Bounded(grid, start, frontier - multiset{item})
  {
    forall x | x in frontier - multiset{item}
      ensures x in frontier
    {
    }
  }

  ghost predicate Distinct(s: seq<State>)
  {
    forall i, j :: 0 <= i < j < |s| ==> s[i] != s[j]
  }

  ghost predicate Listed(s: seq<State>, dist: map<State, int>)
  {
    Distinct(s) && forall i :: 0 <= i < |s| ==> s[i] in dist
  }

  lemma KeysAdd(dist: map<State, int>, v: State, c: int)
    ensures dist[v := c].Keys == dist.Keys + {v}
  {
  }

  lemma Append(s: seq<State>, dist: map<State, int>, v: State, c: int)
    requires Listed(s, dist) && v !in dist
    ensures Listed(s + [v], dist[v := c])
  {
  }

  /** The expansion of a state in `dijkstra`: the step forward is pushed
      when it enters an open tile, then both turns. */
  method Expand(grid: Grid, ghost start: Pos, ghost end: Pos, frontier0: multiset<Item>, ghost popped: set<Item>,
                ghost dist: map<State, int>, ghost level: int, ghost paths0: map<Item, seq<State>>, item: Item)
    returns (ok: bool, frontier: multiset<Item>, ghost paths: map<Item, seq<State>>)
    requires |grid| > 0 && Bounded(grid, start, frontier0)
    requires DSearch(grid, start, end, frontier0, popped, dist, level, paths0, {StateOf(item)})
    requires 0 <= item.dir < 4 && (item.pos == start || InGrid(grid, item.pos))
    requires item in popped && StateOf(item) in dist && dist[StateOf(item)] == item.cost == level
    ensures ok ==> DSearch(grid, start, end, frontier, popped, dist, level, paths, {}) && Bounded(grid, start, frontier)
    ensures !ok ==> !Rectangular(grid)
  {
    frontier, paths := frontier0, paths0;
    var newPos := (item.pos.0 + Direction(item.dir).0, item.pos.1 + Direction(item.dir).1);

    if 0 <= newPos.0 < |grid| && 0 <= newPos.1 < |grid[0]| {
      if newPos.1 >= |grid[newPos.0]| {
        return false, frontier, paths;
      }
      if grid[newPos.0][newPos.1] != Wall {
        var next := Item(newPos, item.dir, item.cost + 1);
        PushAhead(grid, start, end, frontier, popped, dist, level, paths, item, next);
        frontier := frontier + multiset{next};
        paths := paths[next := paths[item] + [StateOf(next)]];
      } else {
        Blocked(grid, start, end, frontier, popped, dist, level, paths, item);
      }
    } else {
      Blocked(grid, start, end, frontier, popped, dist, level, paths, item);
    }
    for k := 0 to |Rotations|
      invariant Turning(grid, start, end, frontier, popped, dist, level, paths, item, k)
    {
      var newFacing := (Rotations[k] + item.dir + 4) % 4;
      var next := Item(item.pos, newFacing, item.cost + TurnCost);
      PushTurn(grid, start, end, frontier, popped, dist, level, paths, item, k, next);
      frontier := frontier + multiset{next};
      paths := paths[next := paths[item] + [StateOf(next)]];
    }
    Close(grid, start, end, frontier, popped, dist, level, paths, item);
    ok := true;
  }

  /** The state of the loop over the turns: the step forward, when open,
      and the first `k` turns are pushed. */
  ghost predicate Turning(grid: Grid, start: Pos, end: Pos, frontier: multiset<Item>, popped: set<Item>,
                          dist: map<State, int>, level: int, paths: map<Item, seq<State>>, item: Item, k: int)
  {
    DSearch(grid, start, end, frontier, popped, dist, level, paths, {StateOf(item)}) && Bounded(grid, start, frontier) &&
    0 <= item.dir < 4 && (item.pos == start || InGrid(grid, item.pos)) &&
    item in popped && StateOf(item) in dist && dist[StateOf(item)] == item.cost == level &&
    (Open(grid, Ahead(StateOf(item)).pos) ==> Pushed(frontier, popped, ItemOf(Ahead(StateOf(item)), item.cost + 1))) &&
    (k > 0 ==> Pushed(frontier, popped, ItemOf(Turn(StateOf(item), Rotations[0]), item.cost + TurnCost))) &&
    (k > 1 ==> Pushed(frontier, popped, ItemOf(Turn(StateOf(item), Rotations[1]), item.cost + TurnCost)))
  }

  /** With the tile ahead not open, the turns are all that is left to push. */
  lemma Blocked(grid: Grid, start: Pos, end: Pos, frontier: multiset<Item>, popped: set<Item>,
                dist: map<State, int>, level: int, paths: map<Item, seq<State>>, item: Item)
    requires Bounded(grid, start, frontier)
    requires DSearch(grid, start, end, frontier, popped, dist, level, paths, {StateOf(item)})
    requires 0 <= item.dir < 4 && (item.pos == start || InGrid(grid, item.pos))
    requires item in popped && StateOf(item) in dist && dist[StateOf(item)] == item.cost == level
    requires !Open(grid, Ahead(StateOf(item)).pos)
    ensures Turning(grid, start, end, frontier, popped, dist, level, paths, item, 0)
  {
  }

  /** Pushing the step forward into an open tile. */
  lemma PushAhead(grid: Grid, start: Pos, end: Pos, frontier: multiset<Item>, popped: set<Item>,
                  dist: map<State, int>, level: int, paths: map<Item, seq<State>>, item: Item, next: Item)
    requires Bounded(grid, start, frontier)
    requires DSearch(grid, start, end, frontier, popped, dist, level, paths, {StateOf(item)})
    requires 0 <= item.dir < 4 && (item.pos == start || InGrid(grid, item.pos))
    requires item in popped && StateOf(item) in dist && dist[StateOf(item)] == item.cost == level
    requires Open(grid, next.pos) && next == ItemOf(Ahead(StateOf(item)), item.cost + 1)
    ensures Turning(grid, start, end, frontier + multiset{next}, popped, dist, level,
                    paths[next := paths[item] + [StateOf(next)]], item, 0)
  {
    Push(grid, start, end, frontier, popped, dist, level, paths, {StateOf(item)}, item, next);
  }

  /** Pushing the `k`-th turn. */
  lemma PushTurn(grid: Grid, start: Pos, end: Pos, frontier: multiset<Item>, popped: set<Item>,
                 dist: map<State, int>, level: int, paths: map<Item, seq<State>>, item: Item, k: int, next: Item)
    requires Turning(grid, start, end, frontier, popped, dist, level, paths, item, k) && 0 <= k < |Rotations|
    requires next == Item(item.pos, (Rotations[k] + item.dir + 4) % 4, item.cost + TurnCost)
    ensures Turning(grid, start, end, frontier + multiset{next}, popped, dist, level,
                    paths[next := paths[item] + [StateOf(next)]], item, k + 1)
  {
    assert StateOf(next) == Turn(StateOf(item), Rotations[k]);
    assert Step(grid, StateOf(item), StateOf(next));
    Push(grid, start, end, frontier, popped, dist, level, paths, {StateOf(item)}, item, next);
  }

  /** Everything pushed in the first queue state is pushed in the second. */
  ghost predicate Covers(f: multiset<Item>, p: set<Item>, f2: multiset<Item>, p2: set<Item>)
  {
    forall x :: Pushed(f, p, x) ==> Pushed(f2, p2, x)
  }

  lemma TakeCovers(f: multiset<Item>, p: set<Item>, item: Item)
    requires item in f
    ensures Covers(f, p, f - multiset{item}, p + {item})
  {
    forall x | Pushed(f, p, x)
      ensures Pushed(f - multiset{item}, p + {item}, x)
    {
      if x != item && x in f {
        assert (f - multiset{item})[x] == f[x];
      }
    }
  }

  lemma ExpandedCovered(grid: Grid, f: multiset<Item>, p: set<Item>, dist: map<State, int>, except: set<State>,
                        f2: multiset<Item>, p2: set<Item>)
    requires DExpanded(grid, f, p, dist, except) && Covers(f, p, f2, p2)
    ensures DExpanded(grid, f2, p2, dist, except)
  {
  }

  /** Taking the least item off the queue keeps every pushed item's walk
      and moves the search to the item's level. */
  lemma Take(grid: Grid, start: Pos, frontier: multiset<Item>, popped: set<Item>, level: int,
             paths: map<Item, seq<State>>, item: Item)
    requires DWalks(grid, start, frontier, popped, paths) && DLevels(frontier, popped, level)
    requires Least(frontier, item)
    ensures DWalks(grid, start, frontier - multiset{item}, popped + {item}, paths)
    ensures DLevels(frontier - multiset{item}, popped + {item}, item.cost)
  {
    forall x | x in frontier - multiset{item}
      ensures x in frontier
    {
    }
  }

  /** A state met again is passed over; the search moves to its level. */
  lemma Revisit(grid: Grid, start: Pos, end: Pos, frontier: multiset<Item>, popped: set<Item>,
                dist: map<State, int>, level: int, paths: map<Item, seq<State>>,
                expanded: seq<State>, unvisited: set<State>, item: Item)
    requires Search(grid, start, end, frontier, popped, dist, level, paths, expanded, unvisited)
    requires Least(frontier, item) && item.pos != end && StateOf(item) in dist
    ensures Search(grid, start, end, frontier - multiset{item}, popped + {item}, dist, item.cost, paths, expanded, unvisited)
  {
    Take(grid, start, frontier, popped, level, paths, item);
    TakeCovers(frontier, popped, item);
    ExpandedCovered(grid, frontier, popped, dist, {}, frontier - multiset{item}, popped + {item});
    RevisitDone(end, frontier, popped, dist, level, item);
    Within(grid, start, frontier, item);
  }

  lemma RevisitDone(end: Pos, frontier: multiset<Item>, popped: set<Item>, dist: map<State, int>, level: int, item: Item)
    requires DDone(end, popped, dist) && DLevels(frontier, popped, level)
    requires item in frontier && item.pos != end && StateOf(item) in dist
    ensures DDone(end, popped + {item}, dist)
  {
    var v := StateOf(item);
    assert ItemOf(v, dist[v]) in popped;
  }

  /** A new state is visited at the cost of its item. */
  lemma Visit(grid: Grid, start: Pos, end: Pos, frontier: multiset<Item>, popped: set<Item>,
              dist: map<State, int>, level: int, paths: map<Item, seq<State>>, item: Item)
    requires DSearch(grid, start, end, frontier, popped, dist, level, paths, {})
    requires Least(frontier, item) && item.pos != end && StateOf(item) !in dist
    ensures DSearch(grid, start, end, frontier - multiset{item}, popped + {item},
                    dist[StateOf(item) := item.cost], item.cost, paths, {StateOf(item)})
  {
    Take(grid, start, frontier, popped, level, paths, item);
    TakeCovers(frontier, popped, item);
    ExpandedCovered(grid, frontier, popped, dist, {}, frontier - multiset{item}, popped + {item});
    VisitDone(end, popped, dist, item);
    ExpandedVisit(grid, frontier - multiset{item}, popped + {item}, dist, StateOf(item), item.cost);
  }

  lemma VisitDone(end: Pos, popped: set<Item>, dist: map<State, int>, item: Item)
    requires DDone(end, popped, dist) && item.pos != end && StateOf(item) !in dist
    ensures DDone(end, popped + {item}, dist[StateOf(item) := item.cost])
  {
  }

  lemma ExpandedVisit(grid: Grid, f: multiset<Item>, p: set<Item>, dist: map<State, int>, u: State, c: int)
    requires DExpanded(grid, f, p, dist, {}) && u !in dist
    ensures DExpanded(grid, f, p, dist[u := c], {u})
  {
  }

  /** Pushing the item of a move out of the state being expanded. */
  lemma Push(grid: Grid, start: Pos, end: Pos, frontier: multiset<Item>, popped: set<Item>,
             dist: map<State, int>, level: int, paths: map<Item, seq<State>>, except: set<State>, item: Item, next: Item)
    requires DSearch(grid, start, end, frontier, popped, dist, level, paths, except)
    requires item in popped && item.cost == level && Step(grid, StateOf(item), StateOf(next))
    requires next.cost == item.cost + Weight(StateOf(item), StateOf(next))
    ensures DSearch(grid, start, end, frontier + multiset{next}, popped, dist, level, paths[next := paths[item] + [StateOf(next)]], except)
  {
    PushWalks(grid, start, frontier, popped, paths, item, next);
    PushCovers(frontier, popped, next);
    ExpandedCovered(grid, frontier, popped, dist, except, frontier + multiset{next}, popped);
    PushLevels(frontier, popped, level, next);
  }

  lemma PushCovers(f: multiset<Item>, p: set<Item>, next: Item)
    ensures Covers(f, p, f + multiset{next}, p)
  {
  }

  lemma PushLevels(frontier: multiset<Item>, popped: set<Item>, level: int, next: Item)
    requires DLevels(frontier, popped, level) && level <= next.cost
    ensures DLevels(frontier + multiset{next}, popped, level)
  {
  }

  lemma PushWalks(grid: Grid, start: Pos, frontier: multiset<Item>, popped: set<Item>,
                  paths: map<Item, seq<State>>, item: Item, next: Item)
    requires DWalks(grid, start, frontier, popped, paths)
    requires item in popped && Step(grid, StateOf(item), StateOf(next))
    requires next.cost == item.cost + Weight(StateOf(item), StateOf(next))
    ensures DWalks(grid, start, frontier + multiset{next}, popped, paths[next := paths[item] + [StateOf(next)]])
  {
    var paths' := paths[next := paths[item] + [StateOf(next)]];
    assert WalkTo(grid, start, paths, item);
    Extend(grid, paths[item], Begin(start), StateOf(next));
    StepCost(grid, StateOf(item), StateOf(next));
    forall x | x in paths'
      ensures WalkTo(grid, start, paths', x)
    {
      if x != next {
        assert WalkTo(grid, start, paths, x);
      }
    }
  }

  /** Once both turns are pushed every move of the expanded state is. */
  lemma Close(grid: Grid, start: Pos, end: Pos, frontier: multiset<Item>, popped: set<Item>,
              dist: map<State, int>, level: int, paths: map<Item, seq<State>>, item: Item)
    requires Turning(grid, start, end, frontier, popped, dist, level, paths, item, |Rotations|)
    ensures DSearch(grid, start, end, frontier, popped, dist, level, paths, {}) && Bounded(grid, start, frontier)
  {
    ExpandedClose(grid, frontier, popped, dist, item);
  }

  lemma ExpandedClose(grid: Grid, frontier: multiset<Item>, popped: set<Item>, dist: map<State, int>, item: Item)
    requires DExpanded(grid, frontier, popped, dist, {StateOf(item)})
    requires StateOf(item) in dist && dist[StateOf(item)] == item.cost && 0 <= item.dir < 4
    requires Open(grid, Ahead(StateOf(item)).pos) ==> Pushed(frontier, popped, ItemOf(Ahead(StateOf(item)), item.cost + 1))
    requires Pushed(frontier, popped, ItemOf(Turn(StateOf(item), Rotations[0]), item.cost + TurnCost))
    requires Pushed(frontier, popped, ItemOf(Turn(StateOf(item), Rotations[1]), item.cost + TurnCost))
    ensures DExpanded(grid, frontier, popped, dist, {})
  {
    var u := StateOf(item);
    assert Turn(u, Rotations[0]) == Turn(u, 1) && Turn(u, Rotations[1]) == Turn(u, -1);
    forall v, b | v in dist && Step(grid, v, b)
      ensures Pushed(frontier, popped, ItemOf(b, dist[v] + Weight(v, b)))
    {
      if v == u {
        StepCost(grid, v, b);
      }
    }
  }

  /** Along a walk from the start, every state reached for less than the
      cost of every waiting item has been visited, for no more. */
  lemma {:induction false} Settled(grid: Grid, start: Pos, end: Pos, frontier: multiset<Item>, popped: set<Item>,
                                   dist: map<State, int>, w: seq<State>, n: nat, bound: int)
    requires DExpanded(grid, frontier, popped, dist, {}) && DDone(end, popped, dist)
    requires Pushed(frontier, popped, ItemOf(Begin(start), 0))
    requires Walk(grid, w, Begin(start)) && n < |w|
    requires (forall x {:trigger frontier[x]} :: x in frontier ==> bound <= x.cost) && CostTo(w, n) < bound
    ensures w[n] in dist && dist[w[n]] <= CostTo(w, n)
  {
    if n == 0 {
      assert ItemOf(w[0], 0) in popped;
      assert StateOf(ItemOf(w[0], 0)) == w[0];
    } else {
      CostGrows(w, n - 1, n);
      Settled(grid, start, end, frontier, popped, dist, w, n - 1, bound);
      assert StepInto(grid, w, n);
      var x := ItemOf(w[n], dist[w[n - 1]] + Weight(w[n - 1], w[n]));
      assert Pushed(frontier, popped, x);
      assert x !in frontier;
      assert StateOf(x) == w[n];
    }
  }

  /** A visited state is not on `end`. */
  lemma Unfinished(end: Pos, popped: set<Item>, dist: map<State, int>, v: State)
    requires DDone(end, popped, dist) && v in dist
    ensures v.pos != end
  {
    assert ItemOf(v, dist[v]) in popped;
  }

  /** A walk from the start that costs less than every waiting item does
      not reach `end`. */
  lemma Beyond(grid: Grid, start: Pos, end: Pos, frontier: multiset<Item>, popped: set<Item>,
               dist: map<State, int>, w: seq<State>, bound: int)
    requires DExpanded(grid, frontier, popped, dist, {}) && DDone(end, popped, dist)
    requires Pushed(frontier, popped, ItemOf(Begin(start), 0))
    requires (forall x {:trigger frontier[x]} :: x in frontier ==> bound <= x.cost)
    requires Walk(grid, w, Begin(start)) && Cost(w) < bound
    ensures Last(w).pos != end
  {
    Settled(grid, start, end, frontier, popped, dist, w, |w| - 1, bound);
    Unfinished(end, popped, dist, Last(w));
  }

  /** The least item stands on `end`: its cost is that of a walk, and no
      walk reaches `end` for less. */
  lemma Found(grid: Grid, start: Pos, end: Pos, frontier: multiset<Item>, popped: set<Item>,
              dist: map<State, int>, level: int, paths: map<Item, seq<State>>, item: Item)
    requires DSearch(grid, start, end, frontier, popped, dist, level, paths, {})
    requires Least(frontier, item) && item.pos == end
    ensures Cheapest(grid, start, end, item.cost)
  {
    forall w | Walk(grid, w, Begin(start)) && Last(w).pos == end
      ensures Cost(w) >= item.cost
    {
      if Cost(w) < item.cost {
        Beyond(grid, start, end, frontier, popped, dist, w, item.cost);
      }
    }
    assert WalkTo(grid, start, paths, item);
  }

  /** The queue ran dry before an item on `end` was taken: no walk reaches
      `end`. */
  lemma Drained(grid: Grid, start: Pos, end: Pos, frontier: multiset<Item>, popped: set<Item>,
                dist: map<State, int>, level: int, paths: map<Item, seq<State>>)
    requires DSearch(grid, start, end, frontier, popped, dist, level, paths, {})
    requires |frontier| == 0
    ensures Cheapest(grid, start, end, -1)
  {
    forall w | Walk(grid, w, Begin(start))
      ensures Last(w).pos != end
    {
      Beyond(grid, start, end, frontier, popped, dist, w, Cost(w) + 1);
    }
  }

  // ---------------------------------------------------------------------
  // part1

  /** `main` and `part1`: the start and end tiles are found with `findPOS`
      and `dijkstra` scores the cheapest walk between them. */
  method Part1(grid: Grid) returns (answer: Option<int>)
    ensures answer.Some? ==> exists s, e :: Located(grid, StartMark, s) && Located(grid, EndMark, e) &&
                                           Cheapest(grid, s, e, answer.value)
    ensures Rectangular(grid) ==> answer.Some?
  {
    var s := FindPos(grid, StartMark);
    var e := FindPos(grid, EndMark);
    if s.None? || e.None? {
      return None;
    }
    ghost var expanded;
    answer, expanded := Dijkstra(grid, s.value, e.value);
  }
}
