/** Day 6: a guard walks a lab floor, turning right at every obstacle, until
    it leaves the map. Part 1 counts the distinct cells of that walk; part 2
    counts the cells where one extra obstacle traps the guard in a loop. */
module Day6 {
  import opened Wrappers
  import HashSetUtil

  /** The floor, one character per cell, row by row. */
  type Grid = seq<seq<char>>
  type Cell = (int, int)

  const Obstacle: char := '#'
  const Free: char := '.'

  datatype Heading = Up | Right | Down | Left

  /** The character that shows a guard facing `h`. */
  function Symbol(h: Heading): char
  {
    match h
    case Up => '^'
    case Down => 'V'
    case Left => '<'
    case Right => '>'
  }

  /** The guard a character shows, if it shows one. */
  function HeadingOf(ch: char): (h: Option<Heading>)
    ensures h.Some? ==> Symbol(h.value) == ch
    ensures forall d: Heading :: Symbol(d) == ch ==> h == Some(d)
  {
    if ch == '^' then Some(Up)
    else if ch == 'V' then Some(Down)
    else if ch == '<' then Some(Left)
    else if ch == '>' then Some(Right)
    else None
  }

  /** The `moveDirections` table: one step up, down, left or right. */
  function Move(h: Heading): (d: (int, int))
    ensures (d.0 == 0) != (d.1 == 0)
    ensures -1 <= d.0 <= 1 && -1 <= d.1 <= 1
  {
    match h
    case Up => (-1, 0)
    case Down => (1, 0)
    case Left => (0, -1)
    case Right => (0, 1)
  }

  /** The `changeDirections` table: a quarter turn clockwise. */
  function Turn(h: Heading): (t: Heading)
    ensures t != h
    ensures Move(t) == (Move(h).1, -Move(h).0)
  {
    match h
    case Up => Right
    case Right => Down
    case Down => Left
    case Left => Up
  }

  /** Four quarter turns face the guard the way it started, and no fewer do. */
  lemma FourTurns(h: Heading)
    ensures Turn(Turn(Turn(Turn(h)))) == h
    ensures Turn(Turn(h)) != h && Turn(Turn(Turn(h))) != h
  {
  }

  predicate Rectangular(g: Grid)
  {
    forall i :: 0 <= i < |g| ==> |g[i]| == |g[0]|
  }

  /** The column count, read from the first row. */
  function Cols(g: Grid): int
  {
    if |g| == 0 then 0 else |g[0]|
  }

  /** `inBounds`. */
  predicate InBounds(g: Grid, p: Cell)
  {
    0 <= p.0 < |g| && 0 <= p.1 < Cols(g)
  }

  /** The `state` record: where the guard stands and which way it faces. */
  datatype Guard = Guard(r: int, c: int, dir: Heading)
  {
    function Pos(): Cell
    {
      (r, c)
    }

    /** The cell the guard faces. */
    function Ahead(): Cell
    {
      (r + Move(dir).0, c + Move(dir).1)
    }
  }

  /** `obstacleInFront`: the faced cell is on the map and holds '#'. */
  predicate ObstacleInFront(g: Grid, s: Guard)
    requires Rectangular(g)
  {
    InBounds(g, s.Ahead()) && g[s.Ahead().0][s.Ahead().1] == Obstacle
  }

  /** A cell the guard cannot enter: a '#' or the extra obstacle. */
  predicate Blocked(g: Grid, obs: Option<Cell>, p: Cell)
    requires Rectangular(g) && InBounds(g, p)
  {
    g[p.0][p.1] == Obstacle || obs == Some(p)
  }

  /** One move of the guard with an optional extra obstacle: None when the
      faced cell is off the map; otherwise a turn in place when it is
      blocked and a step onto it when it is not. */
  function Step(g: Grid, obs: Option<Cell>, s: Guard): Option<Guard>
    requires Rectangular(g)
  {
    var p := s.Ahead();
    if !InBounds(g, p) then None
    else if Blocked(g, obs, p) then Some(Guard(s.r, s.c, Turn(s.dir)))
    else Some(Guard(p.0, p.1, s.dir))
  }

  /** Each move either leaves the map, turns the guard a quarter clockwise
      in place before a blocked cell, or steps onto the free cell ahead; a
      guard on the map stays on it. */
  lemma StepMoves(g: Grid, obs: Option<Cell>, s: Guard)
    requires Rectangular(g)
    ensures var n := Step(g, obs, s);
            && (n.None? <==> !InBounds(g, s.Ahead()))
            && (n.Some? && n.value.dir == s.dir ==>
                  n.value.Pos() == s.Ahead() && !Blocked(g, obs, s.Ahead()))
            && (n.Some? && n.value.dir != s.dir ==>
                  n.value.Pos() == s.Pos() && n.value.dir == Turn(s.dir) && Blocked(g, obs, s.Ahead()))
            && (n.Some? && InBounds(g, s.Pos()) ==> InBounds(g, n.value.Pos()))
  {
  }

  /** Part 1 turns exactly when the move turns; otherwise it steps ahead,
      which leaves the map exactly when the faced cell is off it. */
  lemma ObstacleInFrontTurns(g: Grid, s: Guard)
    requires Rectangular(g)
    ensures ObstacleInFront(g, s) <==> Step(g, None, s) == Some(Guard(s.r, s.c, Turn(s.dir)))
    ensures !ObstacleInFront(g, s) && InBounds(g, s.Ahead()) ==>
              Step(g, None, s) == Some(Guard(s.Ahead().0, s.Ahead().1, s.dir))
    ensures !InBounds(g, s.Ahead()) ==> Step(g, None, s).None?
  {
    StepMoves(g, None, s);
  }

  /** The floor with '#' written at `o`. */
  function Place(g: Grid, o: Cell): (h: Grid)
    requires Rectangular(g) && InBounds(g, o)
    ensures Rectangular(h) && |h| == |g| && Cols(h) == Cols(g)
  {
    g[o.0 := g[o.0][o.1 := Obstacle]]
  }

  /** The extra obstacle of `causedLoop` acts exactly like a '#' written on
      the floor. */
  lemma ObstacleIsWall(g: Grid, o: Cell, s: Guard)
    requires Rectangular(g) && InBounds(g, o)
    ensures Step(g, Some(o), s) == Step(Place(g, o), None, s)
  {
    var p := s.Ahead();
    if InBounds(g, p) {
      assert Blocked(g, Some(o), p) <==> Blocked(Place(g, o), None, p);
    }
  }

  /** The state after n moves from `s`; None once the guard has left. */
  function Iter(g: Grid, obs: Option<Cell>, s: Guard, n: nat): Option<Guard>
    requires Rectangular(g)
  {
    if n == 0 then Some(s)
    else match Iter(g, obs, s, n - 1)
      case None => None
      case Some(t) => Step(g, obs, t)
  }

  /** The walk from `s` leaves the map at some point. */
  ghost predicate Escapes(g: Grid, obs: Option<Cell>, s: Guard)
    requires Rectangular(g)
  {
    exists n: nat :: Iter(g, obs, s, n).None?
  }

  /** n moves followed by m moves are n + m moves. */
  lemma {:induction false} IterAdd(g: Grid, obs: Option<Cell>, s: Guard, n: nat, m: nat)
    requires Rectangular(g)
    ensures Iter(g, obs, s, n).Some? ==> Iter(g, obs, s, n + m) == Iter(g, obs, Iter(g, obs, s, n).value, m)
    ensures Iter(g, obs, s, n).None? ==> Iter(g, obs, s, n + m).None?
  {
    if m > 0 {
      IterAdd(g, obs, s, n, m - 1);
    }
  }

  /** A guard that is still on the map after n moves was on it before. */
  lemma {:induction false} IterPrefix(g: Grid, obs: Option<Cell>, s: Guard, n: nat, m: nat)
    requires Rectangular(g) && m <= n && Iter(g, obs, s, n).Some?
    ensures Iter(g, obs, s, m).Some?
  {
    if m < n {
      IterPrefix(g, obs, s, n - 1, m);
    }
  }

  /** Every state of a walk that starts on the map is on the map. */
  lemma {:induction false} IterInside(g: Grid, obs: Option<Cell>, s: Guard, n: nat)
    requires Rectangular(g) && InBounds(g, s.Pos()) && Iter(g, obs, s, n).Some?
    ensures InBounds(g, Iter(g, obs, s, n).value.Pos())
  {
    if n > 0 {
      IterInside(g, obs, s, n - 1);
      StepMoves(g, obs, Iter(g, obs, s, n - 1).value);
    }
  }

  /** Once a state comes back, the walk cycles and never leaves the map:
      the reason `causedLoop` may stop at the first repeated state. */
  lemma {:induction false} RepeatNeverEscapes(g: Grid, obs: Option<Cell>, s: Guard, i: nat, j: nat)
    requires Rectangular(g) && i < j
    requires Iter(g, obs, s, j).Some? && Iter(g, obs, s, i) == Iter(g, obs, s, j)
    ensures !Escapes(g, obs, s)
  {
    forall n: nat
      ensures Iter(g, obs, s, n).Some?
    {
      RepeatAt(g, obs, s, i, j, n);
    }
  }

  lemma {:induction false} RepeatAt(g: Grid, obs: Option<Cell>, s: Guard, i: nat, j: nat, n: nat)
    requires Rectangular(g) && i < j
    requires Iter(g, obs, s, j).Some? && Iter(g, obs, s, i) == Iter(g, obs, s, j)
    ensures Iter(g, obs, s, n).Some?
    decreases n
  {
    if n <= j {
      IterPrefix(g, obs, s, j, n);
    } else {
      var d: nat := n - j;
      var m: nat := i + d;
      IterAdd(g, obs, s, j, d);
      IterAdd(g, obs, s, i, d);
      assert Iter(g, obs, s, n) == Iter(g, obs, s, m);
      RepeatAt(g, obs, s, i, j, m);
    }
  }

  /** `findInitialPosition` as a scan from (r, c) in row-major order. */
  function FindFrom(g: Grid, r: nat, c: nat): Option<Guard>
    requires r < |g| ==> c <= |g[r]|
    decreases |g| - r, if r < |g| then |g[r]| - c else 0
  {
    if r >= |g| then None
    else if c == |g[r]| then FindFrom(g, r + 1, 0)
    else match HeadingOf(g[r][c])
      case Some(h) => Some(Guard(r, c, h))
      case None => FindFrom(g, r, c + 1)
  }

  /** The first guard on the floor in row-major order. */
  function FirstGuard(g: Grid): Option<Guard>
  {
    FindFrom(g, 0, 0)
  }

  /** (i, j) comes before (r, c) in row-major order. */
  predicate Before(i: int, j: int, r: int, c: int)
  {
    i < r || (i == r && j < c)
  }

  predicate IsGuardAt(g: Grid, i: int, j: int)
  {
    0 <= i < |g| && 0 <= j < |g[i]| && HeadingOf(g[i][j]).Some?
  }

  /** The scan finds the first guard at or after (r, c), facing the way its
      character shows, and finds nothing when there is none. */
  lemma {:induction false} FindFromSpec(g: Grid, r: nat, c: nat)
    requires r < |g| ==> c <= |g[r]|
    ensures FindFrom(g, r, c).Some? ==>
              var s := FindFrom(g, r, c).value;
              IsGuardAt(g, s.r, s.c) && Symbol(s.dir) == g[s.r][s.c] && !Before(s.r, s.c, r, c) &&
              forall i, j :: IsGuardAt(g, i, j) && !Before(i, j, r, c) ==> !Before(i, j, s.r, s.c)
    ensures FindFrom(g, r, c).None? ==>
              forall i, j :: IsGuardAt(g, i, j) ==> Before(i, j, r, c)
    decreases |g| - r, if r < |g| then |g[r]| - c else 0
  {
    if r >= |g| {
    } else if c == |g[r]| {
      FindFromSpec(g, r + 1, 0);
    } else if HeadingOf(g[r][c]).None? {
      FindFromSpec(g, r, c + 1);
    }
  }

  /** `findInitialPosition`. */
  method FindInitialPosition(g: Grid) returns (res: Option<Guard>)
    ensures res == FirstGuard(g)
  {
    var r := 0;
    while r < |g|
      invariant 0 <= r <= |g|
      invariant FirstGuard(g) == FindFrom(g, r, 0)
    {
      var c := 0;
      while c < |g[r]|
        invariant 0 <= c <= |g[r]|
        invariant FirstGuard(g) == FindFrom(g, r, c)
      {
        var h := HeadingOf(g[r][c]);
        if h.Some? {
          return Some(Guard(r, c, h.value));
        }
        c := c + 1;
      }
      r := r + 1;
    }
    return None;
  }

  /** The first guard is on the map. */
  lemma FirstGuardInside(g: Grid)
    requires Rectangular(g) && FirstGuard(g).Some?
    ensures InBounds(g, FirstGuard(g).value.Pos())
  {
    FindFromSpec(g, 0, 0);
  }

  /** With the extra obstacle `obs`, the guard never leaves the map. A floor
      without a guard never loops. */
  ghost predicate Loops(g: Grid, obs: Option<Cell>)
    requires Rectangular(g)
  {
    FirstGuard(g).Some? && !Escapes(g, obs, FirstGuard(g).value)
  }

  /** Every state the guard can be in on this floor. */
  function States(g: Grid): set<Guard>
  {
    set r, c, h | 0 <= r < |g| && 0 <= c < Cols(g) && h in [Up, Right, Down, Left] :: Guard(r, c, h)
  }

  lemma InStates(g: Grid, s: Guard)
    requires InBounds(g, s.Pos())
    ensures s in States(g)
  {
    var hs := [Up, Right, Down, Left];
    assert s == Guard(s.r, s.c, s.dir);
    match s.dir
    case Up => assert hs[0] == s.dir;
    case Right => assert hs[1] == s.dir;
    case Down => assert hs[2] == s.dir;
    case Left => assert hs[3] == s.dir;
  }

  /** A set of states on the map is no larger than the set of all of them. */
  lemma FewStates(g: Grid, seen: set<Guard>)
    requires forall x :: x in seen ==> InBounds(g, x.Pos())
    ensures |seen| <= |States(g)|
  {
    forall x | x in seen
      ensures x in States(g)
    {
      InStates(g, x);
    }
    assert States(g) == seen + (States(g) - seen);
  }

  /** The states of the first k moves of the walk. */
  ghost function SeenStates(g: Grid, obs: Option<Cell>, s: Guard, k: nat): set<Guard>
    requires Rectangular(g)
  {
    set i: nat | i < k && Iter(g, obs, s, i).Some? :: Iter(g, obs, s, i).value
  }

  lemma SeenNext(g: Grid, obs: Option<Cell>, s: Guard, k: nat)
    requires Rectangular(g) && Iter(g, obs, s, k).Some?
    ensures SeenStates(g, obs, s, k + 1) == SeenStates(g, obs, s, k) + {Iter(g, obs, s, k).value}
  {
  }

  /** A state seen before move k came up at some earlier move. */
  lemma SeenAt(g: Grid, obs: Option<Cell>, s: Guard, k: nat, x: Guard) returns (i: nat)
    requires Rectangular(g) && x in SeenStates(g, obs, s, k)
    ensures i < k && Iter(g, obs, s, i) == Some(x)
  {
    i :| i < k && Iter(g, obs, s, i).Some? && Iter(g, obs, s, i).value == x;
  }

  /** `causedLoop`: simulate the walk with an extra obstacle at
      (obsR, obsC) and report whether the guard is trapped. */
  method CausedLoop(g: Grid, obsR: int, obsC: int) returns (loop: bool)
    requires Rectangular(g) && |g| > 0
    ensures loop <==> Loops(g, Some((obsR, obsC)))
  {
    var start := FindInitialPosition(g);
    if start.None? {
      // With no guard the Go code walks from (-1, -1) with the zero move
      // and is off the map at once.
      return false;
    }
    FirstGuardInside(g);
    loop := Patrol(g, obsR, obsC, start.value);
  }

  /** A move that stays on the map, spelled out as `causedLoop` computes it. */
  lemma StepInside(g: Grid, obsR: int, obsC: int, s: Guard)
    requires Rectangular(g) && InBounds(g, s.Ahead())
    ensures var p := s.Ahead();
            Step(g, Some((obsR, obsC)), s) ==
              if g[p.0][p.1] == Obstacle || (p.0 == obsR && p.1 == obsC)
              then Some(Guard(s.r, s.c, Turn(s.dir)))
              else Some(Guard(p.0, p.1, s.dir))
  {
  }

  /** The loop of `causedLoop`: record every state; a repeated state means a
      loop and a step off the map means none. The walk ends because the
      guard has only finitely many states on the map. */
  method Patrol(g: Grid, obsR: int, obsC: int, s0: Guard) returns (loop: bool)
    requires Rectangular(g) && |g| > 0 && InBounds(g, s0.Pos())
    ensures loop <==> !Escapes(g, Some((obsR, obsC)), s0)
  {
    var rows, cols := |g|, |g[0]|;
    ghost var obs := Some((obsR, obsC));
    var seen: set<Guard> := {};
    var r, c, dir := s0.r, s0.c, s0.dir;
    ghost var k: nat := 0;
    ghost var total := |States(g)|;
    while true
      invariant Iter(g, obs, s0, k) == Some(Guard(r, c, dir))
      invariant InBounds(g, (r, c))
      invariant forall x :: x in seen ==> InBounds(g, x.Pos())
      invariant seen == SeenStates(g, obs, s0, k)
      invariant |seen| <= total
      decreases total - |seen|
    {
      var current := Guard(r, c, dir);
      if current in seen {
        ghost var i := SeenAt(g, obs, s0, k, current);
        RepeatNeverEscapes(g, obs, s0, i, k);
        return true;
      }
      SeenNext(g, obs, s0, k);
      ghost var before := |seen|;
      seen := seen + {current};
      assert |seen| == before + 1;
      FewStates(g, seen);
      var d := Move(dir);
      var nr, nc := r + d.0, c + d.1;
      assert Iter(g, obs, s0, k + 1) == Step(g, obs, current);
      if nr < 0 || nr >= rows || nc < 0 || nc >= cols {
        assert Iter(g, obs, s0, k + 1).None?;
        assert Escapes(g, obs, s0);
        return false;
      }
      StepInside(g, obsR, obsC, current);
      assert (nr, nc) == current.Ahead();
      if g[nr][nc] == Obstacle || (nr == obsR && nc == obsC) {
        dir := Turn(dir);
      } else {
        r, c := nr, nc;
      }
      assert Iter(g, obs, s0, k + 1) == Some(Guard(r, c, dir));
      k := k + 1;
    }
  }

  /** The cells of the first n + 1 states of the walk that are on the map. */
  ghost function Visited(g: Grid, s: Guard, n: nat): set<Cell>
    requires Rectangular(g)
  {
    set i: nat | i <= n && Iter(g, None, s, i).Some? :: Iter(g, None, s, i).value.Pos()
  }

  lemma VisitedStart(g: Grid, s: Guard)
    requires Rectangular(g)
    ensures Visited(g, s, 0) == {s.Pos()}
  {
    assert Iter(g, None, s, 0) == Some(s);
  }

  /** One more move adds the guard's new cell, or nothing once it is off. */
  lemma VisitedNext(g: Grid, s: Guard, n: nat)
    requires Rectangular(g)
    ensures Iter(g, None, s, n + 1).Some? ==>
              Visited(g, s, n + 1) == Visited(g, s, n) + {Iter(g, None, s, n + 1).value.Pos()}
    ensures Iter(g, None, s, n + 1).None? ==> Visited(g, s, n + 1) == Visited(g, s, n)
  {
  }

  /** Every visited cell is on the map and there are at most n + 1 of them. */
  lemma {:induction false} VisitedBounds(g: Grid, s: Guard, n: nat)
    requires Rectangular(g) && InBounds(g, s.Pos())
    ensures forall p :: p in Visited(g, s, n) ==> InBounds(g, p)
    ensures |Visited(g, s, n)| <= n + 1
  {
    if n == 0 {
      VisitedStart(g, s);
    } else {
      VisitedBounds(g, s, n - 1);
      VisitedNext(g, s, n - 1);
      if Iter(g, None, s, n).Some? {
        IterInside(g, None, s, n);
      }
    }
  }

  /** Part 1 either finds no guard (the Go code exits), runs out of its
      move budget while the guard is still on the map, or counts the
      distinct cells the guard stood on before stepping off. */
  datatype Outcome = NoGuard | StillWalking | Exited(visited: nat)

  /** The guard's last move leaves the map: its state after n moves is on
      the map and the next move is not. */
  ghost predicate ExitsAfter(g: Grid, s: Guard, n: nat)
    requires Rectangular(g)
  {
    Iter(g, None, s, n).Some? && Iter(g, None, s, n + 1).None?
  }

  /** `part1`, with at most `fuel` moves: the Go loop has no bound and runs
      forever when the guard is trapped. */
  method Part1(g: Grid, fuel: nat) returns (res: Outcome)
    requires Rectangular(g)
    ensures res.NoGuard? <==> FirstGuard(g).None?
    ensures res.StillWalking? ==> FirstGuard(g).Some? && Iter(g, None, FirstGuard(g).value, fuel).Some?
    ensures res.Exited? ==>
              (FirstGuard(g).Some? &&
               exists n: nat :: n < fuel && ExitsAfter(g, FirstGuard(g).value, n) &&
                                res.visited == |Visited(g, FirstGuard(g).value, n)|)
  {
    var seenSpaces := new HashSetUtil.HashSet<Cell>();
    var start := FindInitialPosition(g);
    if start.None? {
      return NoGuard;
    }
    var s0 := start.value;
    seenSpaces.Add((s0.r, s0.c));
    VisitedStart(g, s0);
    var stillInGrid, steps := FollowPath(g, s0, fuel, seenSpaces);
    if stillInGrid {
      return StillWalking;
    }
    return Exited(seenSpaces.Size());
  }

  /** The loop of `part1`: turn before a '#', otherwise step ahead and
      record the new cell while it is on the map. */
  method FollowPath(g: Grid, s0: Guard, fuel: nat, seenSpaces: HashSetUtil.HashSet<Cell>)
    returns (stillInGrid: bool, steps: nat)
    requires Rectangular(g) && seenSpaces.data == Visited(g, s0, 0)
    modifies seenSpaces
    ensures stillInGrid ==> steps == fuel && Iter(g, None, s0, fuel).Some?
    ensures !stillInGrid ==>
              1 <= steps <= fuel && ExitsAfter(g, s0, steps - 1) &&
              seenSpaces.data == Visited(g, s0, steps - 1)
  {
    var x, y, dir := s0.r, s0.c, s0.dir;
    stillInGrid := true;
    steps := 0;
    while stillInGrid && steps < fuel
      invariant steps <= fuel
      invariant stillInGrid ==> Iter(g, None, s0, steps) == Some(Guard(x, y, dir))
      invariant !stillInGrid ==> steps >= 1 && ExitsAfter(g, s0, steps - 1)
      invariant seenSpaces.data == Visited(g, s0, steps)
    {
      var current := Guard(x, y, dir);
      ObstacleInFrontTurns(g, current);
      VisitedNext(g, s0, steps);
      assert Iter(g, None, s0, steps + 1) == Step(g, None, current);
      ghost var next := Step(g, None, current);
      if ObstacleInFront(g, current) {
        dir := Turn(dir);
        assert next == Some(Guard(x, y, dir));
      } else {
        var d := Move(dir);
        x, y := x + d.0, y + d.1;
        assert (x, y) == current.Ahead();
        stillInGrid := InBounds(g, (x, y));
        if !seenSpaces.Contains((x, y)) && stillInGrid {
          seenSpaces.Add((x, y));
        }
        assert stillInGrid ==> next == Some(Guard(x, y, dir));
        assert !stillInGrid ==> next.None?;
      }
      steps := steps + 1;
    }
    if !stillInGrid {
      VisitedNext(g, s0, steps - 1);
    }
  }

  /** The cells where one extra obstacle traps the guard: any cell that is
      not already '#', before (r, c) in row-major order. */
  ghost function TrapsBefore(g: Grid, r: int, c: int): set<Cell>
    requires Rectangular(g)
  {
    set i, j | 0 <= i < |g| && 0 <= j < Cols(g) && Before(i, j, r, c) &&
               g[i][j] != Obstacle && Loops(g, Some((i, j))) :: (i, j)
  }

  /** All the trapping cells of the floor. */
  ghost function Traps(g: Grid): set<Cell>
    requires Rectangular(g)
  {
    TrapsBefore(g, |g|, 0)
  }

  lemma TrapsNext(g: Grid, r: int, c: int)
    requires Rectangular(g) && 0 <= r < |g| && 0 <= c < Cols(g)
    ensures TrapsBefore(g, r, c + 1) ==
            TrapsBefore(g, r, c) +
            (if g[r][c] != Obstacle && Loops(g, Some((r, c))) then {(r, c)} else {})
    ensures (r, c) !in TrapsBefore(g, r, c)
  {
  }

  lemma TrapsNextRow(g: Grid, r: int)
    requires Rectangular(g) && 0 <= r < |g|
    ensures TrapsBefore(g, r, Cols(g)) == TrapsBefore(g, r + 1, 0)
  {
  }

  /** `part2`: try an extra obstacle on every cell that is not '#' and count
      the ones that trap the guard. An empty floor has no first row to read
      the width from. */
  method Part2(g: Grid) returns (res: Option<nat>)
    requires Rectangular(g)
    ensures res.None? <==> |g| == 0
    ensures res.Some? ==> res.value == |Traps(g)|
  {
    if |g| == 0 {
      return None;
    }
    var validObstacles := 0;
    var rows, cols := |g|, |g[0]|;
    var obsR := 0;
    assert TrapsBefore(g, 0, 0) == {};
    while obsR < rows
      invariant 0 <= obsR <= rows
      invariant validObstacles == |TrapsBefore(g, obsR, 0)|
    {
      var obsC := 0;
      while obsC < cols
        invariant 0 <= obsC <= cols
        invariant validObstacles == |TrapsBefore(g, obsR, obsC)|
      {
        TrapsNext(g, obsR, obsC);
        if g[obsR][obsC] != Obstacle {
          var loop := CausedLoop(g, obsR, obsC);
          if loop {
            validObstacles := validObstacles + 1;
          }
        }
        obsC := obsC + 1;
      }
      TrapsNextRow(g, obsR);
      obsR := obsR + 1;
    }
    return Some(validObstacles);
  }
}
