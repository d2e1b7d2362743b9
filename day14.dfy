/** Day 14: robots moving on a `wide` by `tall` floor that wraps around at
    the edges. Part 1 moves every robot once per second for 100 seconds
    and multiplies the numbers of robots in the four quadrants, leaving out
    the middle row and column. Each input line holds a robot's position and
    velocity as `p=x,y v=dx,dy`. */
module Day14 {
  import opened Wrappers
  import opened Text
  import opened GoInt

  /** `seconds`. */
  const Seconds: nat := 100

  /** The floor's size in `main`. */
  const Wide: int := 101
  const Tall: int := 103

  /** `robot`: a position (x, y) and a velocity (dx, dy). */
  datatype Robot = Robot(position: (int, int), velocity: (int, int))

  // ---------------------------------------------------------------------
  // moveRobot

  /** `moveRobot`: each coordinate becomes (p + v + size) % size with Go's
      truncating `%`; the velocity stays. */
  function MoveRobot(rob: Robot, wide: int, tall: int): Robot
    requires wide != 0 && tall != 0
  {
    var x := Rem(rob.position.0 + rob.velocity.0 + wide, wide);
    var y := Rem(rob.position.1 + rob.velocity.1 + tall, tall);
    rob.(position := (x, y))
  }

  /** One coordinate of a move: with p + v + size at least 0 the result
      lies on the floor and is p + v reduced modulo the size; otherwise
      Go's `%` leaves it in (-size, 0]. */
  lemma WrapCoordinate(p: int, v: int, size: int)
    requires size > 0
    ensures p + v + size >= 0 ==> 0 <= Rem(p + v + size, size) < size && Rem(p + v + size, size) == (p + v) % size
    ensures p + v + size < 0 ==> -size < Rem(p + v + size, size) <= 0
  {
    QuoRem(p + v + size, size);
    if p + v + size >= 0 {
      QuoRemNonNegative(p + v + size, size);
      ModShift(p + v, size, 1);
    }
  }

  /** A robot keeps its velocity; a coordinate with p + v + size >= 0 lands
      on the floor at (p + v) mod size. */
  lemma MoveRobotWraps(rob: Robot, wide: int, tall: int)
    requires wide > 0 && tall > 0
    ensures var r := MoveRobot(rob, wide, tall);
            r.velocity == rob.velocity &&
            (rob.position.0 + rob.velocity.0 + wide >= 0 ==>
               0 <= r.position.0 < wide && r.position.0 == (rob.position.0 + rob.velocity.0) % wide) &&
            (rob.position.1 + rob.velocity.1 + tall >= 0 ==>
               0 <= r.position.1 < tall && r.position.1 == (rob.position.1 + rob.velocity.1) % tall)
  {
    WrapCoordinate(rob.position.0, rob.velocity.0, wide);
    WrapCoordinate(rob.position.1, rob.velocity.1, tall);
  }

  /** Every robot after one second. */
  function Tick(robots: seq<Robot>, wide: int, tall: int): (r: seq<Robot>)
    requires wide != 0 && tall != 0
    ensures |r| == |robots| && forall i :: 0 <= i < |robots| ==> r[i] == MoveRobot(robots[i], wide, tall)
  {
    seq(|robots|, i requires 0 <= i < |robots| => MoveRobot(robots[i], wide, tall))
  }

  /** Every robot after `n` seconds. */
  function Simulate(robots: seq<Robot>, wide: int, tall: int, n: nat): (r: seq<Robot>)
    requires wide != 0 && tall != 0
    ensures |r| == |robots|
  {
    if n == 0 then robots else Tick(Simulate(robots, wide, tall, n - 1), wide, tall)
  }

  /** A robot on the floor whose velocity is no less than minus the size,
      as in the puzzle's input. */
  predicate Tame(rob: Robot, wide: int, tall: int)
  {
    0 <= rob.position.0 < wide && 0 <= rob.position.1 < tall &&
    rob.velocity.0 >= -wide && rob.velocity.1 >= -tall
  }

  /** Where a robot is after `n` seconds on a wrapping floor. */
  function Travelled(rob: Robot, wide: int, tall: int, n: nat): Robot
    requires wide > 0 && tall > 0
  {
    rob.(position := (Wrapped(rob.position.0, rob.velocity.0, n, wide), Wrapped(rob.position.1, rob.velocity.1, n, tall)))
  }

  /** A coordinate `n` seconds on: p + n * v reduced modulo the size. */
  function Wrapped(p: int, v: int, n: nat, size: int): (c: int)
    requires size > 0
    ensures 0 <= c < size
  {
    (p + n * v) % size
  }

  /** A tame robot after `n` seconds stands at its start plus n times its
      velocity, reduced modulo the floor's size, and is still tame. */
  lemma {:induction false} SimulateTravels(robots: seq<Robot>, wide: int, tall: int, n: nat, i: int)
    requires wide > 0 && tall > 0 && 0 <= i < |robots| && Tame(robots[i], wide, tall)
    ensures Simulate(robots, wide, tall, n)[i] == Travelled(robots[i], wide, tall, n)
    ensures Tame(Simulate(robots, wide, tall, n)[i], wide, tall)
  {
    var rob := robots[i];
    var (p, v) := (rob.position, rob.velocity);
    if n > 0 {
      SimulateTravels(robots, wide, tall, n - 1, i);
      var prev := Simulate(robots, wide, tall, n - 1)[i];
      assert Simulate(robots, wide, tall, n)[i] == MoveRobot(prev, wide, tall);
      CoordinateTravels(p.0, v.0, wide, n);
      CoordinateTravels(p.1, v.1, tall, n);
    } else {
      CoordinateStill(p.0, v.0, wide);
      CoordinateStill(p.1, v.1, tall);
    }
  }

  lemma CoordinateStill(p: int, v: int, size: int)
    requires 0 <= p < size
    ensures Wrapped(p, v, 0, size) == p
  {
    assert p + 0 * v == p;
  }

  /** One more second moves a coordinate from its place after n - 1
      seconds to its place after n seconds. */
  lemma CoordinateTravels(p: int, v: int, size: int, n: nat)
    requires size > 0 && v >= -size && n > 0
    ensures Rem(Wrapped(p, v, n - 1, size) + v + size, size) == Wrapped(p, v, n, size)
  {
    var a := p + (n - 1) * v;
    var c := a % size;
    assert 0 <= c < size;
    WrapCoordinate(c, v, size);
    assert Rem(c + v + size, size) == (c + v) % size;
    ModAdd(a, v, size);
    assert (c + v) % size == (a + v) % size;
    PredTimes(n, v);
  }

  lemma PredTimes(n: int, v: int)
    ensures (n - 1) * v + v == n * v
  {
  }

  /** A robot whose p + v + size is negative, which Go's truncating `%`
      moves off the floor: at x = 0 with dx = -102 on a floor 101 wide it
      lands at x = -1. */
  lemma FastRobotLeaves()
    ensures MoveRobot(Robot((0, 0), (-102, 0)), Wide, Tall).position == (-1, 0)
  {
    assert Rem(-1, 101) == -1;
    assert Rem(103, 103) == 0;
  }

  // ---------------------------------------------------------------------
  // findQuadrant

  /** The quadrant a position counts in: 1 top left, 2 top right, 3 bottom
      left, 4 bottom right, 0 none. The halves leave out the middle column
      `wide / 2` and the middle row `tall / 2` and stop at the floor's
      edges. */
  function Quadrant(p: (int, int), wide: int, tall: int): (q: nat)
    ensures var (h, v) := (Quo(wide, 2), Quo(tall, 2));
            var (left, right) := (0 <= p.0 < h, h < p.0 <= wide - 1);
            var (top, bottom) := (0 <= p.1 < v, v < p.1 <= tall - 1);
            (q == 1 <==> left && top) && (q == 2 <==> right && top) &&
            (q == 3 <==> left && bottom) && (q == 4 <==> right && bottom) &&
            (q == 0 <==> !((left || right) && (top || bottom)))
    ensures p.0 == Quo(wide, 2) || p.1 == Quo(tall, 2) ==> q == 0
  {
    var hMiddle := Quo(wide, 2);
    var vMiddle := Quo(tall, 2);
    var (x, y) := p;
    if x >= 0 && x < hMiddle && y >= 0 && y < vMiddle then 1
    else if x > hMiddle && x <= wide - 1 && y >= 0 && y < vMiddle then 2
    else if x >= 0 && x < hMiddle && y > vMiddle && y <= tall - 1 then 3
    else if x > hMiddle && x <= wide - 1 && y > vMiddle && y <= tall - 1 then 4
    else 0
  }

  /** How many robots count in quadrant `k` (0 for none). */
  function CountIn(robots: seq<Robot>, wide: int, tall: int, k: nat): nat
  {
    if |robots| == 0 then 0
    else CountIn(robots[..|robots| - 1], wide, tall, k) + (if Quadrant(robots[|robots| - 1].position, wide, tall) == k then 1 else 0)
  }

  /** `findQuadrant`. */
  method FindQuadrant(robots: seq<Robot>, wide: int, tall: int) returns (q1: nat, q2: nat, q3: nat, q4: nat)
    ensures q1 == CountIn(robots, wide, tall, 1) && q2 == CountIn(robots, wide, tall, 2)
    ensures q3 == CountIn(robots, wide, tall, 3) && q4 == CountIn(robots, wide, tall, 4)
  {
    var hMiddle := Quo(wide, 2);
    var vMiddle := Quo(tall, 2);
    q1, q2, q3, q4 := 0, 0, 0, 0;
    for i := 0 to |robots|
      invariant q1 == CountIn(robots[..i], wide, tall, 1) && q2 == CountIn(robots[..i], wide, tall, 2)
      invariant q3 == CountIn(robots[..i], wide, tall, 3) && q4 == CountIn(robots[..i], wide, tall, 4)
    {
      assert robots[..i + 1][..i] == robots[..i] && robots[..i + 1][i] == robots[i];
      var (x, y) := robots[i].position;
      if x >= 0 && x < hMiddle && y >= 0 && y < vMiddle {
        q1 := q1 + 1;
      } else if x > hMiddle && x <= wide - 1 && y >= 0 && y < vMiddle {
        q2 := q2 + 1;
      } else if x >= 0 && x < hMiddle && y > vMiddle && y <= tall - 1 {
        q3 := q3 + 1;
      } else if x > hMiddle && x <= wide - 1 && y > vMiddle && y <= tall - 1 {
        q4 := q4 + 1;
      }
    }
    assert robots[..|robots|] == robots;
  }

  /** Every robot counts in exactly one of the four quadrants or in none,
      so the four counts add up to at most the number of robots. */
  lemma {:induction false} QuadrantsPartition(robots: seq<Robot>, wide: int, tall: int)
    ensures CountIn(robots, wide, tall, 0) + CountIn(robots, wide, tall, 1) + CountIn(robots, wide, tall, 2) +
            CountIn(robots, wide, tall, 3) + CountIn(robots, wide, tall, 4) == |robots|
    ensures CountIn(robots, wide, tall, 1) + CountIn(robots, wide, tall, 2) +
            CountIn(robots, wide, tall, 3) + CountIn(robots, wide, tall, 4) <= |robots|
  {
    if |robots| > 0 {
      QuadrantsPartition(robots[..|robots| - 1], wide, tall);
    }
  }

  /** Robots on the middle column or row count nowhere: adding one leaves
      every quadrant's count as it was. */
  lemma MiddleCountsNowhere(robots: seq<Robot>, rob: Robot, wide: int, tall: int, k: nat)
    requires rob.position.0 == Quo(wide, 2) || rob.position.1 == Quo(tall, 2)
    requires 1 <= k <= 4
    ensures CountIn(robots + [rob], wide, tall, k) == CountIn(robots, wide, tall, k)
  {
    assert (robots + [rob])[..|robots|] == robots;
  }

  // ---------------------------------------------------------------------
  // part1

  /** The safety factor: the product of the four quadrants' counts. */
  function SafetyFactor(robots: seq<Robot>, wide: int, tall: int): int
  {
    Product(CountIn(robots, wide, tall, 1), CountIn(robots, wide, tall, 2),
            CountIn(robots, wide, tall, 3), CountIn(robots, wide, tall, 4))
  }

  function Product(a: int, b: int, c: int, d: int): int
  {
    a * b * c * d
  }

  /** One second of `part1`: `robots[index] = moveRobot(rob, wide, tall)`
      for every index. */
  method MoveAll(robots: array<Robot>, wide: int, tall: int)
    requires wide != 0 && tall != 0
    modifies robots
    ensures robots[..] == Tick(old(robots[..]), wide, tall)
  {
    for index := 0 to robots.Length
      invariant forall i :: 0 <= i < index ==> robots[i] == MoveRobot(old(robots[i]), wide, tall)
      invariant forall i :: index <= i < robots.Length ==> robots[i] == old(robots[i])
    {
      robots[index] := MoveRobot(robots[index], wide, tall);
    }
  }

  // ---------------------------------------------------------------------
  // printGrid

  /** A robot stands on the `wide` by `tall` floor. */
  predicate OnFloor(rob: Robot, wide: int, tall: int)
  {
    0 <= rob.position.0 < wide && 0 <= rob.position.1 < tall
  }

  /** `printGrid` gets through without a panic: `make` is never given a
      negative size (a row is made only when `tall` is positive), and
      `grid[y][x]` exists for every robot. */
  predicate Printable(robots: seq<Robot>, wide: int, tall: int)
  {
    tall >= 0 && (tall > 0 ==> wide >= 0) &&
    forall i :: 0 <= i < |robots| ==> OnFloor(robots[i], wide, tall)
  }

  /** `printGrid`, apart from what it prints: false where Go panics. */
  method PrintGrid(robots: seq<Robot>, wide: int, tall: int) returns (printed: bool)
    ensures printed <==> Printable(robots, wide, tall)
  {
    if tall < 0 || (tall > 0 && wide < 0) {
      return false;
    }
    for k := 0 to |robots|
      invariant forall i :: 0 <= i < k ==> OnFloor(robots[i], wide, tall)
    {
      var (x, y) := robots[k].position;
      if !(0 <= y < tall && 0 <= x < wide) {
        return false;
      }
    }
    return true;
  }

  /** Every frame `part1` prints, after seconds 1 to `seconds`, can be
      printed. */
  predicate Printed(robots: seq<Robot>, wide: int, tall: int, seconds: nat)
    requires wide != 0 && tall != 0
  {
    forall k :: 1 <= k <= seconds ==> Printable(Simulate(robots, wide, tall, k), wide, tall)
  }

  /** The `part1` loop over the seconds, moving the robots in place and
      printing the floor after each second; false when a frame cannot be
      printed. */
  method Run(robots: array<Robot>, wide: int, tall: int, seconds: nat) returns (ok: bool)
    requires wide != 0 && tall != 0
    modifies robots
    ensures ok <==> Printed(old(robots[..]), wide, tall, seconds)
    ensures ok ==> robots[..] == Simulate(old(robots[..]), wide, tall, seconds)
  {
    ghost var start := robots[..];
    for second := 0 to seconds
      invariant robots[..] == Simulate(start, wide, tall, second)
      invariant Printed(start, wide, tall, second)
    {
      MoveAll(robots, wide, tall);
      PrintedStep(start, wide, tall, second);
      ok := PrintGrid(robots[..], wide, tall);
      if !ok {
        PrintedPrefix(start, wide, tall, second + 1, seconds);
        return;
      }
    }
    ok := true;
  }

  /** One more second prints one more frame. */
  lemma PrintedStep(robots: seq<Robot>, wide: int, tall: int, n: nat)
    requires wide != 0 && tall != 0
    ensures Printed(robots, wide, tall, n + 1) <==>
            Printed(robots, wide, tall, n) && Printable(Simulate(robots, wide, tall, n + 1), wide, tall)
  {
  }

  /** A run that prints every frame of `m` seconds prints those of fewer. */
  lemma PrintedPrefix(robots: seq<Robot>, wide: int, tall: int, n: nat, m: nat)
    requires wide != 0 && tall != 0 && n <= m
    ensures Printed(robots, wide, tall, m) ==> Printed(robots, wide, tall, n)
  {
  }

  /** `part1`: the robots are moved in place for `seconds` seconds, then the
      safety factor of where they stand is the answer; None when a frame
      printed on the way panics. */
  method Part1(robots: array<Robot>, wide: int, tall: int, seconds: int) returns (answer: Option<int>)
    requires wide != 0 && tall != 0
    modifies robots
    ensures answer.None? <==> !Printed(old(robots[..]), wide, tall, if seconds < 0 then 0 else seconds)
    ensures answer.Some? ==> robots[..] == Simulate(old(robots[..]), wide, tall, if seconds < 0 then 0 else seconds)
    ensures answer.Some? ==> answer.value == SafetyFactor(robots[..], wide, tall)
  {
    var ok := Run(robots, wide, tall, if seconds < 0 then 0 else seconds);
    if !ok {
      return None;
    }
    var q1, q2, q3, q4 := FindQuadrant(robots[..], wide, tall);
    answer := Some(Product(q1, q2, q3, q4));
  }

  /** Robots that start on the floor with velocities no less than minus the
      size stay on it, so every frame prints. */
  lemma TamePrinted(robots: seq<Robot>, wide: int, tall: int, seconds: nat)
    requires wide > 0 && tall > 0
    requires forall i :: 0 <= i < |robots| ==> Tame(robots[i], wide, tall)
    ensures Printed(robots, wide, tall, seconds)
  {
    forall k | 1 <= k <= seconds
      ensures Printable(Simulate(robots, wide, tall, k), wide, tall)
    {
      forall i | 0 <= i < |robots|
        ensures OnFloor(Simulate(robots, wide, tall, k)[i], wide, tall)
      {
        SimulateTravels(robots, wide, tall, k, i);
      }
    }
  }

  /** The fast robot of `FastRobotLeaves` is off the floor after the first
      second, so `part1` panics printing it. */
  lemma FastRobotPanics()
    ensures !Printed([Robot((0, 0), (-102, 0))], Wide, Tall, Seconds)
  {
    var robots := [Robot((0, 0), (-102, 0))];
    FastRobotLeaves();
    assert Simulate(robots, Wide, Tall, 1)[0] == MoveRobot(robots[0], Wide, Tall);
    assert !OnFloor(Simulate(robots, Wide, Tall, 1)[0], Wide, Tall);
  }

  /** The answer never exceeds the largest product four counts adding up
      to at most the number of robots can reach, and is 0 as soon as a
      quadrant is empty. */
  lemma SafetyFactorBounds(robots: seq<Robot>, wide: int, tall: int)
    ensures SafetyFactor(robots, wide, tall) >= 0
    ensures (exists k :: 1 <= k <= 4 && CountIn(robots, wide, tall, k) == 0) ==> SafetyFactor(robots, wide, tall) == 0
    ensures SafetyFactor(robots, wide, tall) <= |robots| * |robots| * |robots| * |robots|
  {
    var (a, b, c, d) := (CountIn(robots, wide, tall, 1), CountIn(robots, wide, tall, 2),
                         CountIn(robots, wide, tall, 3), CountIn(robots, wide, tall, 4));
    QuadrantsPartition(robots, wide, tall);
    var n := |robots|;
    MulMonotone(a, b, n, n);
    MulMonotone(a * b, c, n * n, n);
    MulMonotone(a * b * c, d, n * n * n, n);
  }

  lemma MulMonotone(a: nat, b: nat, x: nat, y: nat)
    requires a <= x && b <= y
    ensures a * b <= x * y
  {
    assert a * b <= x * b;
  }

  // ---------------------------------------------------------------------
  // grabRobots

  /** A line's robot: the first four matches of `-?\d+`, read by
      `util.ParseInt` as x, y, dx, dy; None when there are fewer than four
      (Go indexes past the matches and panics). */
  function RobotOf(line: string): Option<Robot>
  {
    var numbers := SignedNumerals(line);
    if |numbers| < 4 then None
    else
      var (x, y, dx, dy) := (Atoi(numbers[0]), Atoi(numbers[1]), Atoi(numbers[2]), Atoi(numbers[3]));
      if x.Some? && y.Some? && dx.Some? && dy.Some? then Some(Robot((x.value, y.value), (dx.value, dy.value)))
      else None
  }

  /** A line yields a robot exactly when it holds four numbers. */
  lemma RobotDefined(line: string)
    ensures RobotOf(line).Some? <==> |SignedNumerals(line)| >= 4
  {
    SignedNumeralsParse(line);
    var numbers := SignedNumerals(line);
    if |numbers| >= 4 {
      assert numbers[0] in numbers && numbers[1] in numbers && numbers[2] in numbers && numbers[3] in numbers;
    }
  }

  /** The robots of every line, in order; None when a line has fewer than
      four numbers. */
  function Robots(input: seq<string>): Option<seq<Robot>>
  {
    if forall k :: 0 <= k < |input| ==> RobotOf(input[k]).Some? then
      Some(seq(|input|, k requires 0 <= k < |input| => RobotOf(input[k]).value))
    else None
  }

  /** `grabRobots`: one robot per line, appended in order. */
  method GrabRobots(input: seq<string>) returns (toReturn: Option<seq<Robot>>)
    ensures toReturn == Robots(input)
  {
    var list: seq<Robot> := [];
    for k := 0 to |input|
      invariant |list| == k && forall j :: 0 <= j < k ==> RobotOf(input[j]) == Some(list[j])
    {
      var matches := SignedNumerals(input[k]);
      if |matches| < 4 {
        assert RobotOf(input[k]).None?;
        return None;
      }
      var x, y := Atoi(matches[0]), Atoi(matches[1]);
      var dx, dy := Atoi(matches[2]), Atoi(matches[3]);
      if x.None? || y.None? || dx.None? || dy.None? {
        assert RobotOf(input[k]).None?;
        return None;
      }
      list := list + [Robot((x.value, y.value), (dx.value, dy.value))];
    }
    assert list == Robots(input).value;
    return Some(list);
  }

  /** `a,b` followed by `rest`. */
  function PairText(a: int, b: int, rest: string): string
  {
    Itoa(a) + ("," + (Itoa(b) + rest))
  }

  /** The input line `p=x,y v=dx,dy` of a robot. */
  function RobotLine(rob: Robot): string
  {
    "p=" + PairText(rob.position.0, rob.position.1, " v=" + PairText(rob.velocity.0, rob.velocity.1, ""))
  }

  /** The numbers of `a,b` are a and b, then those of what follows. */
  lemma PairNumerals(a: int, b: int, rest: string)
    requires rest == "" || !IsDigit(rest[0])
    ensures SignedNumerals(PairText(a, b, rest)) == [Itoa(a), Itoa(b)] + SignedNumerals(rest)
  {
    CommaNumerals(a, Itoa(b) + rest);
    SignedNumeralsItoa(b, rest);
    var x, y, z := Itoa(a), Itoa(b), SignedNumerals(rest);
    assert SignedNumerals(Itoa(b) + rest) == [y] + z;
    assert SignedNumerals(PairText(a, b, rest)) == [x] + ([y] + z);
    PrependTwo(x, y, z);
  }

  lemma CommaNumerals(a: int, tail: string)
    ensures SignedNumerals(Itoa(a) + ("," + tail)) == [Itoa(a)] + SignedNumerals(tail)
  {
    SignedNumeralsItoa(a, "," + tail);
    SignedNumeralsSkip(",", tail);
  }

  lemma PrependTwo(x: string, y: string, z: seq<string>)
    ensures [x] + ([y] + z) == [x, y] + z
  {
  }

  /** A robot's line holds exactly its four numbers, in order. */
  lemma RobotLineNumerals(rob: Robot)
    ensures SignedNumerals(RobotLine(rob)) ==
              [Itoa(rob.position.0), Itoa(rob.position.1), Itoa(rob.velocity.0), Itoa(rob.velocity.1)]
  {
    var tail := PairText(rob.velocity.0, rob.velocity.1, "");
    PairNumerals(rob.velocity.0, rob.velocity.1, "");
    SignedNumeralsSkip(" v=", tail);
    PairNumerals(rob.position.0, rob.position.1, " v=" + tail);
    SignedNumeralsSkip("p=", PairText(rob.position.0, rob.position.1, " v=" + tail));
  }

  /** A robot's line reads back as the same robot. */
  lemma RobotLineRoundTrip(rob: Robot)
    ensures RobotOf(RobotLine(rob)) == Some(rob)
  {
    RobotLineNumerals(rob);
    AtoiItoa(rob.position.0);
    AtoiItoa(rob.position.1);
    AtoiItoa(rob.velocity.0);
    AtoiItoa(rob.velocity.1);
  }

  /** Part 1 on the puzzle's input: read the robots, move them for 100
      seconds on the 101 by 103 floor, multiply the quadrant counts. */
  method Solve(input: seq<string>) returns (answer: Option<int>)
    ensures answer.None? <==> Robots(input).None? || !Printed(Robots(input).value, Wide, Tall, Seconds)
    ensures answer.Some? ==> answer.value == SafetyFactor(Simulate(Robots(input).value, Wide, Tall, Seconds), Wide, Tall)
  {
    var robots := GrabRobots(input);
    if robots.None? {
      return None;
    }
    var floor := new Robot[|robots.value|](i requires 0 <= i < |robots.value| => robots.value[i]);
    assert floor[..] == robots.value;
    answer := Part1(floor, Wide, Tall, Seconds);
  }
}
