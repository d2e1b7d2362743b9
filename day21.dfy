/** Day 21: robots typing a door code through a chain of keypads. The
    length of the button presses needed at a given depth is computed key
    by key from a constant table of shortest paths, memoised in a
    package-level cache keyed by the sequence and the depth. */
module Day21 {
  import opened Wrappers
  import opened Text

  /** The depths `part1` and `part2` ask for. */
  const Part1Depth := 3
  const Part2Depth := 26

  // ---------------------------------------------------------------------
  // The keypads and the `combinations` table

  /** A key of the numeric door keypad. */
  predicate NumericKey(c: char)
  {
    c == '0' || c == '1' || c == '2' || c == '3' || c == '4' || c == '5' ||
    c == '6' || c == '7' || c == '8' || c == '9' || c == 'A'
  }

  /** A key of the directional keypad the robots are driven with. */
  predicate DirectionKey(c: char)
  {
    c == '<' || c == '>' || c == '^' || c == 'v' || c == 'A'
  }

  /** Every key lies on the directional keypad. */
  predicate Directions(s: string)
  {
    forall i :: 0 <= i < |s| ==> DirectionKey(s[i])
  }

  /** A path of the table: direction keys that end by pressing 'A'. */
  predicate KeyPath(s: string)
  {
    |s| > 0 && s[|s| - 1] == 'A' && Directions(s)
  }

  /** A place on a keypad: row from the top, column from the left. */
  type Position = (int, int)

  /** The empty corner of each keypad, where no arm may ever point. */
  const NumericGap: Position := (3, 0)
  const DirectionGap: Position := (0, 0)

  /** The door keypad: 7 8 9 / 4 5 6 / 1 2 3 / gap 0 A. */
  function NumericPosition(c: char): Position
  {
    match c
    case '7' => (0, 0) case '8' => (0, 1) case '9' => (0, 2)
    case '4' => (1, 0) case '5' => (1, 1) case '6' => (1, 2)
    case '1' => (2, 0) case '2' => (2, 1) case '3' => (2, 2)
    case '0' => (3, 1) case _ => (3, 2)
  }

  /** The directional keypad: gap ^ A / < v >. */
  function DirectionPosition(c: char): Position
  {
    match c
    case '^' => (0, 1) case 'A' => (0, 2)
    case '<' => (1, 0) case 'v' => (1, 1) case _ => (1, 2)
  }

  /** Where one direction press moves an arm. */
  function Step(pos: Position, c: char): Position
  {
    match c
    case '^' => (pos.0 - 1, pos.1)
    case 'v' => (pos.0 + 1, pos.1)
    case '<' => (pos.0, pos.1 - 1)
    case _ => (pos.0, pos.1 + 1)
  }

  /** From the `k`th press on, `path` moves the arm from `pos` to `goal`
      without pointing at the gap, and its only 'A' is the last press. */
  predicate Drives(pos: Position, path: string, k: nat, goal: Position, gap: Position)
    requires k <= |path|
    decreases |path| - k
  {
    pos != gap && k < |path| &&
    if path[k] == 'A' then k == |path| - 1 && pos == goal
    else Drives(Step(pos, path[k]), path, k + 1, goal, gap)
  }

  function Abs(x: int): nat
  {
    if x < 0 then -x else x
  }

  /** The number of moves between two places, one row or column a move. */
  function Distance(a: Position, b: Position): nat
  {
    Abs(a.0 - b.0) + Abs(a.1 - b.1)
  }

  /** `path` drives the arm from `pos` to `goal` around the gap in as few
      moves as the grid allows, then presses 'A'. */
  predicate Route(pos: Position, path: string, goal: Position, gap: Position)
  {
    Drives(pos, path, 0, goal, gap) && |path| == Distance(pos, goal) + 1
  }

  /** `combinations`: the presses on the directional keypad that move a
      robot's arm from `start` to `end` and press it. The table holds
      exactly the pairs of two different keys of one keypad. */
  function Combination(start: char, end: char): (r: Option<string>)
    ensures r.Some? <==> start != end && ((NumericKey(start) && NumericKey(end)) || (DirectionKey(start) && DirectionKey(end)))
    ensures r.Some? ==> KeyPath(r.value)
  {
    match start
    case 'A' => if NumericKey(end) then FromANumeric(end) else FromADirection(end)
    case '0' => From0(end)
    case '1' => From1(end)
    case '2' => From2(end)
    case '3' => From3(end)
    case '4' => From4(end)
    case '5' => From5(end)
    case '6' => From6(end)
    case '7' => From7(end)
    case '8' => From8(end)
    case '9' => From9(end)
    case '<' => FromLeft(end)
    case '^' => FromUp(end)
    case 'v' => FromDown(end)
    case '>' => FromRight(end)
    case _ => None
  }

  /** The table's rows, one function per start key (two for 'A', which
      is on both keypads), in the order of the Go literal. */
  function FromANumeric(end: char): (r: Option<string>)
    ensures r.Some? <==> end != 'A' && NumericKey(end)
    ensures r.Some? ==> KeyPath(r.value)
  {
    match end
    case '0' => Some("<A")
    case '1' => Some("^<<A")
    case '2' => Some("<^A")
    case '3' => Some("^A")
    case '4' => Some("^^<<A")
    case '5' => Some("<^^A")
    case '6' => Some("^^A")
    case '7' => Some("^^^<<A")
    case '8' => Some("<^^^A")
    case '9' => Some("^^^A")
    case _ => None
  }

  function From0(end: char): (r: Option<string>)
    ensures r.Some? <==> end != '0' && NumericKey(end)
    ensures r.Some? ==> KeyPath(r.value)
  {
    match end
    case 'A' => Some(">A")
    case '1' => Some("^<A")
    case '2' => Some("^A")
    case '3' => Some("^>A")
    case '4' => Some("^<^A")
    case '5' => Some("^^A")
    case '6' => Some("^^>A")
    case '7' => Some("^^^<A")
    case '8' => Some("^^^A")
    case '9' => Some("^^^>A")
    case _ => None
  }

  function From1(end: char): (r: Option<string>)
    ensures r.Some? <==> end != '1' && NumericKey(end)
    ensures r.Some? ==> KeyPath(r.value)
  {
    match end
    case 'A' => Some(">>vA")
    case '0' => Some(">vA")
    case '2' => Some(">A")
    case '3' => Some(">>A")
    case '4' => Some("^A")
    case '5' => Some("^>A")
    case '6' => Some("^>>A")
    case '7' => Some("^^A")
    case '8' => Some("^^>A")
    case '9' => Some("^^>>A")
    case _ => None
  }

  function From2(end: char): (r: Option<string>)
    ensures r.Some? <==> end != '2' && NumericKey(end)
    ensures r.Some? ==> KeyPath(r.value)
  {
    match end
    case 'A' => Some("v>A")
    case '0' => Some("vA")
    case '1' => Some("<A")
    case '3' => Some(">A")
    case '4' => Some("<^A")
    case '5' => Some("^A")
    case '6' => Some("^>A")
    case '7' => Some("<^^A")
    case '8' => Some("^^A")
    case '9' => Some("^^>A")
    case _ => None
  }

  function From3(end: char): (r: Option<string>)
    ensures r.Some? <==> end != '3' && NumericKey(end)
    ensures r.Some? ==> KeyPath(r.value)
  {
    match end
    case 'A' => Some("vA")
    case '0' => Some("<vA")
    case '1' => Some("<<A")
    case '2' => Some("<A")
    case '4' => Some("<<^A")
    case '5' => Some("<^A")
    case '6' => Some("^A")
    case '7' => Some("<<^^A")
    case '8' => Some("<^^A")
    case '9' => Some("^^A")
    case _ => None
  }

  function From4(end: char): (r: Option<string>)
    ensures r.Some? <==> end != '4' && NumericKey(end)
    ensures r.Some? ==> KeyPath(r.value)
  {
    match end
    case 'A' => Some(">>vvA")
    case '0' => Some(">vvA")
    case '1' => Some("vA")
    case '2' => Some("v>A")
    case '3' => Some("v>>A")
    case '5' => Some(">A")
    case '6' => Some(">>A")
    case '7' => Some("^A")
    case '8' => Some("^>A")
    case '9' => Some("^>>A")
    case _ => None
  }

  function From5(end: char): (r: Option<string>)
    ensures r.Some? <==> end != '5' && NumericKey(end)
    ensures r.Some? ==> KeyPath(r.value)
  {
    match end
    case 'A' => Some("vv>A")
    case '0' => Some("vvA")
    case '1' => Some("<vA")
    case '2' => Some("vA")
    case '3' => Some("v>A")
    case '4' => Some("<A")
    case '6' => Some(">A")
    case '7' => Some("<^A")
    case '8' => Some("^A")
    case '9' => Some("^>A")
    case _ => None
  }

  function From6(end: char): (r: Option<string>)
    ensures r.Some? <==> end != '6' && NumericKey(end)
    ensures r.Some? ==> KeyPath(r.value)
  {
    match end
    case 'A' => Some("vvA")
    case '0' => Some("<vvA")
    case '1' => Some("<<vA")
    case '2' => Some("<vA")
    case '3' => Some("vA")
    case '4' => Some("<<A")
    case '5' => Some("<A")
    case '7' => Some("<<^A")
    case '8' => Some("<^A")
    case '9' => Some("^A")
    case _ => None
  }

  function From7(end: char): (r: Option<string>)
    ensures r.Some? <==> end != '7' && NumericKey(end)
    ensures r.Some? ==> KeyPath(r.value)
  {
    match end
    case 'A' => Some(">>vvvA")
    case '0' => Some(">vvvA")
    case '1' => Some("vvA")
    case '2' => Some("vv>A")
    case '3' => Some("vv>>A")
    case '4' => Some("vA")
    case '5' => Some("v>A")
    case '6' => Some("v>>A")
    case '8' => Some(">A")
    case '9' => Some(">>A")
    case _ => None
  }

  function From8(end: char): (r: Option<string>)
    ensures r.Some? <==> end != '8' && NumericKey(end)
    ensures r.Some? ==> KeyPath(r.value)
  {
    match end
    case 'A' => Some("vvv>A")
    case '0' => Some("vvvA")
    case '1' => Some("<vvA")
    case '2' => Some("vvA")
    case '3' => Some("vv>A")
    case '4' => Some("<vA")
    case '5' => Some("vA")
    case '6' => Some("v>A")
    case '7' => Some("<A")
    case '9' => Some(">A")
    case _ => None
  }

  function From9(end: char): (r: Option<string>)
    ensures r.Some? <==> end != '9' && NumericKey(end)
    ensures r.Some? ==> KeyPath(r.value)
  {
    match end
    case 'A' => Some("vvvA")
    case '0' => Some("<vvvA")
    case '1' => Some("<<vvA")
    case '2' => Some("<vvA")
    case '3' => Some("vvA")
    case '4' => Some("<<vA")
    case '5' => Some("<vA")
    case '6' => Some("vA")
    case '7' => Some("<<A")
    case '8' => Some("<A")
    case _ => None
  }

  function FromLeft(end: char): (r: Option<string>)
    ensures r.Some? <==> end != '<' && DirectionKey(end)
    ensures r.Some? ==> KeyPath(r.value)
  {
    match end
    case '^' => Some(">^A")
    case 'v' => Some(">A")
    case '>' => Some(">>A")
    case 'A' => Some(">>^A")
    case _ => None
  }

  function FromUp(end: char): (r: Option<string>)
    ensures r.Some? <==> end != '^' && DirectionKey(end)
    ensures r.Some? ==> KeyPath(r.value)
  {
    match end
    case '<' => Some("v<A")
    case 'v' => Some("vA")
    case '>' => Some("v>A")
    case 'A' => Some(">A")
    case _ => None
  }

  function FromDown(end: char): (r: Option<string>)
    ensures r.Some? <==> end != 'v' && DirectionKey(end)
    ensures r.Some? ==> KeyPath(r.value)
  {
    match end
    case '<' => Some("<A")
    case '^' => Some("^A")
    case '>' => Some(">A")
    case 'A' => Some("^>A")
    case _ => None
  }

  function FromRight(end: char): (r: Option<string>)
    ensures r.Some? <==> end != '>' && DirectionKey(end)
    ensures r.Some? ==> KeyPath(r.value)
  {
    match end
    case '<' => Some("<<A")
    case '^' => Some("<^A")
    case 'v' => Some("<A")
    case 'A' => Some("^A")
    case _ => None
  }

  function FromADirection(end: char): (r: Option<string>)
    ensures r.Some? <==> end != 'A' && DirectionKey(end)
    ensures r.Some? ==> KeyPath(r.value)
  {
    match end
    case '<' => Some("v<<A")
    case '^' => Some("<A")
    case 'v' => Some("<vA")
    case '>' => Some("vA")
    case _ => None
  }

  /** `combinations[directionCombination{current, next}]`: a pair that is
      not in the table reads as Go's zero value, the empty string. */
  function Path(start: char, end: char): string
  {
    match Combination(start, end)
    case Some(p) => p
    case None => ""
  }

  lemma RoutesFromANumeric(end: char)
    requires FromANumeric(end).Some?
    ensures Route(NumericPosition('A'), FromANumeric(end).value, NumericPosition(end), NumericGap)
  {
  }

  lemma RoutesFrom0(end: char)
    requires From0(end).Some?
    ensures Route(NumericPosition('0'), From0(end).value, NumericPosition(end), NumericGap)
  {
  }

  lemma RoutesFrom1(end: char)
    requires From1(end).Some?
    ensures Route(NumericPosition('1'), From1(end).value, NumericPosition(end), NumericGap)
  {
  }

  lemma RoutesFrom2(end: char)
    requires From2(end).Some?
    ensures Route(NumericPosition('2'), From2(end).value, NumericPosition(end), NumericGap)
  {
  }

  lemma RoutesFrom3(end: char)
    requires From3(end).Some?
    ensures Route(NumericPosition('3'), From3(end).value, NumericPosition(end), NumericGap)
  {
  }

  lemma RoutesFrom4(end: char)
    requires From4(end).Some?
    ensures Route(NumericPosition('4'), From4(end).value, NumericPosition(end), NumericGap)
  {
  }

  lemma RoutesFrom5(end: char)
    requires From5(end).Some?
    ensures Route(NumericPosition('5'), From5(end).value, NumericPosition(end), NumericGap)
  {
  }

  lemma RoutesFrom6(end: char)
    requires From6(end).Some?
    ensures Route(NumericPosition('6'), From6(end).value, NumericPosition(end), NumericGap)
  {
  }

  lemma RoutesFrom7(end: char)
    requires From7(end).Some?
    ensures Route(NumericPosition('7'), From7(end).value, NumericPosition(end), NumericGap)
  {
  }

  lemma RoutesFrom8(end: char)
    requires From8(end).Some?
    ensures Route(NumericPosition('8'), From8(end).value, NumericPosition(end), NumericGap)
  {
  }

  lemma RoutesFrom9(end: char)
    requires From9(end).Some?
    ensures Route(NumericPosition('9'), From9(end).value, NumericPosition(end), NumericGap)
  {
  }

  lemma RoutesFromLeft(end: char)
    requires FromLeft(end).Some?
    ensures Route(DirectionPosition('<'), FromLeft(end).value, DirectionPosition(end), DirectionGap)
  {
  }

  lemma RoutesFromUp(end: char)
    requires FromUp(end).Some?
    ensures Route(DirectionPosition('^'), FromUp(end).value, DirectionPosition(end), DirectionGap)
  {
  }

  lemma RoutesFromDown(end: char)
    requires FromDown(end).Some?
    ensures Route(DirectionPosition('v'), FromDown(end).value, DirectionPosition(end), DirectionGap)
  {
  }

  lemma RoutesFromRight(end: char)
    requires FromRight(end).Some?
    ensures Route(DirectionPosition('>'), FromRight(end).value, DirectionPosition(end), DirectionGap)
  {
  }

  lemma RoutesFromADirection(end: char)
    requires FromADirection(end).Some?
    ensures Route(DirectionPosition('A'), FromADirection(end).value, DirectionPosition(end), DirectionGap)
  {
  }

  /** Every path of the table is a shortest route around the gap of its
      keypad, from its start key to its end key. */
  lemma TableRoutes(start: char, end: char)
    requires Combination(start, end).Some?
    ensures NumericKey(start) && NumericKey(end) ==>
              Route(NumericPosition(start), Path(start, end), NumericPosition(end), NumericGap)
    ensures DirectionKey(start) && DirectionKey(end) ==>
              Route(DirectionPosition(start), Path(start, end), DirectionPosition(end), DirectionGap)
  {
    match start
    case 'A' => if NumericKey(end) { RoutesFromANumeric(end); } else { RoutesFromADirection(end); }
    case '0' => RoutesFrom0(end);
    case '1' => RoutesFrom1(end);
    case '2' => RoutesFrom2(end);
    case '3' => RoutesFrom3(end);
    case '4' => RoutesFrom4(end);
    case '5' => RoutesFrom5(end);
    case '6' => RoutesFrom6(end);
    case '7' => RoutesFrom7(end);
    case '8' => RoutesFrom8(end);
    case '9' => RoutesFrom9(end);
    case '<' => RoutesFromLeft(end);
    case '^' => RoutesFromUp(end);
    case 'v' => RoutesFromDown(end);
    case '>' => RoutesFromRight(end);
    case _ =>
  }

  /** No drive is shorter than the distance it covers, plus the press. */
  lemma {:induction false} DrivesAtLeast(pos: Position, path: string, k: nat, goal: Position, gap: Position)
    requires k <= |path| && Drives(pos, path, k, goal, gap)
    ensures |path| - k >= Distance(pos, goal) + 1
    decreases |path| - k
  {
    if path[k] != 'A' {
      DrivesAtLeast(Step(pos, path[k]), path, k + 1, goal, gap);
    }
  }

  /** No press sequence that drives an arm between two keys of a keypad
      is shorter than the table's path between them. */
  lemma TableShortest(start: char, end: char, other: string)
    requires Combination(start, end).Some?
    requires (NumericKey(start) && NumericKey(end) && Drives(NumericPosition(start), other, 0, NumericPosition(end), NumericGap)) ||
             (DirectionKey(start) && DirectionKey(end) && Drives(DirectionPosition(start), other, 0, DirectionPosition(end), DirectionGap))
    ensures |other| >= |Path(start, end)|
  {
    TableRoutes(start, end);
    if NumericKey(start) && NumericKey(end) && Drives(NumericPosition(start), other, 0, NumericPosition(end), NumericGap) {
      DrivesAtLeast(NumericPosition(start), other, 0, NumericPosition(end), NumericGap);
    } else {
      DrivesAtLeast(DirectionPosition(start), other, 0, DirectionPosition(end), DirectionGap);
    }
  }

  // ---------------------------------------------------------------------
  // getSequenceLength and getMoveCount

  /** The number of presses at the far end of `depth` robots that make
      the nearest robot type `s`: `s` itself at depth 0, otherwise the
      moves from key to key, starting at 'A'. */
  function SequenceLength(s: string, depth: nat): nat
    decreases depth, 2, 0
  {
    if depth == 0 then |s| else Moves('A', s, depth)
  }

  /** The loop of `getSequenceLength`: the move counts of the keys of `s`
      in turn, the arm starting at `current`. */
  function Moves(current: char, s: string, depth: nat): nat
    requires depth >= 1
    decreases depth, 1, |s|
  {
    if |s| == 0 then 0 else MoveCount(current, s[0], depth) + Moves(s[0], s[1..], depth)
  }

  /** `getMoveCount`: a repeated key is one more press of 'A'; otherwise
      the table path, typed one level further out. */
  function MoveCount(current: char, next: char, depth: nat): nat
    requires depth >= 1
    decreases depth, 0, 0
  {
    if current == next then 1 else SequenceLength(Path(current, next), depth - 1)
  }

  /** The package-level `sequenceCache`, shared by `part1` and `part2`. */
  class SequenceCache {
    var cache: map<(string, nat), nat>

    /** Every entry holds the length of its sequence at its depth. */
    ghost predicate Valid()
      reads this
    {
      forall key | key in cache :: cache[key] == SequenceLength(key.0, key.1)
    }

    constructor ()
      ensures Valid() && cache == map[]
    {
      cache := map[];
    }

    /** `getSequenceLength`: the cached length, or the length computed
        key by key and then cached. */
    method GetSequenceLength(target: string, depth: nat) returns (length: nat)
      requires Valid()
      modifies this
      ensures Valid() && length == SequenceLength(target, depth)
      ensures old(cache).Keys <= cache.Keys && (target, depth) in cache
      decreases depth, 2, 0
    {
      var key := (target, depth);
      if key in cache {
        return cache[key];
      }
      length := 0;
      if depth == 0 {
        length := |target|;
      } else {
        var current := 'A';
        for k := 0 to |target|
          invariant Valid() && old(cache).Keys <= cache.Keys
          invariant length + Moves(current, target[k..], depth) == Moves('A', target, depth)
        {
          var next := target[k];
          assert target[k..][1..] == target[k + 1..];
          var count := GetMoveCount(current, next, depth);
          current := next;
          length := length + count;
        }
      }
      cache := cache[key := length];
    }

    /** `getMoveCount`. */
    method GetMoveCount(current: char, next: char, depth: nat) returns (count: nat)
      requires Valid() && depth >= 1
      modifies this
      ensures Valid() && count == MoveCount(current, next, depth)
      ensures old(cache).Keys <= cache.Keys
      decreases depth, 0, 0
    {
      if current == next {
        return 1;
      }
      var newSequence := Path(current, next);
      count := GetSequenceLength(newSequence, depth - 1);
    }

    /** The loop of `part1` and `part2`: per code, its number and then its
        sequence length, the products added up. */
    method SumComplexities(codes: seq<string>, depth: nat) returns (sum: Option<int>)
      requires Valid()
      modifies this
      ensures Valid() && sum == Complexity(codes, depth)
    {
      var total := 0;
      for k := 0 to |codes|
        invariant Valid()
        invariant Complexity(codes[..k], depth) == Some(total)
      {
        var code := codes[k];
        assert codes[..k + 1][..k] == codes[..k];
        var num := ParsedNum(code);
        if num.None? {
          ComplexityStops(codes, k + 1, depth);
          return None;
        }
        var length := GetSequenceLength(code, depth);
        total := total + length * num.value;
      }
      assert codes[..|codes|] == codes;
      return Some(total);
    }
  }

  // ---------------------------------------------------------------------
  // The presses themselves

  /** The presses that make a robot with its arm on `current` type
      `next`: one more 'A' for a repeated key, otherwise the table path. */
  function Press(current: char, next: char): string
  {
    if current == next then "A" else Path(current, next)
  }

  /** The presses one keypad further out that make a robot type `s`, its
      arm starting on `current`. */
  function Presses(current: char, s: string): string
    decreases |s|
  {
    if |s| == 0 then "" else Press(current, s[0]) + Presses(s[0], s[1..])
  }

  /** The presses at the far end of `depth` robots that make the nearest
      one type `s`. */
  function Typed(s: string, depth: nat): string
    decreases depth
  {
    if depth == 0 then s else Typed(Presses('A', s), depth - 1)
  }

  /** A press is nothing (a pair missing from the table) or a table path. */
  lemma PressShape(current: char, next: char)
    ensures Press(current, next) == "" || KeyPath(Press(current, next))
  {
  }

  /** Every press is on the directional keypad. */
  lemma {:induction false} PressesDirections(current: char, s: string)
    ensures Directions(Presses(current, s))
    decreases |s|
  {
    if |s| > 0 {
      PressShape(current, s[0]);
      PressesDirections(s[0], s[1..]);
    }
  }

  /** The moves of two strings in a row: the second starts where the first
      left the arm. */
  lemma {:induction false} MovesAppend(current: char, p: string, q: string, depth: nat)
    requires depth >= 1
    ensures Moves(current, p + q, depth) ==
            Moves(current, p, depth) + Moves(if |p| == 0 then current else p[|p| - 1], q, depth)
    decreases |p|
  {
    if |p| > 0 {
      assert (p + q)[0] == p[0];
      assert (p + q)[1..] == p[1..] + q;
      MovesAppend(p[0], p[1..], q, depth);
    } else {
      assert p + q == q;
    }
  }

  /** Strings that leave the arm on 'A' have additive lengths. */
  lemma LengthAppend(p: string, q: string, depth: nat)
    requires p == "" || p[|p| - 1] == 'A'
    ensures SequenceLength(p + q, depth) == SequenceLength(p, depth) + SequenceLength(q, depth)
  {
    if depth > 0 {
      MovesAppend('A', p, q, depth);
    }
  }

  /** One move costs the length of its press one level further out. */
  lemma MoveCountPress(current: char, next: char, depth: nat)
    requires depth >= 1
    ensures MoveCount(current, next, depth) == SequenceLength(Press(current, next), depth - 1)
  {
    if current == next && depth > 1 {
      assert "A"[1..] == "";
      assert Moves('A', "A", depth - 1) == MoveCount('A', 'A', depth - 1) + Moves('A', "", depth - 1);
    }
  }

  /** The moves of `s` cost the length of the presses that type it. */
  lemma {:induction false} MovesPresses(current: char, s: string, depth: nat)
    requires depth >= 1
    ensures Moves(current, s, depth) == SequenceLength(Presses(current, s), depth - 1)
    decreases |s|
  {
    if |s| > 0 {
      MoveCountPress(current, s[0], depth);
      MovesPresses(s[0], s[1..], depth);
      PressShape(current, s[0]);
      LengthAppend(Press(current, s[0]), Presses(s[0], s[1..]), depth - 1);
    }
  }

  /** The memoised recursion counts exactly the presses at the far end of
      the chain of robots. */
  lemma {:induction false} LengthIsTyped(s: string, depth: nat)
    ensures SequenceLength(s, depth) == |Typed(s, depth)|
    decreases depth
  {
    if depth > 0 {
      MovesPresses('A', s, depth);
      LengthIsTyped(Presses('A', s), depth - 1);
    }
  }

  /** A string of keys of one keypad. */
  predicate OnePad(s: string)
  {
    (forall i :: 0 <= i < |s| ==> NumericKey(s[i])) || Directions(s)
  }

  /** On one keypad every key takes at least one press. */
  lemma {:induction false} PressesNoShorter(current: char, s: string)
    requires OnePad([current] + s)
    ensures |Presses(current, s)| >= |s|
    decreases |s|
  {
    if |s| > 0 {
      var t := [current] + s;
      assert t[0] == current && t[1] == s[0];
      PressShape(current, s[0]);
      assert [s[0]] + s[1..] == t[1..];
      PressesNoShorter(s[0], s[1..]);
    }
  }

  /** Typing a string of one keypad never takes fewer presses than keys. */
  lemma {:induction false} TypedNoShorter(s: string, depth: nat)
    requires OnePad(s)
    ensures |Typed(s, depth)| >= |s|
    decreases depth
  {
    if depth > 0 {
      var t := ['A'] + s;
      assert t[1..] == s;
      PressesNoShorter('A', s);
      PressesDirections('A', s);
      TypedNoShorter(Presses('A', s), depth - 1);
    }
  }

  /** The length at any depth is at least the length of the code. */
  lemma LengthNoShorter(s: string, depth: nat)
    requires OnePad(s)
    ensures SequenceLength(s, depth) >= |s|
  {
    LengthIsTyped(s, depth);
    TypedNoShorter(s, depth);
  }

  // ---------------------------------------------------------------------
  // parsedNum

  /** The longest run of decimal digits at the start of `s`. */
  function LeadingDigits(s: string): (run: string)
    ensures run <= s && AllDigits(run)
    ensures |run| < |s| ==> !IsDigit(s[|run|])
  {
    if |s| > 0 && IsDigit(s[0]) then [s[0]] + LeadingDigits(s[1..]) else ""
  }

  /** `parsedNum`: the first match of `[0-9]+`, which starts at the first
      digit and runs as far as the digits go, read by `util.ParseInt`;
      with no digit at all `num[0]` is out of range and Go panics. */
  function ParsedNum(line: string): Option<int>
  {
    if |line| == 0 then None
    else if IsDigit(line[0]) then Atoi(LeadingDigits(line))
    else ParsedNum(line[1..])
  }

  /** The number is the run of digits that starts at the first digit. */
  lemma {:induction false} FirstNumber(line: string, i: nat)
    requires i < |line| && IsDigit(line[i])
    requires forall j :: 0 <= j < i ==> !IsDigit(line[j])
    ensures ParsedNum(line) == Some(ParseDigits(LeadingDigits(line[i..])))
  {
    if i == 0 {
      AtoiDigits(LeadingDigits(line));
      assert line[0..] == line;
    } else {
      assert !IsDigit(line[0]);
      assert line[1..][i - 1..] == line[i..];
      FirstNumber(line[1..], i - 1);
    }
  }

  /** A line without digits has no number. */
  lemma {:induction false} NoNumber(line: string)
    requires forall i :: 0 <= i < |line| ==> !IsDigit(line[i])
    ensures ParsedNum(line) == None
  {
    if |line| > 0 {
      NoNumber(line[1..]);
    }
  }

  /** The digits before a non-digit are the leading run. */
  lemma {:induction false} LeadingRun(digits: string, rest: string)
    requires AllDigits(digits)
    requires rest == "" || !IsDigit(rest[0])
    ensures LeadingDigits(digits + rest) == digits
  {
    if |digits| > 0 {
      assert (digits + rest)[1..] == digits[1..] + rest;
      LeadingRun(digits[1..], rest);
    } else {
      assert digits + rest == rest;
    }
  }

  /** A door code, digits followed by 'A', has the digits' value as its
      number, leading zeros and all. */
  lemma CodeNumber(digits: string)
    requires |digits| > 0 && AllDigits(digits)
    ensures ParsedNum(digits + "A") == Some(ParseDigits(digits))
  {
    var line := digits + "A";
    LeadingRun(digits, "A");
    assert line[0..] == line;
    FirstNumber(line, 0);
  }

  // ---------------------------------------------------------------------
  // part1 and part2

  /** The sum of the codes' complexities: the sequence length at `depth`
      times the code's number; None when a code has no number. */
  function Complexity(codes: seq<string>, depth: nat): Option<int>
  {
    if |codes| == 0 then Some(0)
    else
      match Complexity(codes[..|codes| - 1], depth)
      case None => None
      case Some(sum) =>
        match ParsedNum(codes[|codes| - 1])
        case None => None
        case Some(num) => Some(sum + SequenceLength(codes[|codes| - 1], depth) * num)
  }

  /** The same sum, over the presses at the far end of the robots. */
  function TypedComplexity(codes: seq<string>, depth: nat): Option<int>
  {
    if |codes| == 0 then Some(0)
    else
      match TypedComplexity(codes[..|codes| - 1], depth)
      case None => None
      case Some(sum) =>
        match ParsedNum(codes[|codes| - 1])
        case None => None
        case Some(num) => Some(sum + |Typed(codes[|codes| - 1], depth)| * num)
  }

  /** The answer is the number of presses at the far end times the code's
      number, summed over the codes. */
  lemma {:induction false} ComplexityIsTyped(codes: seq<string>, depth: nat)
    ensures Complexity(codes, depth) == TypedComplexity(codes, depth)
  {
    if |codes| > 0 {
      ComplexityIsTyped(codes[..|codes| - 1], depth);
      LengthIsTyped(codes[|codes| - 1], depth);
    }
  }

  /** Once a code has no number, the program stops whatever follows. */
  lemma {:induction false} ComplexityStops(codes: seq<string>, k: nat, depth: nat)
    requires k <= |codes| && Complexity(codes[..k], depth) == None
    ensures Complexity(codes, depth) == None
    decreases |codes| - k
  {
    if k < |codes| {
      assert codes[..k + 1][..k] == codes[..k];
      ComplexityStops(codes, k + 1, depth);
    } else {
      assert codes[..k] == codes;
    }
  }

  /** `part1` and `part2` run `main`'s two loops over the codes, at depths
      3 and 26, on one shared cache. */
  method Solve(codes: seq<string>) returns (answer1: Option<int>, answer2: Option<int>)
    ensures answer1 == Complexity(codes, Part1Depth)
    ensures answer2 == Complexity(codes, Part2Depth)
  {
    var cache := new SequenceCache();
    answer1 := cache.SumComplexities(codes, Part1Depth);
    answer2 := cache.SumComplexities(codes, Part2Depth);
  }
}
