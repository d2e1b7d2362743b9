/** Day 8: antennas and their antinodes. Antennas are the grid's non-"."
    cells, grouped by their symbol. Part 1 counts the distinct in-bounds
    points one antenna-to-antenna step beyond either antenna of a
    same-symbol pair; part 2 every in-bounds point a whole number of such
    steps along the pair's line, and the antennas themselves. */
module Day8 {
  import HashSetUtil

  type Grid = seq<seq<char>>

  const Empty: char := '.'

  /** A point: `x` is the column, `y` the row. */
  datatype Position = Position(x: int, y: int)

  /** `withInBounds`: `x` below `rowLen` and `y` below `colLen`. */
  predicate WithInBounds(x: int, y: int, rowLen: int, colLen: int)
  {
    x >= 0 && x < rowLen && y >= 0 && y < colLen
  }

  predicate In(p: Position, rowLen: int, colLen: int)
  {
    WithInBounds(p.x, p.y, rowLen, colLen)
  }

  // ---------------------------------------------------------------------
  // findAntennaPositions

  function Get(m: map<char, seq<Position>>, c: char): seq<Position>
  {
    if c in m then m[c] else []
  }

  /** The first `n` cells of row `y` added to the groups: each non-"."
      cell appended to its symbol's list. */
  function ScanRow(m: map<char, seq<Position>>, row: seq<char>, y: int, n: nat): map<char, seq<Position>>
    requires n <= |row|
  {
    if n == 0 then m
    else
      var before := ScanRow(m, row, y, n - 1);
      if row[n - 1] != Empty then before[row[n - 1] := Get(before, row[n - 1]) + [Position(n - 1, y)]] else before
  }

  /** The groups of the first `k` rows. */
  function ScanGrid(grid: Grid, k: nat): map<char, seq<Position>>
    requires k <= |grid|
  {
    if k == 0 then map[] else ScanRow(ScanGrid(grid, k - 1), grid[k - 1], k - 1, |grid[k - 1]|)
  }

  /** The cell loop over one row. */
  method ScanCells(positions: map<char, seq<Position>>, row: seq<char>, y: int) returns (result: map<char, seq<Position>>)
    ensures result == ScanRow(positions, row, y, |row|)
  {
    result := positions;
    for x := 0 to |row|
      invariant result == ScanRow(positions, row, y, x)
    {
      var cell := row[x];
      if cell != Empty {
        result := result[cell := Get(result, cell) + [Position(x, y)]];
      }
    }
  }

  /** `findAntennaPositions`: the non-"." cells grouped by symbol, each
      group in row-major order. */
  method FindAntennaPositions(grid: Grid) returns (positions: map<char, seq<Position>>)
    ensures positions == ScanGrid(grid, |grid|)
  {
    positions := map[];
    for y := 0 to |grid|
      invariant positions == ScanGrid(grid, y)
    {
      positions := ScanCells(positions, grid[y], y);
    }
  }

  /** The cell (x, y) exists and holds the antenna symbol `c`. */
  predicate Antenna(grid: Grid, c: char, p: Position)
  {
    c != Empty && 0 <= p.y < |grid| && 0 <= p.x < |grid[p.y]| && grid[p.y][p.x] == c
  }

  /** `p` comes before `q` in row-major order. */
  predicate Before(p: Position, q: Position)
  {
    p.y < q.y || (p.y == q.y && p.x < q.x)
  }

  /** Every group lists its positions in strictly increasing row-major
      order, all in rows before `y`. */
  predicate Ordered(m: map<char, seq<Position>>, y: int)
  {
    forall c :: c in m ==> |m[c]| > 0 && OrderedList(m[c], y)
  }

  predicate OrderedList(s: seq<Position>, y: int)
  {
    (forall i, j :: 0 <= i < j < |s| ==> Before(s[i], s[j])) && (forall i :: 0 <= i < |s| ==> s[i].y < y)
  }

  /** The keys after scanning part of a row: the old ones and the
      symbols met. */
  lemma {:induction false} ScanRowKeys(m: map<char, seq<Position>>, row: seq<char>, y: int, n: nat)
    requires n <= |row|
    ensures forall c :: c in ScanRow(m, row, y, n) <==> c in m || exists x :: 0 <= x < n && row[x] == c && c != Empty
  {
    if n > 0 {
      ScanRowKeys(m, row, y, n - 1);
    }
  }

  /** The groups after scanning part of a row: the old members and the
      cells met. */
  lemma {:induction false} ScanRowMembers(m: map<char, seq<Position>>, row: seq<char>, y: int, n: nat, c: char, p: Position)
    requires n <= |row|
    ensures p in Get(ScanRow(m, row, y, n), c) <==> p in Get(m, c) || (p.y == y && 0 <= p.x < n && row[p.x] == c && c != Empty)
  {
    if n > 0 {
      ScanRowMembers(m, row, y, n - 1, c, p);
    }
  }

  /** Scanning a row keeps every group non-empty and in row-major
      order. */
  lemma {:induction false} ScanRowOrdered(m: map<char, seq<Position>>, row: seq<char>, y: int, n: nat)
    requires n <= |row| && Ordered(m, y)
    ensures forall c :: c in ScanRow(m, row, y, n) ==>
              |ScanRow(m, row, y, n)[c]| > 0 && forall i, j :: 0 <= i < j < |ScanRow(m, row, y, n)[c]| ==> Before(ScanRow(m, row, y, n)[c][i], ScanRow(m, row, y, n)[c][j])
  {
    if n > 0 {
      ScanRowOrdered(m, row, y, n - 1);
      var before := ScanRow(m, row, y, n - 1);
      var c := row[n - 1];
      if c != Empty {
        var s := Get(before, c);
        var p := Position(n - 1, y);
        forall i | 0 <= i < |s| ensures Before(s[i], p) {
          ScanRowMembers(m, row, y, n - 1, c, s[i]);
          assert s[i] in Get(before, c);
          if s[i] in Get(m, c) {
            assert s[i] in m[c];
          }
        }
      }
    }
  }

  /** The groups of the first `k` rows hold exactly the antennas of those
      rows, each group non-empty and in strictly increasing row-major
      order. */
  lemma {:induction false} ScanGridSpec(grid: Grid, k: nat)
    requires k <= |grid|
    ensures Ordered(ScanGrid(grid, k), k)
    ensures forall c, p :: p in Get(ScanGrid(grid, k), c) <==> Antenna(grid, c, p) && p.y < k
    ensures forall c :: c in ScanGrid(grid, k) ==> c != Empty
  {
    ScanGridMembers(grid, k);
    ScanGridOrdered(grid, k);
  }

  lemma {:induction false} ScanGridMembers(grid: Grid, k: nat)
    requires k <= |grid|
    ensures forall c, p :: p in Get(ScanGrid(grid, k), c) <==> Antenna(grid, c, p) && p.y < k
    ensures forall c :: c in ScanGrid(grid, k) ==> c != Empty
  {
    if k > 0 {
      ScanGridMembers(grid, k - 1);
      var m := ScanGrid(grid, k - 1);
      var row := grid[k - 1];
      ScanRowKeys(m, row, k - 1, |row|);
      forall c, p ensures p in Get(ScanGrid(grid, k), c) <==> Antenna(grid, c, p) && p.y < k {
        ScanRowMembers(m, row, k - 1, |row|, c, p);
      }
    }
  }

  lemma {:induction false} ScanGridOrdered(grid: Grid, k: nat)
    requires k <= |grid|
    ensures Ordered(ScanGrid(grid, k), k)
  {
    if k > 0 {
      ScanGridOrdered(grid, k - 1);
      ScanGridMembers(grid, k);
      var m := ScanGrid(grid, k - 1);
      var row := grid[k - 1];
      ScanRowOrdered(m, row, k - 1, |row|);
      var r := ScanGrid(grid, k);
      forall c | c in r ensures |r[c]| > 0 && OrderedList(r[c], k) {
        forall i | 0 <= i < |r[c]| ensures r[c][i].y < k {
          assert r[c][i] in Get(r, c);
        }
      }
    }
  }

  /** What `findAntennaPositions` promises: a symbol is a key exactly when
      some cell holds it; its group lists exactly the cells holding it, with
      `x` the column and `y` the row, each once and in row-major order. */
  lemma AntennaPositions(grid: Grid)
    ensures var m := ScanGrid(grid, |grid|);
            (forall c :: c in m <==> exists p :: Antenna(grid, c, p)) &&
            (forall c, p :: c in m ==> (p in m[c] <==> Antenna(grid, c, p))) &&
            forall c :: c in m ==> forall i, j :: 0 <= i < j < |m[c]| ==> Before(m[c][i], m[c][j])
  {
    ScanGridSpec(grid, |grid|);
    var m := ScanGrid(grid, |grid|);
    forall c | exists p :: Antenna(grid, c, p) ensures c in m {
      var p :| Antenna(grid, c, p);
      assert p in Get(m, c);
    }
    forall c | c in m ensures exists p :: Antenna(grid, c, p) {
      assert m[c][0] in Get(m, c);
    }
  }

  // ---------------------------------------------------------------------
  // The antinodes of a pair

  /** The two antinodes of a pair: one step of the pair's difference
      before the first antenna (`k` = 0) and one after the second. */
  function Antinode(p1: Position, p2: Position, k: nat): Position
  {
    var dx, dy := p2.x - p1.x, p2.y - p1.y;
    if k == 0 then Position(p1.x - dx, p1.y - dy) else Position(p2.x + dx, p2.y + dy)
  }

  /** Part 1's points of a pair: its antinodes that are in bounds. */
  function PairNodes(p1: Position, p2: Position, rowLen: int, colLen: int): set<Position>
  {
    (if In(Antinode(p1, p2, 0), rowLen, colLen) then {Antinode(p1, p2, 0)} else {}) +
    (if In(Antinode(p1, p2, 1), rowLen, colLen) then {Antinode(p1, p2, 1)} else {})
  }

  /** A bound on the steps left before a walk by (dx, dy) from an
      in-bounds point leaves the bounds. */
  function Measure(p: Position, dx: int, dy: int, rowLen: int, colLen: int): int
  {
    if dx > 0 then rowLen - p.x else if dx < 0 then p.x + 1 else if dy > 0 then colLen - p.y else p.y + 1
  }

  /** The points from `p` on, one step of (dx, dy) at a time, up to the
      first one out of bounds. A zero step, for which Go's walk would not
      end, gives no points; no caller makes one. */
  function Ray(p: Position, dx: int, dy: int, rowLen: int, colLen: int): set<Position>
    decreases if In(p, rowLen, colLen) && (dx, dy) != (0, 0) then Measure(p, dx, dy, rowLen, colLen) else 0
  {
    if (dx, dy) == (0, 0) || !In(p, rowLen, colLen) then {}
    else {p} + Ray(Position(p.x + dx, p.y + dy), dx, dy, rowLen, colLen)
  }

  /** Part 2's points of a pair: the walks beyond either antenna. */
  function PairLine(p1: Position, p2: Position, rowLen: int, colLen: int): set<Position>
  {
    var dx, dy := p2.x - p1.x, p2.y - p1.y;
    Ray(Position(p1.x - dx, p1.y - dy), -dx, -dy, rowLen, colLen) + Ray(Position(p2.x + dx, p2.y + dy), dx, dy, rowLen, colLen)
  }

  /** The points a pair adds: part 1's, or with `resonant` part 2's. */
  function PairSet(p1: Position, p2: Position, resonant: bool, rowLen: int, colLen: int): set<Position>
  {
    if resonant then PairLine(p1, p2, rowLen, colLen) else PairNodes(p1, p2, rowLen, colLen)
  }

  /** The points of the pairs (i, j) with i < j < n. */
  function FromFirst(list: seq<Position>, i: nat, n: nat, resonant: bool, rowLen: int, colLen: int): set<Position>
    requires i < |list| && n <= |list|
  {
    if n <= i + 1 then {}
    else FromFirst(list, i, n - 1, resonant, rowLen, colLen) + PairSet(list[i], list[n - 1], resonant, rowLen, colLen)
  }

  /** The points of the pairs whose first index is below `m`. */
  function ListPairs(list: seq<Position>, m: nat, resonant: bool, rowLen: int, colLen: int): set<Position>
    requires m <= |list|
  {
    if m == 0 then {}
    else ListPairs(list, m - 1, resonant, rowLen, colLen) + FromFirst(list, m - 1, |list|, resonant, rowLen, colLen)
  }

  /** The points of the pairs of the listed symbols' groups. */
  function KeysPairs(locations: map<char, seq<Position>>, keys: seq<char>, resonant: bool, rowLen: int, colLen: int): set<Position>
    requires forall c :: c in keys ==> c in locations
  {
    if |keys| == 0 then {}
    else
      var c := keys[|keys| - 1];
      KeysPairs(locations, keys[..|keys| - 1], resonant, rowLen, colLen) + ListPairs(locations[c], |locations[c]|, resonant, rowLen, colLen)
  }

  /** The antennas of the listed symbols. */
  function KeysAntennas(locations: map<char, seq<Position>>, keys: seq<char>): set<Position>
    requires forall c :: c in keys ==> c in locations
  {
    if |keys| == 0 then {}
    else KeysAntennas(locations, keys[..|keys| - 1]) + Members(locations[keys[|keys| - 1]])
  }

  /** The positions a group lists. */
  function Members(list: seq<Position>): set<Position>
  {
    set p | p in list
  }

  /** Every antenna of every group. */
  ghost function AntennaSet(locations: map<char, seq<Position>>): set<Position>
  {
    set c, p | c in locations && p in locations[c] :: p
  }

  /** The points every same-symbol pair adds, whatever order the groups
      and pairs are visited in. */
  ghost function PairsSet(locations: map<char, seq<Position>>, resonant: bool, rowLen: int, colLen: int): set<Position>
  {
    set c, i, j, p | c in locations && 0 <= i < j < |locations[c]| &&
                     p in PairSet(locations[c][i], locations[c][j], resonant, rowLen, colLen) :: p
  }

  /** Part 1's set: the in-bounds antinodes of every same-symbol pair. */
  ghost function Part1Set(locations: map<char, seq<Position>>, rowLen: int, colLen: int): set<Position>
  {
    PairsSet(locations, false, rowLen, colLen)
  }

  /** Part 2's set: every antenna, and the walks beyond the antennas of
      every same-symbol pair. */
  ghost function Part2Set(locations: map<char, seq<Position>>, rowLen: int, colLen: int): set<Position>
  {
    AntennaSet(locations) + PairsSet(locations, true, rowLen, colLen)
  }

  lemma {:induction false} FromFirstMembers(list: seq<Position>, i: nat, n: nat, resonant: bool, rowLen: int, colLen: int, p: Position)
    requires i < |list| && n <= |list|
    ensures p in FromFirst(list, i, n, resonant, rowLen, colLen) <==>
            exists j :: i < j < n && p in PairSet(list[i], list[j], resonant, rowLen, colLen)
  {
    if n > i + 1 {
      FromFirstMembers(list, i, n - 1, resonant, rowLen, colLen, p);
    }
  }

  lemma {:induction false} ListPairsMembers(list: seq<Position>, m: nat, resonant: bool, rowLen: int, colLen: int, p: Position)
    requires m <= |list|
    ensures p in ListPairs(list, m, resonant, rowLen, colLen) <==>
            exists i, j :: 0 <= i < m && i < j < |list| && p in PairSet(list[i], list[j], resonant, rowLen, colLen)
  {
    if m > 0 {
      ListPairsMembers(list, m - 1, resonant, rowLen, colLen, p);
      FromFirstMembers(list, m - 1, |list|, resonant, rowLen, colLen, p);
      if p in FromFirst(list, m - 1, |list|, resonant, rowLen, colLen) {
        var j :| m - 1 < j < |list| && p in PairSet(list[m - 1], list[j], resonant, rowLen, colLen);
        assert 0 <= m - 1 < m;
      }
      if exists i, j :: 0 <= i < m && i < j < |list| && p in PairSet(list[i], list[j], resonant, rowLen, colLen) {
        var i, j :| 0 <= i < m && i < j < |list| && p in PairSet(list[i], list[j], resonant, rowLen, colLen);
        if i == m - 1 {
          assert p in FromFirst(list, m - 1, |list|, resonant, rowLen, colLen);
        } else {
          assert p in ListPairs(list, m - 1, resonant, rowLen, colLen);
        }
      }
    }
  }

  lemma {:induction false} KeysPairsMembers(locations: map<char, seq<Position>>, keys: seq<char>, resonant: bool, rowLen: int, colLen: int, p: Position)
    requires forall c :: c in keys ==> c in locations
    ensures p in KeysPairs(locations, keys, resonant, rowLen, colLen) <==>
            exists c :: c in keys && p in ListPairs(locations[c], |locations[c]|, resonant, rowLen, colLen)
  {
    if |keys| > 0 {
      var n := |keys| - 1;
      assert forall c :: c in keys[..n] ==> c in keys;
      assert forall c :: c in keys ==> c in keys[..n] || c == keys[n];
      KeysPairsMembers(locations, keys[..n], resonant, rowLen, colLen, p);
    }
  }

  lemma {:induction false} KeysAntennasMembers(locations: map<char, seq<Position>>, keys: seq<char>, p: Position)
    requires forall c :: c in keys ==> c in locations
    ensures p in KeysAntennas(locations, keys) <==> exists c :: c in keys && p in locations[c]
  {
    if |keys| > 0 {
      var n := |keys| - 1;
      assert forall c :: c in keys[..n] ==> c in keys;
      assert forall c :: c in keys ==> c in keys[..n] || c == keys[n];
      KeysAntennasMembers(locations, keys[..n], p);
    }
  }

  /** Visiting the groups in any order that lists every symbol adds the
      same points. */
  lemma KeysPairsAnyOrder(locations: map<char, seq<Position>>, keys: seq<char>, resonant: bool, rowLen: int, colLen: int)
    requires forall c :: c in keys <==> c in locations
    ensures KeysPairs(locations, keys, resonant, rowLen, colLen) == PairsSet(locations, resonant, rowLen, colLen)
  {
    forall p | p in KeysPairs(locations, keys, resonant, rowLen, colLen)
      ensures p in PairsSet(locations, resonant, rowLen, colLen)
    {
      KeysPairsMembers(locations, keys, resonant, rowLen, colLen, p);
      var c :| c in keys && p in ListPairs(locations[c], |locations[c]|, resonant, rowLen, colLen);
      ListPairsMembers(locations[c], |locations[c]|, resonant, rowLen, colLen, p);
    }
    forall p | p in PairsSet(locations, resonant, rowLen, colLen)
      ensures p in KeysPairs(locations, keys, resonant, rowLen, colLen)
    {
      var c, i, j :| c in locations && 0 <= i < j < |locations[c]| &&
                     p in PairSet(locations[c][i], locations[c][j], resonant, rowLen, colLen);
      ListPairsMembers(locations[c], |locations[c]|, resonant, rowLen, colLen, p);
      KeysPairsMembers(locations, keys, resonant, rowLen, colLen, p);
    }
  }

  lemma KeysAntennasAnyOrder(locations: map<char, seq<Position>>, keys: seq<char>)
    requires forall c :: c in keys <==> c in locations
    ensures KeysAntennas(locations, keys) == AntennaSet(locations)
  {
    forall p ensures p in KeysAntennas(locations, keys) <==> exists c :: c in locations && p in locations[c] {
      KeysAntennasMembers(locations, keys, p);
    }
  }

  // ---------------------------------------------------------------------
  // part1

  /** The body of `part1`'s `j` loop: the pair's antinodes that are in
      bounds added to the set. */
  method AddPair(antinodes: HashSetUtil.HashSet<Position>, p1: Position, p2: Position, rowLen: int, colLen: int)
    modifies antinodes
    ensures antinodes.data == old(antinodes.data) + PairNodes(p1, p2, rowLen, colLen)
  {
    var x1, y1 := p1.x, p1.y;
    var x2, y2 := p2.x, p2.y;
    var dx, dy := x2 - x1, y2 - y1;
    var antinode1 := Position(x1 - dx, y1 - dy);
    var antinode2 := Position(x2 + dx, y2 + dy);
    assert antinode1 == Antinode(p1, p2, 0) && antinode2 == Antinode(p1, p2, 1);
    if WithInBounds(antinode1.x, antinode1.y, rowLen, colLen) {
      antinodes.Add(antinode1);
    }
    if WithInBounds(antinode2.x, antinode2.y, rowLen, colLen) {
      antinodes.Add(antinode2);
    }
  }

  /** The `j` loop of `part1` for one antenna. */
  method AddFromFirst(antinodes: HashSetUtil.HashSet<Position>, positions: seq<Position>, i: nat, rowLen: int, colLen: int)
    requires i < |positions|
    modifies antinodes
    ensures antinodes.data == old(antinodes.data) + FromFirst(positions, i, |positions|, false, rowLen, colLen)
  {
    for j := i + 1 to |positions|
      invariant antinodes.data == old(antinodes.data) + FromFirst(positions, i, j, false, rowLen, colLen)
    {
      AddPair(antinodes, positions[i], positions[j], rowLen, colLen);
      assert FromFirst(positions, i, j + 1, false, rowLen, colLen) ==
             FromFirst(positions, i, j, false, rowLen, colLen) + PairSet(positions[i], positions[j], false, rowLen, colLen);
    }
  }

  /** The `i` loop of `part1` for one symbol's group. */
  method AddPairs(antinodes: HashSetUtil.HashSet<Position>, positions: seq<Position>, rowLen: int, colLen: int)
    modifies antinodes
    ensures antinodes.data == old(antinodes.data) + ListPairs(positions, |positions|, false, rowLen, colLen)
  {
    for i := 0 to |positions|
      invariant antinodes.data == old(antinodes.data) + ListPairs(positions, i, false, rowLen, colLen)
    {
      AddFromFirst(antinodes, positions, i, rowLen, colLen);
    }
  }

  /** The bounds `part1` and `part2` pass to `withInBounds`: the number of
      rows, then the length of the first row. Go reads `grid[0]` only once
      a pair exists, so an empty grid does not panic. */
  function GoBounds(grid: Grid): (int, int)
  {
    (|grid|, if |grid| == 0 then 0 else |grid[0]|)
  }

  /** `part1` with the bounds it passes to `withInBounds`: the size of the
      set of the in-bounds antinodes of every same-symbol pair. The groups
      are visited in an arbitrary order, as Go ranges over a map. */
  method Part1With(locations: map<char, seq<Position>>, rowLen: int, colLen: int) returns (count: nat)
    ensures count == |Part1Set(locations, rowLen, colLen)|
  {
    var antinodeLocations := new HashSetUtil.HashSet<Position>();
    var keys := HashSetUtil.Elements(locations.Keys);
    for k := 0 to |keys|
      invariant antinodeLocations.data == KeysPairs(locations, keys[..k], false, rowLen, colLen)
    {
      assert keys[..k + 1][..k] == keys[..k];
      AddPairs(antinodeLocations, locations[keys[k]], rowLen, colLen);
    }
    assert keys[..|keys|] == keys;
    KeysPairsAnyOrder(locations, keys, false, rowLen, colLen);
    count := antinodeLocations.Size();
  }

  /** `part1` as written. */
  method Part1(grid: Grid, locations: map<char, seq<Position>>) returns (count: nat)
    ensures count == |Part1Set(locations, GoBounds(grid).0, GoBounds(grid).1)|
  {
    var (rowLen, colLen) := GoBounds(grid);
    count := Part1With(locations, rowLen, colLen);
  }

  /** `p` is an antinode of some same-symbol pair. */
  ghost predicate IsAntinode(locations: map<char, seq<Position>>, p: Position)
  {
    exists c, i, j, k :: c in locations && 0 <= i < j < |locations[c]| && 0 <= k < 2 &&
                         p == Antinode(locations[c][i], locations[c][j], k)
  }

  /** What part 1 counts: the in-bounds points that are an antinode of
      some same-symbol pair, each once. */
  lemma Part1Members(locations: map<char, seq<Position>>, rowLen: int, colLen: int, p: Position)
    ensures p in Part1Set(locations, rowLen, colLen) <==> In(p, rowLen, colLen) && IsAntinode(locations, p)
  {
    if In(p, rowLen, colLen) && IsAntinode(locations, p) {
      var c, i, j, k :| c in locations && 0 <= i < j < |locations[c]| && 0 <= k < 2 &&
                        p == Antinode(locations[c][i], locations[c][j], k);
      assert p in PairSet(locations[c][i], locations[c][j], false, rowLen, colLen);
    }
  }

  /** Each antinode of part 1 is in line with its pair, twice as far from
      one antenna as from the other. */
  lemma AntinodeTwiceAsFar(p1: Position, p2: Position)
    ensures var a := Antinode(p1, p2, 0);
            p2.x - a.x == 2 * (p1.x - a.x) && p2.y - a.y == 2 * (p1.y - a.y)
    ensures var b := Antinode(p1, p2, 1);
            b.x - p1.x == 2 * (b.x - p2.x) && b.y - p1.y == 2 * (b.y - p2.y)
  {
  }

  // ---------------------------------------------------------------------
  // part2

  /** `expandAntidote`: every point one, two, ... steps from the start, up
      to the first one out of bounds, added to the set. Go's loop never
      ends for a zero step inside the bounds; the pairs `part2` passes are
      of distinct antennas. */
  method ExpandAntidote(locations: HashSetUtil.HashSet<Position>, startX: int, startY: int, dx: int, dy: int, rowLen: int, colLen: int)
    requires (dx, dy) != (0, 0)
    modifies locations
    ensures locations.data == old(locations.data) + Ray(Position(startX + dx, startY + dy), dx, dy, rowLen, colLen)
  {
    var x, y := startX + dx, startY + dy;
    while WithInBounds(x, y, rowLen, colLen)
      invariant locations.data + Ray(Position(x, y), dx, dy, rowLen, colLen)
                == old(locations.data) + Ray(Position(startX + dx, startY + dy), dx, dy, rowLen, colLen)
      decreases Measure(Position(x, y), dx, dy, rowLen, colLen)
    {
      if !locations.Contains(Position(x, y)) {
        locations.Add(Position(x, y));
      }
      x, y := x + dx, y + dy;
    }
  }

  /** A group lists distinct positions. */
  predicate Distinct(list: seq<Position>)
  {
    forall i, j :: 0 <= i < j < |list| ==> list[i] != list[j]
  }

  predicate AllDistinct(locations: map<char, seq<Position>>)
  {
    forall c :: c in locations ==> Distinct(locations[c])
  }

  /** The body of `part2`'s `j` loop: the walks beyond either antenna
      of a pair of distinct antennas added to the set. */
  method AddLine(antinodes: HashSetUtil.HashSet<Position>, p1: Position, p2: Position, rowLen: int, colLen: int)
    requires p1 != p2
    modifies antinodes
    ensures antinodes.data == old(antinodes.data) + PairLine(p1, p2, rowLen, colLen)
  {
    var x1, y1 := p1.x, p1.y;
    var x2, y2 := p2.x, p2.y;
    var dx, dy := x2 - x1, y2 - y1;
    ExpandAntidote(antinodes, x1, y1, -dx, -dy, rowLen, colLen);
    ExpandAntidote(antinodes, x2, y2, dx, dy, rowLen, colLen);
  }

  /** The `j` loop of `part2` for one antenna. */
  method LinesFromFirst(antinodes: HashSetUtil.HashSet<Position>, positions: seq<Position>, i: nat, rowLen: int, colLen: int)
    requires i < |positions| && Distinct(positions)
    modifies antinodes
    ensures antinodes.data == old(antinodes.data) + FromFirst(positions, i, |positions|, true, rowLen, colLen)
  {
    for j := i + 1 to |positions|
      invariant antinodes.data == old(antinodes.data) + FromFirst(positions, i, j, true, rowLen, colLen)
    {
      AddLine(antinodes, positions[i], positions[j], rowLen, colLen);
      assert FromFirst(positions, i, j + 1, true, rowLen, colLen) ==
             FromFirst(positions, i, j, true, rowLen, colLen) + PairSet(positions[i], positions[j], true, rowLen, colLen);
    }
  }

  /** The `i` loop of `part2` for one symbol's group. */
  method AddLines(antinodes: HashSetUtil.HashSet<Position>, positions: seq<Position>, rowLen: int, colLen: int)
    requires Distinct(positions)
    modifies antinodes
    ensures antinodes.data == old(antinodes.data) + ListPairs(positions, |positions|, true, rowLen, colLen)
  {
    for i := 0 to |positions|
      invariant antinodes.data == old(antinodes.data) + ListPairs(positions, i, true, rowLen, colLen)
    {
      LinesFromFirst(antinodes, positions, i, rowLen, colLen);
    }
  }

  /** The inner first loop of `part2`: every antenna of a group. */
  method AddGroup(antinodes: HashSetUtil.HashSet<Position>, positions: seq<Position>)
    modifies antinodes
    ensures antinodes.data == old(antinodes.data) + Members(positions)
  {
    for a := 0 to |positions|
      invariant antinodes.data == old(antinodes.data) + Members(positions[..a])
    {
      assert forall p :: p in positions[..a + 1] <==> p in positions[..a] || p == positions[a];
      antinodes.Add(positions[a]);
    }
    assert positions[..|positions|] == positions;
  }

  /** The first loop of `part2`: every antenna of every group. */
  method AddAntennas(antinodes: HashSetUtil.HashSet<Position>, locations: map<char, seq<Position>>, keys: seq<char>)
    requires forall c :: c in keys ==> c in locations
    modifies antinodes
    ensures antinodes.data == old(antinodes.data) + KeysAntennas(locations, keys)
  {
    for k := 0 to |keys|
      invariant antinodes.data == old(antinodes.data) + KeysAntennas(locations, keys[..k])
    {
      assert keys[..k + 1][..k] == keys[..k];
      AddGroup(antinodes, locations[keys[k]]);
    }
    assert keys[..|keys|] == keys;
  }

  /** The second loop of `part2`: the walks of every pair of every
      group. */
  method AddAllLines(antinodes: HashSetUtil.HashSet<Position>, locations: map<char, seq<Position>>, keys: seq<char>, rowLen: int, colLen: int)
    requires AllDistinct(locations) && forall c :: c in keys ==> c in locations
    modifies antinodes
    ensures antinodes.data == old(antinodes.data) + KeysPairs(locations, keys, true, rowLen, colLen)
  {
    for k := 0 to |keys|
      invariant antinodes.data == old(antinodes.data) + KeysPairs(locations, keys[..k], true, rowLen, colLen)
    {
      assert keys[..k + 1][..k] == keys[..k];
      AddLines(antinodes, locations[keys[k]], rowLen, colLen);
    }
    assert keys[..|keys|] == keys;
  }

  /** `part2` with the bounds it passes to `withInBounds`: the size of the
      set of every antenna and every point of the walks beyond the antennas
      of every same-symbol pair. Each group lists distinct antennas, as
      `findAntennaPositions` gives them. */
  method Part2With(locations: map<char, seq<Position>>, rowLen: int, colLen: int) returns (count: nat)
    requires AllDistinct(locations)
    ensures count == |Part2Set(locations, rowLen, colLen)|
  {
    var antinodeLocations := new HashSetUtil.HashSet<Position>();
    var keys := HashSetUtil.Elements(locations.Keys);
    AddAntennas(antinodeLocations, locations, keys);
    KeysAntennasAnyOrder(locations, keys);
    ghost var antennas := antinodeLocations.data;
    assert antennas == AntennaSet(locations);
    keys := HashSetUtil.Elements(locations.Keys);
    AddAllLines(antinodeLocations, locations, keys, rowLen, colLen);
    KeysPairsAnyOrder(locations, keys, true, rowLen, colLen);
    assert antinodeLocations.data == antennas + PairsSet(locations, true, rowLen, colLen);
    count := antinodeLocations.Size();
  }

  /** `part2` as written. */
  method Part2(grid: Grid, locations: map<char, seq<Position>>) returns (count: nat)
    requires AllDistinct(locations)
    ensures count == |Part2Set(locations, GoBounds(grid).0, GoBounds(grid).1)|
  {
    var (rowLen, colLen) := GoBounds(grid);
    count := Part2With(locations, rowLen, colLen);
  }

  /** The point `k` steps of (dx, dy) from `p`. */
  function Step(p: Position, dx: int, dy: int, k: int): Position
  {
    Position(p.x + k * dx, p.y + k * dy)
  }

  lemma StepShift(p: Position, dx: int, dy: int, k: int)
    ensures Step(Position(p.x + dx, p.y + dy), dx, dy, k) == Step(p, dx, dy, k + 1)
  {
    assert (k + 1) * dx == k * dx + dx && (k + 1) * dy == k * dy + dy;
  }

  lemma StepNeg(p: Position, dx: int, dy: int, k: int)
    ensures Step(p, -dx, -dy, -k) == Step(p, dx, dy, k)
  {
    assert -k * -dx == k * dx && -k * -dy == k * dy;
  }

  /** The rectangle is convex: a step from an in-bounds point toward an
      in-bounds point further along stays in bounds. */
  lemma Between(p: Position, dx: int, dy: int, k: nat, rowLen: int, colLen: int)
    requires k >= 1 && In(p, rowLen, colLen) && In(Step(p, dx, dy, k), rowLen, colLen)
    ensures In(Position(p.x + dx, p.y + dy), rowLen, colLen)
  {
    assert k * dx == (k - 1) * dx + dx && k * dy == (k - 1) * dy + dy;
    if dx >= 0 {
      assert (k - 1) * dx >= 0;
    } else {
      assert (k - 1) * dx <= 0;
    }
    if dy >= 0 {
      assert (k - 1) * dy >= 0;
    } else {
      assert (k - 1) * dy <= 0;
    }
  }

  /** A walk stops at the first point out of bounds and misses nothing:
      the bounds are a rectangle, so its points are exactly the in-bounds
      points a whole number of steps on, when the start is in bounds. */
  lemma {:induction false} RayMembers(p: Position, dx: int, dy: int, rowLen: int, colLen: int, q: Position)
    requires (dx, dy) != (0, 0)
    ensures q in Ray(p, dx, dy, rowLen, colLen) <==>
            In(p, rowLen, colLen) && In(q, rowLen, colLen) && exists k: nat :: q == Step(p, dx, dy, k)
    decreases if In(p, rowLen, colLen) then Measure(p, dx, dy, rowLen, colLen) else 0
  {
    if In(p, rowLen, colLen) {
      var next := Position(p.x + dx, p.y + dy);
      RayMembers(next, dx, dy, rowLen, colLen, q);
      if q in Ray(p, dx, dy, rowLen, colLen) && q != p {
        var k: nat :| q == Step(next, dx, dy, k);
        StepShift(p, dx, dy, k);
      }
      if q == p {
        assert q == Step(p, dx, dy, 0);
      }
      if In(q, rowLen, colLen) && (exists k: nat :: q == Step(p, dx, dy, k)) && q != p {
        var k: nat :| q == Step(p, dx, dy, k);
        assert k != 0;
        var n: nat := k - 1;
        StepShift(p, dx, dy, n);
        Between(p, dx, dy, k, rowLen, colLen);
        assert q == Step(next, dx, dy, n);
      }
    }
  }

  /** The point `k` antenna-to-antenna steps from the first antenna. */
  function Multiple(p1: Position, p2: Position, k: int): Position
  {
    Step(p1, p2.x - p1.x, p2.y - p1.y, k)
  }

  /** Every point of a pair's walks is in bounds and a whole number of
      steps from the first antenna. */
  lemma PairLineSound(p1: Position, p2: Position, rowLen: int, colLen: int, q: Position)
    requires p1 != p2 && q in PairLine(p1, p2, rowLen, colLen)
    ensures In(q, rowLen, colLen) && exists k: int :: q == Multiple(p1, p2, k)
  {
    var dx, dy := p2.x - p1.x, p2.y - p1.y;
    var back := Position(p1.x + -dx, p1.y + -dy);
    var ahead := Position(p2.x + dx, p2.y + dy);
    assert p2 == Position(p1.x + dx, p1.y + dy);
    RayMembers(back, -dx, -dy, rowLen, colLen, q);
    RayMembers(ahead, dx, dy, rowLen, colLen, q);
    if q in Ray(back, -dx, -dy, rowLen, colLen) {
      var k: nat :| q == Step(back, -dx, -dy, k);
      StepShift(p1, -dx, -dy, k);
      StepNeg(p1, dx, dy, -(k + 1));
      assert q == Multiple(p1, p2, -(k + 1));
    } else {
      var k: nat :| q == Step(ahead, dx, dy, k);
      StepShift(p2, dx, dy, k);
      StepShift(p1, dx, dy, k + 1);
      assert q == Multiple(p1, p2, k + 2);
    }
  }

  /** The walk beyond the first antenna reaches every in-bounds point a
      negative number of steps from it. */
  lemma BackComplete(p1: Position, p2: Position, rowLen: int, colLen: int, q: Position, k: int)
    requires p1 != p2 && In(p1, rowLen, colLen)
    requires In(q, rowLen, colLen) && q == Multiple(p1, p2, k) && k <= -1
    ensures q in PairLine(p1, p2, rowLen, colLen)
  {
    var dx, dy := p2.x - p1.x, p2.y - p1.y;
    var back := Position(p1.x + -dx, p1.y + -dy);
    var n: nat := -k - 1;
    StepNeg(p1, dx, dy, k);
    StepShift(p1, -dx, -dy, n);
    assert q == Step(back, -dx, -dy, n);
    if n >= 1 {
      Between(p1, -dx, -dy, n + 1, rowLen, colLen);
    }
    RayMembers(back, -dx, -dy, rowLen, colLen, q);
    assert back == Position(p1.x - dx, p1.y - dy);
  }

  /** The walk beyond the second antenna reaches every in-bounds point
      two or more steps from the first. */
  lemma AheadComplete(p1: Position, p2: Position, rowLen: int, colLen: int, q: Position, k: int)
    requires p1 != p2 && In(p2, rowLen, colLen)
    requires In(q, rowLen, colLen) && q == Multiple(p1, p2, k) && k >= 2
    ensures q in PairLine(p1, p2, rowLen, colLen)
  {
    var dx, dy := p2.x - p1.x, p2.y - p1.y;
    var ahead := Position(p2.x + dx, p2.y + dy);
    assert p2 == Position(p1.x + dx, p1.y + dy);
    var n: nat := k - 2;
    StepShift(p1, dx, dy, n + 1);
    StepShift(p2, dx, dy, n);
    assert q == Step(ahead, dx, dy, n);
    if n >= 1 {
      Between(p2, dx, dy, n + 1, rowLen, colLen);
    }
    RayMembers(ahead, dx, dy, rowLen, colLen, q);
  }

  /** When both antennas are in bounds, the walks reach every in-bounds
      point a whole number of steps from the first antenna, other than the
      antennas themselves. */
  lemma PairLineComplete(p1: Position, p2: Position, rowLen: int, colLen: int, q: Position, k: int)
    requires p1 != p2 && In(p1, rowLen, colLen) && In(p2, rowLen, colLen)
    requires In(q, rowLen, colLen) && q == Multiple(p1, p2, k) && q != p1 && q != p2
    ensures q in PairLine(p1, p2, rowLen, colLen)
  {
    if k <= -1 {
      BackComplete(p1, p2, rowLen, colLen, q, k);
    } else if k >= 2 {
      AheadComplete(p1, p2, rowLen, colLen, q, k);
    } else {
      assert false;
    }
  }

  /** `p` is an antenna. */
  ghost predicate IsAntenna(locations: map<char, seq<Position>>, p: Position)
  {
    exists c :: c in locations && p in locations[c]
  }

  /** `p` is a whole number of antenna-to-antenna steps from the first
      antenna of some same-symbol pair. */
  ghost predicate Resonant(locations: map<char, seq<Position>>, p: Position)
  {
    exists c, i, j, k :: c in locations && 0 <= i < j < |locations[c]| && p == Multiple(locations[c][i], locations[c][j], k)
  }

  /** All antennas lie within the bounds. */
  predicate AntennasIn(locations: map<char, seq<Position>>, rowLen: int, colLen: int)
  {
    forall c, i :: c in locations && 0 <= i < |locations[c]| ==> In(locations[c][i], rowLen, colLen)
  }

  /** What part 2 counts when the antennas are in bounds: the antennas
      and every in-bounds point in line with a same-symbol pair at a whole
      number of antenna-to-antenna steps, each once. */
  lemma Part2Members(locations: map<char, seq<Position>>, rowLen: int, colLen: int, p: Position)
    requires AllDistinct(locations) && AntennasIn(locations, rowLen, colLen)
    ensures p in Part2Set(locations, rowLen, colLen) <==>
            IsAntenna(locations, p) || (In(p, rowLen, colLen) && Resonant(locations, p))
  {
    if p in PairsSet(locations, true, rowLen, colLen) {
      var c, i, j :| c in locations && 0 <= i < j < |locations[c]| &&
                     p in PairSet(locations[c][i], locations[c][j], true, rowLen, colLen);
      PairLineSound(locations[c][i], locations[c][j], rowLen, colLen, p);
    }
    if In(p, rowLen, colLen) && Resonant(locations, p) && !IsAntenna(locations, p) {
      var c, i, j, k :| c in locations && 0 <= i < j < |locations[c]| && p == Multiple(locations[c][i], locations[c][j], k);
      assert locations[c][i] in locations[c] && locations[c][j] in locations[c];
      PairLineComplete(locations[c][i], locations[c][j], rowLen, colLen, p, k);
      assert p in PairSet(locations[c][i], locations[c][j], true, rowLen, colLen);
    }
  }

  // ---------------------------------------------------------------------
  // Bounds and main

  /** Every row as long as the first. */
  predicate Rectangular(grid: Grid)
  {
    forall r :: 0 <= r < |grid| ==> |grid[r]| == |grid[0]|
  }

  /** The point is a cell of the grid. */
  predicate OnGrid(grid: Grid, p: Position)
  {
    0 <= p.y < |grid| && 0 <= p.x < |grid[p.y]|
  }

  /** The bounds the right way round: column `x` below the row length,
      row `y` below the number of rows. */
  function GridBounds(grid: Grid): (int, int)
  {
    (if |grid| == 0 then 0 else |grid[0]|, |grid|)
  }

  /** The corrected bounds are exactly the grid's cells. */
  lemma GridBoundsOnGrid(grid: Grid, p: Position)
    requires Rectangular(grid)
    ensures In(p, GridBounds(grid).0, GridBounds(grid).1) <==> OnGrid(grid, p)
  {
  }

  /** As written, `withInBounds` receives the number of rows as the bound
      on the column: on a grid of two rows of four cells, the antinode in
      column 2 of the first row is a cell of the grid but is dropped. */
  lemma TransposedBoundsMiss()
    ensures var grid: Grid := ["aa..", "...."];
            var locations := ScanGrid(grid, |grid|);
            locations == map['a' := [Position(0, 0), Position(1, 0)]] &&
            OnGrid(grid, Position(2, 0)) && IsAntinode(locations, Position(2, 0)) &&
            Position(2, 0) !in Part1Set(locations, GoBounds(grid).0, GoBounds(grid).1) &&
            Position(2, 0) in Part1Set(locations, GridBounds(grid).0, GridBounds(grid).1)
  {
    var grid: Grid := ["aa..", "...."];
    var locations := map['a' := [Position(0, 0), Position(1, 0)]];
    ExampleGroups();
    assert Position(2, 0) == Antinode(locations['a'][0], locations['a'][1], 1);
    Part1Members(locations, 2, 4, Position(2, 0));
    Part1Members(locations, 4, 2, Position(2, 0));
  }

  /** The groups of the two-row example grid: one symbol, two antennas in
      the first row. */
  lemma ExampleGroups()
    ensures ScanGrid(["aa..", "...."], 2) == map['a' := [Position(0, 0), Position(1, 0)]]
  {
    var grid: Grid := ["aa..", "...."];
    var row := grid[0];
    assert row[0] == 'a' && row[1] == 'a' && row[2] == Empty && row[3] == Empty;
    var one := map['a' := [Position(0, 0)]];
    var locations := map['a' := [Position(0, 0), Position(1, 0)]];
    assert ScanRow(map[], row, 0, 0) == map[];
    assert ScanRow(map[], row, 0, 1) == map[][ 'a' := [] + [Position(0, 0)]];
    assert [] + [Position(0, 0)] == [Position(0, 0)];
    assert ScanRow(map[], row, 0, 1) == one;
    assert ScanRow(map[], row, 0, 2) == one['a' := one['a'] + [Position(1, 0)]];
    assert one['a'] + [Position(1, 0)] == [Position(0, 0), Position(1, 0)];
    assert ScanRow(map[], row, 0, 2) == locations;
    assert ScanRow(map[], grid[0], 0, 4) == locations;
    assert ScanRow(locations, grid[1], 1, 4) == locations;
    assert ScanGrid(grid, 1) == locations;
  }

  /** The groups `findAntennaPositions` builds list distinct antennas,
      each a cell of the grid. */
  lemma GroupsOnGrid(grid: Grid)
    ensures AllDistinct(ScanGrid(grid, |grid|))
    ensures forall c, i :: c in ScanGrid(grid, |grid|) && 0 <= i < |ScanGrid(grid, |grid|)[c]| ==>
                           OnGrid(grid, ScanGrid(grid, |grid|)[c][i])
  {
    ScanGridSpec(grid, |grid|);
    var m := ScanGrid(grid, |grid|);
    forall c | c in m ensures Distinct(m[c]) {
      assert OrderedList(m[c], |grid|);
    }
    forall c, i | c in m && 0 <= i < |m[c]| ensures OnGrid(grid, m[c][i]) {
      assert m[c][i] in Get(m, c);
    }
  }

  /** `main` with the bounds the right way round, on a grid whose rows
      are all as long as the first: part 1 counts the grid cells that are
      an antinode of some same-symbol pair, part 2 the antennas and the
      grid cells a whole number of antenna-to-antenna steps from the first
      antenna of such a pair. */
  method SolveOnGrid(grid: Grid) returns (answers: (nat, nat))
    requires Rectangular(grid)
    ensures AllDistinct(ScanGrid(grid, |grid|))
    ensures answers.0 == |Part1Set(ScanGrid(grid, |grid|), GridBounds(grid).0, GridBounds(grid).1)|
    ensures answers.1 == |Part2Set(ScanGrid(grid, |grid|), GridBounds(grid).0, GridBounds(grid).1)|
  {
    var locations := FindAntennaPositions(grid);
    GroupsOnGrid(grid);
    var (rowLen, colLen) := GridBounds(grid);
    var part1 := Part1With(locations, rowLen, colLen);
    var part2 := Part2With(locations, rowLen, colLen);
    answers := (part1, part2);
  }

  /** What the corrected program counts, point by point. */
  lemma OnGridMembers(grid: Grid, p: Position)
    requires Rectangular(grid)
    ensures AllDistinct(ScanGrid(grid, |grid|))
    ensures var m := ScanGrid(grid, |grid|);
            p in Part1Set(m, GridBounds(grid).0, GridBounds(grid).1) <==> OnGrid(grid, p) && IsAntinode(m, p)
    ensures var m := ScanGrid(grid, |grid|);
            p in Part2Set(m, GridBounds(grid).0, GridBounds(grid).1) <==>
            IsAntenna(m, p) || (OnGrid(grid, p) && Resonant(m, p))
  {
    var m := ScanGrid(grid, |grid|);
    var (rowLen, colLen) := GridBounds(grid);
    GroupsOnGrid(grid);
    GridBoundsOnGrid(grid, p);
    forall c, i | c in m && 0 <= i < |m[c]| ensures In(m[c][i], rowLen, colLen) {
      GridBoundsOnGrid(grid, m[c][i]);
    }
    Part1Members(m, rowLen, colLen, p);
    Part2Members(m, rowLen, colLen, p);
  }

  /** `main` as written: the groups of the grid's antennas, then both
      parts with the bounds Go passes. */
  method Solve(grid: Grid) returns (answers: (nat, nat))
    ensures AllDistinct(ScanGrid(grid, |grid|))
    ensures answers == (|Part1Set(ScanGrid(grid, |grid|), GoBounds(grid).0, GoBounds(grid).1)|,
                        |Part2Set(ScanGrid(grid, |grid|), GoBounds(grid).0, GoBounds(grid).1)|)
  {
    var antennaPositions := FindAntennaPositions(grid);
    GroupsOnGrid(grid);
    var part1 := Part1(grid, antennaPositions);
    var part2 := Part2(grid, antennaPositions);
    answers := (part1, part2);
  }
}
