/** Day 25: locks and keys read from schematics of '#' and '.', and the
    lock/key pairs whose pin heights do not overlap. */
module Day25 {
  import opened Wrappers
  import opened Text

  /** The top row that marks a schematic as a lock. */
  const LockTop := "#####"

  /** The room in a column: a lock and a key fit when their heights add
      up to at most this. */
  const Space := 5

  // ---------------------------------------------------------------------
  // canUnlock

  /** Whether the key fits the lock: every column of the lock has room for
      the key's pin. Go indexes `key[i]` for every column of the lock, so a
      shorter key panics unless an earlier column already overlapped. */
  function Fits(lock: seq<int>, key: seq<int>): Option<bool>
  {
    if |key| >= |lock| then Some(forall i :: 0 <= i < |lock| ==> lock[i] + key[i] <= Space)
    else if forall i :: 0 <= i < |key| ==> lock[i] + key[i] <= Space then None
    else Some(false)
  }

  /** `canUnlock`: the columns in turn, stopping at the first overlap. */
  method CanUnlock(lock: seq<int>, key: seq<int>) returns (r: Option<bool>)
    ensures r == Fits(lock, key)
  {
    for i := 0 to |lock|
      invariant i <= |key| || i == 0
      invariant forall j :: 0 <= j < i ==> lock[j] + key[j] <= Space
    {
      if i >= |key| {
        return None;
      }
      if lock[i] + key[i] > Space {
        return Some(false);
      }
    }
    return Some(true);
  }

  // ---------------------------------------------------------------------
  // part1

  /** The number of keys that fit the lock; None when a check panics. */
  function FitCount(lock: seq<int>, keys: seq<seq<int>>): (r: Option<nat>)
    ensures r.Some? ==> r.value <= |keys|
  {
    if |keys| == 0 then Some(0)
    else
      match (FitCount(lock, keys[..|keys| - 1]), Fits(lock, keys[|keys| - 1]))
      case (Some(n), Some(fit)) => Some(n + if fit then 1 else 0)
      case _ => None
  }

  /** The number of fitting (lock, key) pairs; None when a check panics. */
  function Combos(locks: seq<seq<int>>, keys: seq<seq<int>>): Option<nat>
  {
    if |locks| == 0 then Some(0)
    else
      match (Combos(locks[..|locks| - 1], keys), FitCount(locks[|locks| - 1], keys))
      case (Some(n), Some(m)) => Some(n + m)
      case _ => None
  }

  lemma {:induction false} FitCountStops(lock: seq<int>, keys: seq<seq<int>>, k: nat)
    requires k <= |keys| && FitCount(lock, keys[..k]) == None
    ensures FitCount(lock, keys) == None
    decreases |keys| - k
  {
    if k < |keys| {
      assert keys[..k + 1][..k] == keys[..k];
      FitCountStops(lock, keys, k + 1);
    } else {
      assert keys[..k] == keys;
    }
  }

  lemma {:induction false} CombosStops(locks: seq<seq<int>>, keys: seq<seq<int>>, k: nat)
    requires k <= |locks| && Combos(locks[..k], keys) == None
    ensures Combos(locks, keys) == None
    decreases |locks| - k
  {
    if k < |locks| {
      assert locks[..k + 1][..k] == locks[..k];
      CombosStops(locks, keys, k + 1);
    } else {
      assert locks[..k] == locks;
    }
  }

  /** `part1`: every lock against every key, the fitting pairs counted. */
  method Part1(locks: seq<seq<int>>, keys: seq<seq<int>>) returns (combos: Option<nat>)
    ensures combos == Combos(locks, keys)
  {
    var count := 0;
    for i := 0 to |locks|
      invariant Combos(locks[..i], keys) == Some(count)
    {
      var lock := locks[i];
      ghost var before := count;
      assert locks[..i + 1][..i] == locks[..i];
      for j := 0 to |keys|
        invariant count >= before && FitCount(lock, keys[..j]) == Some(count - before)
      {
        assert keys[..j + 1][..j] == keys[..j];
        var fit := CanUnlock(lock, keys[j]);
        if fit.None? {
          FitCountStops(lock, keys, j + 1);
          CombosStops(locks, keys, i + 1);
          return None;
        }
        if fit.value {
          count := count + 1;
        }
      }
      assert keys[..|keys|] == keys;
    }
    assert locks[..|locks|] == locks;
    return Some(count);
  }

  /** No more pairs fit than there are pairs. */
  lemma {:induction false} CombosBound(locks: seq<seq<int>>, keys: seq<seq<int>>)
    ensures Combos(locks, keys).Some? ==> Combos(locks, keys).value <= |locks| * |keys|
  {
    if |locks| > 0 {
      CombosBound(locks[..|locks| - 1], keys);
      assert |locks| * |keys| == (|locks| - 1) * |keys| + |keys|;
    }
  }

  // ---------------------------------------------------------------------
  // parseLockKey

  /** The rows a lock's column is read from: 1 down to rows-2. */
  function LockRows(rows: nat): (order: seq<nat>)
    ensures forall i :: 0 <= i < |order| ==> order[i] == i + 1
  {
    seq(if rows >= 2 then rows - 2 else 0, i => i + 1)
  }

  /** The rows a key's column is read from: rows-2 up to 1. */
  function KeyRows(rows: nat): (order: seq<nat>)
    ensures |order| == if rows >= 2 then rows - 2 else 0
    ensures forall i :: 0 <= i < |order| ==> order[i] + i == rows - 2
  {
    seq(if rows >= 2 then rows - 2 else 0, i requires 0 <= i < rows - 2 => rows - 2 - i)
  }

  function Add(n: nat, count: Option<nat>): Option<nat>
  {
    match count
    case Some(m) => Some(n + m)
    case None => None
  }

  /** The '#' cells of column `c` in the rows of `order`, up to the first
      '.'; other characters are passed over. None when a row read is too
      short for the column (Go's index out of range). */
  function Scan(input: seq<string>, c: nat, order: seq<nat>): (r: Option<nat>)
    requires forall i :: 0 <= i < |order| ==> order[i] < |input|
    ensures r.Some? ==> r.value <= |order|
  {
    if |order| == 0 then Some(0)
    else if c >= |input[order[0]]| then None
    else if input[order[0]][c] == '#' then Add(1, Scan(input, c, order[1..]))
    else if input[order[0]][c] == '.' then Some(0)
    else Scan(input, c, order[1..])
  }

  /** The height of column `c`, read downward for a lock and upward for a
      key, between the first and the last row. */
  function Height(input: seq<string>, c: nat, isLock: bool): Option<nat>
  {
    Scan(input, c, if isLock then LockRows(|input|) else KeyRows(|input|))
  }

  /** The heights of the first `n` columns. */
  function Columns(input: seq<string>, isLock: bool, n: nat): (r: Option<seq<int>>)
    ensures r.Some? ==> |r.value| == n
  {
    if n == 0 then Some([])
    else
      match (Columns(input, isLock, n - 1), Height(input, n - 1, isLock))
      case (Some(hs), Some(h)) => Some(hs + [h])
      case _ => None
  }

  /** The heights of a schematic: one per character of its first row;
      None for an empty schematic (`input[0]` panics). */
  function Heights(input: seq<string>, isLock: bool): Option<seq<int>>
  {
    if |input| == 0 then None else Columns(input, isLock, |input[0]|)
  }

  lemma {:induction false} ColumnsStop(input: seq<string>, isLock: bool, k: nat, n: nat)
    requires k <= n && Columns(input, isLock, k) == None
    ensures Columns(input, isLock, n) == None
    decreases n - k
  {
    if k < n {
      ColumnsStop(input, isLock, k + 1, n);
    }
  }

  /** `parseLockKey`. */
  method ParseLockKey(input: seq<string>, isLock: bool) returns (heights: Option<seq<int>>)
    ensures heights == Heights(input, isLock)
  {
    if |input| == 0 {
      return None;
    }
    var rows := |input|;
    var cols := |input[0]|;
    var lock: seq<int> := [];
    for c := 0 to cols
      invariant Columns(input, isLock, c) == Some(lock)
    {
      var size := ScanColumn(input, c, isLock);
      if size.None? {
        ColumnsStop(input, isLock, c + 1, cols);
        return None;
      }
      lock := lock + [size.value];
    }
    return Some(lock);
  }

  /** The inner loops of `parseLockKey`: one column, read downward from
      row 1 for a lock and upward from row rows-2 for a key. */
  method ScanColumn(input: seq<string>, c: nat, isLock: bool) returns (size: Option<nat>)
    ensures size == Height(input, c, isLock)
  {
    if isLock {
      size := ScanLock(input, c);
    } else {
      size := ScanKey(input, c);
    }
  }

  method ScanLock(input: seq<string>, c: nat) returns (size: Option<nat>)
    ensures size == Scan(input, c, LockRows(|input|))
  {
    var rows := |input|;
    ghost var order := LockRows(rows);
    var count := 0;
    var r := 1;
    while r < rows - 1
      invariant 1 <= r <= |order| + 1
      invariant Scan(input, c, order) == Add(count, Scan(input, c, order[r - 1..]))
    {
      assert order[r - 1..][1..] == order[r..];
      if c >= |input[r]| {
        return None;
      }
      if input[r][c] == '#' {
        count := count + 1;
      } else if input[r][c] == '.' {
        return Some(count);
      }
      r := r + 1;
    }
    return Some(count);
  }

  method ScanKey(input: seq<string>, c: nat) returns (size: Option<nat>)
    ensures size == Scan(input, c, KeyRows(|input|))
  {
    var rows := |input|;
    ghost var order := KeyRows(rows);
    ghost var k := 0;
    var count := 0;
    var r := rows - 2;
    while r > 0
      invariant k + (if r > 0 then r else 0) == |order|
      invariant Scan(input, c, order) == Add(count, Scan(input, c, order[k..]))
    {
      assert order[k] == r;
      assert order[k..][1..] == order[k + 1..];
      if c >= |input[r]| {
        return None;
      }
      if input[r][c] == '#' {
        count := count + 1;
      } else if input[r][c] == '.' {
        return Some(count);
      }
      r := r - 1;
      k := k + 1;
    }
    return Some(count);
  }

  /** Every height lies between 0 and rows-2: only the rows between the
      first and the last are read. */
  lemma {:induction false} HeightsBound(input: seq<string>, isLock: bool)
    ensures Heights(input, isLock).Some? ==>
      |input| > 0 && |Heights(input, isLock).value| == |input[0]| &&
      forall c :: 0 <= c < |input[0]| ==>
        0 <= Heights(input, isLock).value[c] && (Heights(input, isLock).value[c] == 0 || Heights(input, isLock).value[c] <= |input| - 2)
  {
    if |input| > 0 {
      ColumnsBound(input, isLock, |input[0]|);
    }
  }

  lemma {:induction false} ColumnsBound(input: seq<string>, isLock: bool, n: nat)
    ensures Columns(input, isLock, n).Some? ==>
      forall c :: 0 <= c < n ==>
        0 <= Columns(input, isLock, n).value[c] && (Columns(input, isLock, n).value[c] == 0 || Columns(input, isLock, n).value[c] <= |input| - 2)
  {
    if n > 0 {
      ColumnsBound(input, isLock, n - 1);
    }
  }

  // ---------------------------------------------------------------------
  // parseData

  /** The lines cut into blocks at every empty line; the last block is
      kept even when it is empty. */
  function Blocks(lines: seq<string>): (blocks: seq<seq<string>>)
    ensures |blocks| >= 1
  {
    if |lines| == 0 then [[]]
    else
      var b := Blocks(lines[..|lines| - 1]);
      if lines[|lines| - 1] == "" then b + [[]]
      else b[..|b| - 1] + [b[|b| - 1] + [lines[|lines| - 1]]]
  }

  /** A block is a lock when its first row, white space removed, is the
      lock's top row. */
  predicate IsLock(block: seq<string>)
    requires |block| > 0
  {
    Concat(Fields(block[0])) == LockTop
  }

  /** The blocks read in turn into locks and keys; None when a block is
      empty (`rawInput[0]` panics) or a row is too short. */
  function Sort(blocks: seq<seq<string>>): Option<(seq<seq<int>>, seq<seq<int>>)>
  {
    if |blocks| == 0 then Some(([], []))
    else
      var b := blocks[|blocks| - 1];
      match Sort(blocks[..|blocks| - 1])
      case None => None
      case Some((locks, keys)) =>
        if |b| == 0 then None
        else
          match Heights(b, IsLock(b))
          case None => None
          case Some(hs) => if IsLock(b) then Some((locks + [hs], keys)) else Some((locks, keys + [hs]))
  }

  /** What `parseData` makes of the input's lines. */
  function Schematics(input: seq<string>): Option<(seq<seq<int>>, seq<seq<int>>)>
  {
    Sort(Blocks(input))
  }

  lemma {:induction false} SortStops(blocks: seq<seq<string>>, k: nat)
    requires k <= |blocks| && Sort(blocks[..k]) == None
    ensures Sort(blocks) == None
    decreases |blocks| - k
  {
    if k < |blocks| {
      assert blocks[..k + 1][..k] == blocks[..k];
      SortStops(blocks, k + 1);
    } else {
      assert blocks[..k] == blocks;
    }
  }

  /** `parseData`: the lines cut into blocks, then each block read as a
      lock or a key. */
  method ParseData(input: seq<string>) returns (result: Option<(seq<seq<int>>, seq<seq<int>>)>)
    ensures result == Schematics(input)
  {
    var rawInputs: seq<seq<string>> := [];
    var rawInput: seq<string> := [];
    for k := 0 to |input|
      invariant rawInputs + [rawInput] == Blocks(input[..k])
    {
      assert input[..k + 1][..k] == input[..k];
      ghost var b := rawInputs + [rawInput];
      assert b[..|b| - 1] == rawInputs;
      if input[k] == "" {
        rawInputs := rawInputs + [rawInput];
        rawInput := [];
      } else {
        rawInput := rawInput + [input[k]];
      }
    }
    assert input[..|input|] == input;
    rawInputs := rawInputs + [rawInput];

    var locks: seq<seq<int>> := [];
    var keys: seq<seq<int>> := [];
    for i := 0 to |rawInputs|
      invariant Sort(rawInputs[..i]) == Some((locks, keys))
    {
      var block := rawInputs[i];
      assert rawInputs[..i + 1][..i] == rawInputs[..i];
      if |block| == 0 {
        SortStops(rawInputs, i + 1);
        return None;
      }
      var isLock := Concat(Fields(block[0])) == LockTop;
      var hs := ParseLockKey(block, isLock);
      if hs.None? {
        SortStops(rawInputs, i + 1);
        return None;
      }
      if isLock {
        locks := locks + [hs.value];
      } else {
        keys := keys + [hs.value];
      }
    }
    assert rawInputs[..|rawInputs|] == rawInputs;
    return Some((locks, keys));
  }

  // ---------------------------------------------------------------------
  // Schematics drawn from heights, and read back

  /** The rows of a schematic: the top and bottom rows and the room. */
  const Rows := Space + 2

  /** Whether row `r` of a column of height `h` holds a pin: a lock's pins
      hang from the top row, a key's rise from the bottom row. */
  predicate Filled(h: int, isLock: bool, rows: nat, r: int)
  {
    if isLock then r <= h else r + h >= rows - 1
  }

  /** The schematic of a lock or a key with the given heights. */
  function Render(heights: seq<int>, isLock: bool, rows: nat): (schematic: seq<string>)
    ensures |schematic| == rows
    ensures forall r :: 0 <= r < rows ==> |schematic[r]| == |heights|
  {
    seq(rows, r => seq(|heights|, c requires 0 <= c < |heights| => if Filled(heights[c], isLock, rows, r) then '#' else '.'))
  }

  /** A column whose rows `order[k..m]` hold '#' and whose next row, if
      any, holds '.' scans to `m - k`. */
  lemma {:induction false} ScanRun(input: seq<string>, c: nat, order: seq<nat>, k: nat, m: nat)
    requires k <= m <= |order|
    requires forall i :: 0 <= i < |order| ==> order[i] < |input| && c < |input[order[i]]|
    requires forall i :: k <= i < m ==> input[order[i]][c] == '#'
    requires m < |order| ==> input[order[m]][c] == '.'
    ensures Scan(input, c, order[k..]) == Some(m - k)
    decreases m - k
  {
    if k < m {
      assert order[k..][1..] == order[k + 1..];
      ScanRun(input, c, order, k + 1, m);
    }
  }

  /** Each column of a drawn schematic reads back as its height. */
  lemma HeightRender(heights: seq<int>, isLock: bool, rows: nat, c: nat)
    requires rows >= 2 && c < |heights|
    requires forall j :: 0 <= j < |heights| ==> 0 <= heights[j] <= rows - 2
    ensures Height(Render(heights, isLock, rows), c, isLock) == Some(heights[c])
  {
    var input := Render(heights, isLock, rows);
    var order := if isLock then LockRows(rows) else KeyRows(rows);
    ScanRun(input, c, order, 0, heights[c]);
    assert order[0..] == order;
  }

  lemma {:induction false} ColumnsRender(heights: seq<int>, isLock: bool, rows: nat, n: nat)
    requires rows >= 2 && n <= |heights|
    requires forall j :: 0 <= j < |heights| ==> 0 <= heights[j] <= rows - 2
    ensures Columns(Render(heights, isLock, rows), isLock, n) == Some(heights[..n])
  {
    if n > 0 {
      ColumnsRender(heights, isLock, rows, n - 1);
      HeightRender(heights, isLock, rows, n - 1);
      assert heights[..n] == heights[..n - 1] + [heights[n - 1]];
    }
  }

  /** `parseLockKey` reads a drawn lock or key back as its heights. */
  lemma ParseRender(heights: seq<int>, isLock: bool, rows: nat)
    requires rows >= 2
    requires forall j :: 0 <= j < |heights| ==> 0 <= heights[j] <= rows - 2
    ensures Heights(Render(heights, isLock, rows), isLock) == Some(heights)
  {
    ColumnsRender(heights, isLock, rows, |heights|);
    assert heights[..|heights|] == heights;
  }

  /** A row free of white space is its own `strings.Join(strings.Fields(_), "")`. */
  lemma JoinedFields(row: string)
    requires forall i :: 0 <= i < |row| ==> !IsSpace(row[i])
    ensures Concat(Fields(row)) == row
  {
    FieldsSpec(row);
    NonSpaceOfWord(row, |row|);
    assert row[..|row|] == row;
  }

  /** A drawn lock of five columns is taken for a lock, and a drawn key
      for a key. */
  lemma IsLockRender(heights: seq<int>, isLock: bool)
    requires isLock ==> |heights| == |LockTop|
    requires forall j :: 0 <= j < |heights| ==> 0 <= heights[j] <= Space
    ensures IsLock(Render(heights, isLock, Rows)) == isLock
  {
    var top := Render(heights, isLock, Rows)[0];
    JoinedFields(top);
    if isLock {
      assert forall j :: 0 <= j < |top| ==> top[j] == LockTop[j];
    } else if |top| > 0 {
      assert top[0] != LockTop[0];
    }
  }

  /** The lines of blocks separated by empty lines. */
  function Layout(blocks: seq<seq<string>>): seq<string>
  {
    if |blocks| == 0 then []
    else if |blocks| == 1 then blocks[0]
    else Layout(blocks[..|blocks| - 1]) + [""] + blocks[|blocks| - 1]
  }

  /** Lines with no empty one extend the last block. */
  lemma {:induction false} BlocksAppend(prefix: seq<string>, b: seq<string>, done: seq<seq<string>>, open: seq<string>)
    requires forall i :: 0 <= i < |b| ==> b[i] != ""
    requires Blocks(prefix) == done + [open]
    ensures Blocks(prefix + b) == done + [open + b]
  {
    if |b| == 0 {
      assert prefix + b == prefix;
      assert open + b == open;
    } else {
      var front := b[..|b| - 1];
      BlocksAppend(prefix, front, done, open);
      var lines := prefix + b;
      assert lines[..|lines| - 1] == prefix + front;
      assert lines[|lines| - 1] == b[|b| - 1];
      var before := done + [open + front];
      assert before[..|before| - 1] == done;
      assert open + front + [b[|b| - 1]] == open + b;
    }
  }

  /** Blocks with no empty line, laid out with empty lines between them,
      are cut back into the same blocks. */
  lemma {:induction false} BlocksLayout(blocks: seq<seq<string>>)
    requires |blocks| >= 1
    requires forall k, i :: 0 <= k < |blocks| && 0 <= i < |blocks[k]| ==> blocks[k][i] != ""
    ensures Blocks(Layout(blocks)) == blocks
  {
    var b := blocks[|blocks| - 1];
    if |blocks| == 1 {
      BlocksAppend([], b, [], []);
      assert [] + b == b;
    } else {
      var front := blocks[..|blocks| - 1];
      BlocksLayout(front);
      var lines := Layout(front) + [""];
      assert lines[..|lines| - 1] == Layout(front);
      BlocksAppend(lines, b, front, []);
      assert [] + b == b;
      assert blocks == front + [b];
    }
  }

  /** The heights of the schematics in order, locks and keys apart. */
  function Separate(items: seq<(seq<int>, bool)>): (seq<seq<int>>, seq<seq<int>>)
  {
    if |items| == 0 then ([], [])
    else
      var (locks, keys) := Separate(items[..|items| - 1]);
      var (heights, isLock) := items[|items| - 1];
      if isLock then (locks + [heights], keys) else (locks, keys + [heights])
  }

  /** The schematics drawn from the heights. */
  function Drawn(items: seq<(seq<int>, bool)>): (blocks: seq<seq<string>>)
    ensures |blocks| == |items|
  {
    seq(|items|, k requires 0 <= k < |items| => Render(items[k].0, items[k].1, Rows))
  }

  /** A well-drawn schematic: five columns, every height in 0..5. */
  predicate WellDrawn(item: (seq<int>, bool))
  {
    |item.0| == |LockTop| && forall j :: 0 <= j < |item.0| ==> 0 <= item.0[j] <= Space
  }

  lemma {:induction false} SortDrawn(items: seq<(seq<int>, bool)>)
    requires forall k :: 0 <= k < |items| ==> WellDrawn(items[k])
    ensures Sort(Drawn(items)) == Some(Separate(items))
  {
    if |items| > 0 {
      var front := items[..|items| - 1];
      SortDrawn(front);
      assert Drawn(items)[..|items| - 1] == Drawn(front);
      var (heights, isLock) := items[|items| - 1];
      IsLockRender(heights, isLock);
      ParseRender(heights, isLock, Rows);
    }
  }

  /** `parseData` reads the puzzle's drawing of a list of locks and keys,
      separated by empty lines, back as their heights, locks and keys
      apart and each in its order. */
  lemma ParseDataRoundTrip(items: seq<(seq<int>, bool)>)
    requires |items| >= 1
    requires forall k :: 0 <= k < |items| ==> WellDrawn(items[k])
    ensures Schematics(Layout(Drawn(items))) == Some(Separate(items))
  {
    var blocks := Drawn(items);
    forall k, i | 0 <= k < |blocks| && 0 <= i < |blocks[k]|
      ensures blocks[k][i] != ""
    {
      assert |blocks[k][i]| == |LockTop|;
    }
    BlocksLayout(blocks);
    SortDrawn(items);
  }

  /** A key fits a lock of as many columns exactly when, drawn one over the
      other, no row of any column holds both a lock pin and a key pin. */
  lemma FitsNoOverlap(lock: seq<int>, key: seq<int>)
    requires |lock| == |key|
    requires forall j :: 0 <= j < |lock| ==> 0 <= lock[j] <= Space && 0 <= key[j] <= Space
    ensures Fits(lock, key) == Some(true) <==>
      forall c, r :: 0 <= c < |lock| && 0 <= r < Rows ==> !(Filled(lock[c], true, Rows, r) && Filled(key[c], false, Rows, r))
  {
    if Fits(lock, key) != Some(true) {
      var c :| 0 <= c < |lock| && lock[c] + key[c] > Space;
      assert Filled(lock[c], true, Rows, lock[c]) && Filled(key[c], false, Rows, lock[c]);
    }
  }
}
