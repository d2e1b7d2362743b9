/** Day 9: a dense disk map is expanded into one cell per disk block, then
    compacted two ways: block by block with two pointers (part 1) and
    whole file by whole file into the leftmost free span (part 2). */
module Day9 {
  import opened Wrappers
  import opened Text

  /** One block of the disk: free, or holding part of file `fileNum`.
      `decompress` gives free blocks the number -1. */
  datatype Cell = Cell(free: bool, fileNum: int)

  // ---------------------------------------------------------------------
  // decompress

  /** The digits of the disk map, one per character; None as soon as a
      character is not a decimal digit (`util.ParseInt` exits there). */
  function Digits(line: string): Option<seq<nat>>
  {
    if |line| == 0 then Some([])
    else
      match Digits(line[..|line| - 1])
      case None => None
      case Some(ds) =>
        var c := line[|line| - 1];
        if IsDigit(c) then Some(ds + [DigitValue(c)]) else None
  }

  /** What digit k of the map stands for: blocks of file k/2 when k is
      even, free blocks when k is odd. */
  function CellFor(k: nat): Cell
  {
    if k % 2 == 0 then Cell(false, k / 2) else Cell(true, -1)
  }

  /** n copies of c. */
  function Run(n: nat, c: Cell): seq<Cell>
  {
    if n == 0 then [] else Run(n - 1, c) + [c]
  }

  /** The expanded disk: digit k contributes ds[k] copies of CellFor(k). */
  function Expand(ds: seq<nat>): seq<Cell>
  {
    if |ds| == 0 then [] else Expand(ds[..|ds| - 1]) + Run(ds[|ds| - 1], CellFor(|ds| - 1))
  }

  function Sum(ds: seq<nat>): nat
  {
    if |ds| == 0 then 0 else Sum(ds[..|ds| - 1]) + ds[|ds| - 1]
  }

  /** The digit that gives file j its size, or 0 if there is no file j. */
  function FileDigit(ds: seq<nat>, j: int): nat
  {
    if 0 <= j && 2 * j < |ds| then ds[2 * j] else 0
  }

  /** A character that is not a digit makes the whole map unreadable. */
  lemma {:induction false} DigitsPrefix(line: string, k: nat)
    requires k <= |line| && Digits(line[..k]).None?
    ensures Digits(line).None?
    decreases |line|
  {
    if k == |line| {
      assert line[..k] == line;
    } else {
      var init := line[..|line| - 1];
      assert init[..k] == line[..k];
      DigitsPrefix(init, k);
    }
  }

  /** `for i := 0; i < space; i++ { decompressed = append(decompressed, toAdd) }` */
  method AppendRun(s: seq<Cell>, c: Cell, n: nat) returns (r: seq<Cell>)
    ensures r == s + Run(n, c)
  {
    r := s;
    var i := 0;
    while i < n
      invariant 0 <= i <= n
      invariant r == s + Run(i, c)
    {
      r := r + [c];
      i := i + 1;
    }
  }

  /** Reading one more digit of the map extends the expanded disk by that
      digit's run. */
  lemma DigitsStep(line: string, index: int, ds: seq<nat>)
    requires 0 <= index < |line| && Digits(line[..index]) == Some(ds) && IsDigit(line[index])
    ensures var n := DigitValue(line[index]);
      && Digits(line[..index + 1]) == Some(ds + [n])
      && Expand(ds + [n]) == Expand(ds) + Run(n, CellFor(|ds|))
  {
    assert line[..index + 1][..index] == line[..index];
    assert (ds + [DigitValue(line[index])])[..|ds|] == ds;
  }

  /** `used` counts digits from 1, so an odd `used` is an even digit
      position, which is file `fileIndex`. */
  lemma Parity(index: nat, used: int, fileIndex: int)
    requires used == index + 1 && fileIndex == (index + 1) / 2
    ensures used % 2 != 0 ==> CellFor(index) == Cell(false, fileIndex) && fileIndex + 1 == (index + 2) / 2
    ensures used % 2 == 0 ==> CellFor(index) == Cell(true, -1) && fileIndex == (index + 2) / 2
  {
  }

  /** `decompress`: the expanded disk and the number of files in it. */
  method Decompress(line: string) returns (result: Option<(seq<Cell>, int)>)
    ensures Digits(line).None? ==> result.None?
    ensures Digits(line).Some? ==>
      result == Some((Expand(Digits(line).value), (|Digits(line).value| + 1) / 2))
  {
    var decompressed: seq<Cell> := [];
    var fileIndex := 0;
    var used := 1;
    ghost var ds: seq<nat> := [];
    var index := 0;
    while index < |line|
      invariant 0 <= index <= |line|
      invariant Digits(line[..index]) == Some(ds) && |ds| == index
      invariant decompressed == Expand(ds)
      invariant used == index + 1 && fileIndex == (index + 1) / 2
    {
      AtoiOneChar(line[index]);
      var space := Atoi([line[index]]);
      if space.None? {
        assert line[..index + 1][..index] == line[..index];
        DigitsPrefix(line, index + 1);
        return None;
      }
      var n: nat := space.value;
      DigitsStep(line, index, ds);
      Parity(index, used, fileIndex);
      if used % 2 != 0 {
        var toAdd := Cell(false, fileIndex);
        decompressed := AppendRun(decompressed, toAdd, n);
        fileIndex := fileIndex + 1;
      } else {
        var toAdd := Cell(true, -1);
        decompressed := AppendRun(decompressed, toAdd, n);
      }
      ds := ds + [n];
      used := used + 1;
      index := index + 1;
    }
    assert line[..|line|] == line;
    return Some((decompressed, fileIndex));
  }

  lemma {:induction false} RunFacts(n: nat, c: Cell)
    ensures |Run(n, c)| == n
    ensures forall k :: 0 <= k < n ==> Run(n, c)[k] == c
  {
    if n > 0 {
      RunFacts(n - 1, c);
    }
  }

  lemma {:induction false} RunCount(n: nat, c: Cell, d: Cell)
    ensures multiset(Run(n, c))[d] == if d == c then n else 0
  {
    if n > 0 {
      RunCount(n - 1, c, d);
    }
  }

  /** The expanded disk has one cell per unit of the digits. */
  lemma {:induction false} ExpandLength(ds: seq<nat>)
    ensures |Expand(ds)| == Sum(ds)
  {
    if |ds| > 0 {
      ExpandLength(ds[..|ds| - 1]);
      RunFacts(ds[|ds| - 1], CellFor(|ds| - 1));
    }
  }

  /** File j occupies exactly as many blocks as its digit says. */
  lemma CellForIs(k: nat, j: int)
    ensures CellFor(k) == Cell(false, j) <==> k == 2 * j
  {
  }

  lemma {:induction false} ExpandFileSize(ds: seq<nat>, j: int)
    ensures multiset(Expand(ds))[Cell(false, j)] == FileDigit(ds, j)
  {
    if |ds| > 0 {
      var init := ds[..|ds| - 1];
      var d := ds[|ds| - 1];
      var c := CellFor(|ds| - 1);
      var x := Cell(false, j);
      ExpandFileSize(init, j);
      RunCount(d, c, x);
      assert Expand(ds) == Expand(init) + Run(d, c);
      assert multiset(Expand(ds))[x] == multiset(Expand(init))[x] + multiset(Run(d, c))[x];
      CellForIs(|ds| - 1, j);
      if 2 * j == |ds| - 1 {
        assert FileDigit(ds, j) == d && FileDigit(init, j) == 0;
      } else if 0 <= j && 2 * j < |init| {
        assert FileDigit(ds, j) == FileDigit(init, j) == init[2 * j];
      } else {
        assert FileDigit(ds, j) == FileDigit(init, j) == 0;
      }
    }
  }

  /** Every expanded cell is either free with number -1 or a block of one
      of the files counted by `decompress`. */
  lemma {:induction false} ExpandCells(ds: seq<nat>)
    ensures forall c :: c in Expand(ds) ==>
      c == Cell(true, -1) || (!c.free && 0 <= c.fileNum < (|ds| + 1) / 2)
  {
    if |ds| > 0 {
      var init := ds[..|ds| - 1];
      ExpandCells(init);
      RunFacts(ds[|ds| - 1], CellFor(|ds| - 1));
      forall c | c in Expand(ds)
        ensures c == Cell(true, -1) || (!c.free && 0 <= c.fileNum < (|ds| + 1) / 2)
      {
        if c !in Expand(init) {
          assert c in Run(ds[|ds| - 1], CellFor(|ds| - 1));
          RunCount(ds[|ds| - 1], CellFor(|ds| - 1), c);
        }
      }
    }
  }

  // ---------------------------------------------------------------------
  // findNextEmpty, findNextFilled

  /** The first free index at or after `start`, or -1. */
  function NextEmpty(s: seq<Cell>, start: nat): (r: int)
    ensures r == -1 || start <= r < |s|
    decreases |s| - start
  {
    if start >= |s| then -1 else if s[start].free then start else NextEmpty(s, start + 1)
  }

  /** The last filled index at or before `start`, or -1. */
  function NextFilled(s: seq<Cell>, start: int): (r: int)
    requires start < |s|
    ensures r == -1 || 0 <= r <= start
    decreases start + 1
  {
    if start < 0 then -1 else if !s[start].free then start else NextFilled(s, start - 1)
  }

  lemma {:induction false} NextEmptyIsLeast(s: seq<Cell>, start: nat)
    ensures var r := NextEmpty(s, start);
      && (r == -1 ==> forall k :: start <= k < |s| ==> !s[k].free)
      && (r != -1 ==> s[r].free && forall k :: start <= k < r ==> !s[k].free)
    decreases |s| - start
  {
    if start < |s| && !s[start].free {
      NextEmptyIsLeast(s, start + 1);
    }
  }

  lemma {:induction false} NextFilledIsGreatest(s: seq<Cell>, start: int)
    requires start < |s|
    ensures var r := NextFilled(s, start);
      && (r == -1 ==> forall k :: 0 <= k <= start ==> s[k].free)
      && (r != -1 ==> !s[r].free && forall k :: r < k <= start ==> s[k].free)
    decreases start + 1
  {
    if start >= 0 && s[start].free {
      NextFilledIsGreatest(s, start - 1);
    }
  }

  /** `findNextEmpty`. */
  method FindNextEmpty(input: array<Cell>, start: int) returns (index: int)
    requires start >= 0
    ensures index == NextEmpty(input[..], start)
  {
    index := start;
    while index < input.Length
      invariant start <= index
      invariant NextEmpty(input[..], index) == NextEmpty(input[..], start)
      decreases input.Length - index
    {
      if input[index].free {
        return index;
      }
      index := index + 1;
    }
    return -1;
  }

  /** `findNextFilled`. */
  method FindNextFilled(input: array<Cell>, start: int) returns (index: int)
    requires start < input.Length
    ensures index == NextFilled(input[..], start)
  {
    index := start;
    while index >= 0
      invariant index <= start
      invariant NextFilled(input[..], index) == NextFilled(input[..], start)
      decreases index + 1
    {
      if !input[index].free {
        return index;
      }
      index := index - 1;
    }
    return -1;
  }

  // ---------------------------------------------------------------------
  // part 1

  function Swap(s: seq<Cell>, i: int, j: int): (r: seq<Cell>)
    requires 0 <= i < |s| && 0 <= j < |s|
    ensures |r| == |s|
  {
    s[i := s[j]][j := s[i]]
  }

  /** The two-pointer loop of `part1`, stopping when no free block is left
      of a filled one (see `LoopAsWritten` for the loop as the Go code
      writes it). */
  function Loop(s: seq<Cell>, left: int, right: int): (r: seq<Cell>)
    requires -1 <= left < |s| && -1 <= right < |s|
    ensures |r| == |s|
    decreases right + 1
  {
    if left != -1 && left < right then
      var t := Swap(s, left, right);
      Loop(t, NextEmpty(t, left + 1), NextFilled(t, right - 1))
    else s
  }

  /** The disk after the part 1 compaction. */
  function Compact(s: seq<Cell>): (r: seq<Cell>)
    ensures |r| == |s|
  {
    Loop(s, NextEmpty(s, 0), NextFilled(s, |s| - 1))
  }

  /** The loop as written: `for left < right`, where a `left` of -1 is
      still used as an index and the slice access panics (None). */
  function LoopAsWritten(s: seq<Cell>, left: int, right: int): Option<seq<Cell>>
    requires -1 <= left < |s| && -1 <= right < |s|
    decreases right + 1
  {
    if left < right then
      if left == -1 then None
      else
        var t := Swap(s, left, right);
        LoopAsWritten(t, NextEmpty(t, left + 1), NextFilled(t, right - 1))
    else Some(s)
  }

  function CompactAsWritten(s: seq<Cell>): Option<seq<Cell>>
  {
    LoopAsWritten(s, NextEmpty(s, 0), NextFilled(s, |s| - 1))
  }

  /** No free block precedes a filled one. */
  predicate Compacted(s: seq<Cell>)
  {
    forall i, j :: 0 <= i < j < |s| && s[i].free ==> s[j].free
  }

  /** What the two pointers know: everything left of `left` is filled and
      `left` is free; everything right of `right` is free and `right` is
      filled; a pointer of -1 means there is no such block at all. */
  predicate PointerInv(s: seq<Cell>, left: int, right: int)
  {
    && -1 <= left < |s| && -1 <= right < |s|
    && (left == -1 ==> forall k :: 0 <= k < |s| ==> !s[k].free)
    && (left != -1 ==> s[left].free && forall k :: 0 <= k < left ==> !s[k].free)
    && (right == -1 ==> forall k :: 0 <= k < |s| ==> s[k].free)
    && (right != -1 ==> !s[right].free && forall k :: right < k < |s| ==> s[k].free)
  }

  lemma PointerInvInit(s: seq<Cell>)
    ensures PointerInv(s, NextEmpty(s, 0), NextFilled(s, |s| - 1))
  {
    NextEmptyIsLeast(s, 0);
    NextFilledIsGreatest(s, |s| - 1);
  }

  /** One swap keeps the pointer invariant, and the new `left` is never -1. */
  lemma PointerInvStep(s: seq<Cell>, left: int, right: int)
    requires PointerInv(s, left, right) && left != -1 && left < right
    ensures var t := Swap(s, left, right);
      && PointerInv(t, NextEmpty(t, left + 1), NextFilled(t, right - 1))
      && NextEmpty(t, left + 1) != -1
      && multiset(t) == multiset(s)
  {
    var t := Swap(s, left, right);
    NextEmptyIsLeast(t, left + 1);
    NextFilledIsGreatest(t, right - 1);
    assert t[right].free && !t[left].free;
  }

  lemma {:induction false} LoopSorts(s: seq<Cell>, left: int, right: int)
    requires PointerInv(s, left, right)
    ensures Compacted(Loop(s, left, right))
    ensures multiset(Loop(s, left, right)) == multiset(s)
    decreases right + 1
  {
    if left != -1 && left < right {
      var t := Swap(s, left, right);
      PointerInvStep(s, left, right);
      LoopSorts(t, NextEmpty(t, left + 1), NextFilled(t, right - 1));
    }
  }

  /** Part 1 only swaps blocks, and afterwards no free block precedes a
      filled one. */
  lemma CompactSorts(s: seq<Cell>)
    ensures Compacted(Compact(s))
    ensures multiset(Compact(s)) == multiset(s)
  {
    PointerInvInit(s);
    LoopSorts(s, NextEmpty(s, 0), NextFilled(s, |s| - 1));
  }

  lemma {:induction false} LoopAsWrittenAgrees(s: seq<Cell>, left: int, right: int)
    requires PointerInv(s, left, right) && left != -1
    ensures LoopAsWritten(s, left, right) == Some(Loop(s, left, right))
    decreases right + 1
  {
    if left < right {
      var t := Swap(s, left, right);
      PointerInvStep(s, left, right);
      LoopAsWrittenAgrees(t, NextEmpty(t, left + 1), NextFilled(t, right - 1));
    }
  }

  /** The loop as written panics exactly on a non-empty disk without a
      free block, and otherwise computes `Compact`. */
  lemma CompactAsWrittenPanics(s: seq<Cell>)
    ensures CompactAsWritten(s).None? <==> |s| > 0 && forall k :: 0 <= k < |s| ==> !s[k].free
    ensures CompactAsWritten(s).Some? ==> CompactAsWritten(s).value == Compact(s)
  {
    PointerInvInit(s);
    var left, right := NextEmpty(s, 0), NextFilled(s, |s| - 1);
    if left != -1 {
      LoopAsWrittenAgrees(s, left, right);
    } else if |s| > 0 {
      assert !s[|s| - 1].free;
    }
  }

  /** The disk map "1" (one file of one block, no free space) makes part 1
      index the slice at -1. */
  lemma SingleFilePanics()
    ensures Digits("1") == Some([1])
    ensures Expand([1]) == [Cell(false, 0)]
    ensures CompactAsWritten(Expand([1])).None?
  {
    assert "1"[..0] == [];
    assert "1"[0] == '1' && DigitValue('1') == 1;
    assert Digits("1"[..0]) == Some([]);
    assert [] + [1] == [1];
    assert [1][..0] == [];
    assert Run(1, Cell(false, 0)) == [Cell(false, 0)];
    CompactAsWrittenPanics([Cell(false, 0)]);
  }

  /** The part 1 checksum: index times file number over the filled prefix,
      stopping at the first free block. */
  function PrefixChecksum(s: seq<Cell>, i: nat): int
    decreases |s| - i
  {
    if i >= |s| || s[i].free then 0 else i * s[i].fileNum + PrefixChecksum(s, i + 1)
  }

  /** The part 2 checksum: index times file number over every filled block. */
  function FilledChecksum(s: seq<Cell>, i: nat): int
    decreases |s| - i
  {
    if i >= |s| then 0
    else (if s[i].free then 0 else i * s[i].fileNum) + FilledChecksum(s, i + 1)
  }

  lemma {:induction false} FreeTailChecksum(s: seq<Cell>, i: nat)
    requires forall k :: i <= k < |s| ==> s[k].free
    ensures FilledChecksum(s, i) == 0
    decreases |s| - i
  {
    if i < |s| {
      FreeTailChecksum(s, i + 1);
    }
  }

  /** On a compacted disk the two checksums agree: stopping at the first
      free block loses nothing. */
  lemma {:induction false} CompactedChecksums(s: seq<Cell>, i: nat)
    requires Compacted(s)
    ensures PrefixChecksum(s, i) == FilledChecksum(s, i)
    decreases |s| - i
  {
    if i < |s| {
      if s[i].free {
        FreeTailChecksum(s, i);
      } else {
        CompactedChecksums(s, i + 1);
      }
    }
  }

  /** The checksum loop of `part1`. */
  method Checksum1(input: array<Cell>) returns (sum: int)
    ensures sum == PrefixChecksum(input[..], 0)
  {
    sum := 0;
    var index := 0;
    while index < input.Length
      invariant 0 <= index <= input.Length
      invariant sum + PrefixChecksum(input[..], index) == PrefixChecksum(input[..], 0)
    {
      if input[index].free {
        break;
      }
      sum := sum + index * input[index].fileNum;
      index := index + 1;
    }
  }

  /** `part1`, with the loop stopping when no free block is left. */
  method Part1(input: array<Cell>) returns (sum: int)
    modifies input
    ensures input[..] == Compact(old(input[..]))
    ensures sum == PrefixChecksum(input[..], 0)
  {
    var left := FindNextEmpty(input, 0);
    var right := FindNextFilled(input, input.Length - 1);
    while left != -1 && left < right
      invariant -1 <= left < input.Length && -1 <= right < input.Length
      invariant Loop(input[..], left, right) == Compact(old(input[..]))
      decreases right + 1
    {
      ghost var before := input[..];
      input[left], input[right] := input[right], input[left];
      assert input[..] == Swap(before, left, right);
      left := FindNextEmpty(input, left + 1);
      right := FindNextFilled(input, right - 1);
    }
    sum := Checksum1(input);
  }

  /** `part1` as written: the loop test is only `left < right`; None is
      the panic on `input[-1]`. */
  method Part1AsWritten(input: array<Cell>) returns (sum: Option<int>)
    modifies input
    ensures CompactAsWritten(old(input[..])).None? ==> sum.None?
    ensures CompactAsWritten(old(input[..])).Some? ==>
      input[..] == CompactAsWritten(old(input[..])).value
      && sum == Some(PrefixChecksum(input[..], 0))
  {
    var left := FindNextEmpty(input, 0);
    var right := FindNextFilled(input, input.Length - 1);
    while left < right
      invariant -1 <= left < input.Length && -1 <= right < input.Length
      invariant LoopAsWritten(input[..], left, right) == CompactAsWritten(old(input[..]))
      decreases right + 1
    {
      if left == -1 {
        return None;
      }
      ghost var before := input[..];
      input[left], input[right] := input[right], input[left];
      assert input[..] == Swap(before, left, right);
      left := FindNextEmpty(input, left + 1);
      right := FindNextFilled(input, right - 1);
    }
    var s := Checksum1(input);
    return Some(s);
  }

  // ---------------------------------------------------------------------
  // part 2

  /** `fileBlocks`: for every file number above 0, the indices holding it,
      in increasing order (a missing key reads as an empty slice). */
  function Group(s: seq<Cell>): map<int, seq<int>>
  {
    if |s| == 0 then map[]
    else
      var g := Group(s[..|s| - 1]);
      var c := s[|s| - 1];
      if c.fileNum > 0 then g[c.fileNum := (if c.fileNum in g then g[c.fileNum] else []) + [|s| - 1]]
      else g
  }

  predicate Listed(g: map<int, seq<int>>, id: int, k: int)
  {
    id in g && k in g[id]
  }

  /** The grouping lists index k under id exactly when block k carries the
      positive file number id; file 0 is never grouped. */
  lemma {:induction false} GroupMembers(s: seq<Cell>)
    ensures forall id, k :: Listed(Group(s), id, k) <==> id > 0 && 0 <= k < |s| && s[k].fileNum == id
  {
    if |s| > 0 {
      var t := s[..|s| - 1];
      GroupMembers(t);
      forall id, k
        ensures Listed(Group(s), id, k) <==> id > 0 && 0 <= k < |s| && s[k].fileNum == id
      {
        assert Listed(Group(t), id, k) <==> id > 0 && 0 <= k < |t| && t[k].fileNum == id;
        if 0 <= k < |s| - 1 {
          assert t[k] == s[k];
        }
      }
    }
  }

  /** Strictly increasing indices below n. */
  predicate Increasing(xs: seq<int>, n: int)
  {
    && (forall i :: 0 <= i < |xs| ==> 0 <= xs[i] < n)
    && (forall i, j :: 0 <= i < j < |xs| ==> xs[i] < xs[j])
  }

  lemma IncreasingAppend(xs: seq<int>, n: int)
    requires Increasing(xs, n) && n >= 0
    ensures Increasing(xs + [n], n + 1)
  {
    var ys := xs + [n];
    forall i, j | 0 <= i < j < |ys|
      ensures ys[i] < ys[j]
    {
      assert ys[i] == xs[i];
    }
  }

  /** Every grouped file lists its indices in increasing order. */
  lemma {:induction false} GroupIncreasing(s: seq<Cell>)
    ensures forall id :: id in Group(s) ==> |Group(s)[id]| > 0 && Increasing(Group(s)[id], |s|)
  {
    if |s| > 0 {
      var t := s[..|s| - 1];
      GroupIncreasing(t);
      var c := s[|s| - 1];
      if c.fileNum > 0 {
        var prev := if c.fileNum in Group(t) then Group(t)[c.fileNum] else [];
        IncreasingAppend(prev, |t|);
      }
    }
  }

  /** The spans the loop reads from a grouping: each listed file starts
      no later than it ends, inside a disk of n blocks. */
  predicate Spans(blocks: map<int, seq<int>>, n: int)
  {
    forall id :: id in blocks && |blocks[id]| > 0 ==>
      0 <= blocks[id][0] <= blocks[id][|blocks[id]| - 1] < n
  }

  lemma GroupSpans(s: seq<Cell>)
    ensures Spans(Group(s), |s|)
  {
    GroupIncreasing(s);
    var g := Group(s);
    forall id | id in g && |g[id]| > 0
      ensures 0 <= g[id][0] <= g[id][|g[id]| - 1] < |s|
    {
      if |g[id]| > 1 {
        assert g[id][0] < g[id][|g[id]| - 1];
      }
    }
  }

  /** The scan for free space: `cur` free blocks end just before i; the
      result is where the first run of `len` free blocks starts, or -1. */
  function FreeRun(s: seq<Cell>, len: int, i: int, cur: int): (r: int)
    requires 0 <= cur < len && cur <= i <= |s|
    ensures r == -1 || (0 <= r && r + len <= |s|)
    decreases |s| - i
  {
    if i == |s| then -1
    else if s[i].free then
      if cur + 1 == len then i - len + 1 else FreeRun(s, len, i + 1, cur + 1)
    else FreeRun(s, len, i + 1, 0)
  }

  predicate AllFree(s: seq<Cell>, lo: int, hi: int)
  {
    forall k :: lo <= k < hi && 0 <= k < |s| ==> s[k].free
  }

  /** A run of `len` free blocks starts at r. */
  predicate FreeSpan(s: seq<Cell>, r: int, len: int)
  {
    0 <= r && r + len <= |s| && AllFree(s, r, r + len)
  }

  lemma {:induction false} FreeRunLeftmost(s: seq<Cell>, len: int, i: int, cur: int)
    requires 0 <= cur < len && cur <= i <= |s|
    requires AllFree(s, i - cur, i)
    requires forall r :: 0 <= r < i - cur ==> !FreeSpan(s, r, len)
    ensures var r := FreeRun(s, len, i, cur);
      && (r == -1 ==> forall q :: 0 <= q ==> !FreeSpan(s, q, len))
      && (r != -1 ==> FreeSpan(s, r, len) && forall q :: 0 <= q < r ==> !FreeSpan(s, q, len))
    decreases |s| - i
  {
    if i == |s| {
      forall q | 0 <= q
        ensures !FreeSpan(s, q, len)
      {
        if q >= i - cur {
          assert q + len > |s|;
        }
      }
    } else if s[i].free {
      if cur + 1 < len {
        FreeRunLeftmost(s, len, i + 1, cur + 1);
      }
    } else {
      forall q | 0 <= q < i + 1
        ensures !FreeSpan(s, q, len)
      {
        if q >= i - cur {
          assert q <= i < q + len;
          assert !s[i].free;
        }
      }
      FreeRunLeftmost(s, len, i + 1, 0);
    }
  }

  /** `freeStart`: the leftmost run of `len` free blocks, or -1 if there
      is none. */
  lemma FreeRunIsLeftmost(s: seq<Cell>, len: int)
    requires len >= 1
    ensures var r := FreeRun(s, len, 0, 0);
      && (r == -1 ==> forall q :: 0 <= q ==> !FreeSpan(s, q, len))
      && (r != -1 ==> FreeSpan(s, r, len) && forall q :: 0 <= q < r ==> !FreeSpan(s, q, len))
  {
    FreeRunLeftmost(s, len, 0, 0);
  }

  /** The relocation loop from step i on: block `to + k` becomes a block of
      `id`, block `from + k` becomes free (keeping its number). */
  function Move(s: seq<Cell>, to: int, from: int, len: int, id: int, i: int): (r: seq<Cell>)
    requires 0 <= to && to + len <= |s| && 0 <= from && from + len <= |s| && 0 <= i <= len
    ensures |r| == |s|
    decreases len - i
  {
    if i == len then s
    else
      var t := s[to + i := Cell(false, id)];
      Move(t[from + i := t[from + i].(free := true)], to, from, len, id, i + 1)
  }

  /** One iteration of the file loop for file `id` spanning first..last. */
  function Relocate(s: seq<Cell>, first: int, last: int, id: int): (r: seq<Cell>)
    requires 0 <= first <= last < |s|
    ensures |r| == |s|
  {
    var len := last - first + 1;
    var freeStart := FreeRun(s, len, 0, 0);
    if freeStart != -1 && freeStart < first then Move(s, freeStart, first, len, id, 0) else s
  }

  /** The file loop of `part2` from `fileID` down to 1. */
  function RelocateAll(blocks: map<int, seq<int>>, s: seq<Cell>, fileID: int): (r: seq<Cell>)
    requires Spans(blocks, |s|)
    ensures |r| == |s|
    decreases fileID
  {
    if fileID <= 0 then s
    else if fileID !in blocks || |blocks[fileID]| == 0 then RelocateAll(blocks, s, fileID - 1)
    else
      var block := blocks[fileID];
      RelocateAll(blocks, Relocate(s, block[0], block[|block| - 1], fileID), fileID - 1)
  }

  /** The disk after part 2. */
  function Defragment(s: seq<Cell>, fileNum: int): seq<Cell>
  {
    GroupSpans(s);
    RelocateAll(Group(s), s, fileNum)
  }

  // The counts part 2 preserves.

  function FreeCount(s: seq<Cell>): nat
  {
    if |s| == 0 then 0 else FreeCount(s[..|s| - 1]) + (if s[|s| - 1].free then 1 else 0)
  }

  function FileCount(s: seq<Cell>, id: int): nat
  {
    if |s| == 0 then 0
    else FileCount(s[..|s| - 1], id) + (if !s[|s| - 1].free && s[|s| - 1].fileNum == id then 1 else 0)
  }

  function IsFree(c: Cell): int
  {
    if c.free then 1 else 0
  }

  function IsBlockOf(c: Cell, id: int): int
  {
    if !c.free && c.fileNum == id then 1 else 0
  }

  lemma {:induction false} CountUpdate(s: seq<Cell>, k: int, c: Cell, id: int)
    requires 0 <= k < |s|
    ensures FreeCount(s[k := c]) == FreeCount(s) - IsFree(s[k]) + IsFree(c)
    ensures FileCount(s[k := c], id) == FileCount(s, id) - IsBlockOf(s[k], id) + IsBlockOf(c, id)
  {
    var t := s[k := c];
    if k < |s| - 1 {
      assert t[..|t| - 1] == s[..|s| - 1][k := c];
      CountUpdate(s[..|s| - 1], k, c, id);
    } else {
      assert t[..|t| - 1] == s[..|s| - 1];
    }
  }

  /** One step of the relocation loop: a free block becomes a block of
      `id` and a block of `id` becomes free. */
  lemma MoveStep(s: seq<Cell>, a: int, b: int, id: int)
    requires 0 <= a < |s| && 0 <= b < |s| && a != b
    requires s[a].free && s[b] == Cell(false, id)
    ensures var t := s[a := Cell(false, id)];
      var u := t[b := t[b].(free := true)];
      FreeCount(u) == FreeCount(s) && forall j :: FileCount(u, j) == FileCount(s, j)
  {
    var t := s[a := Cell(false, id)];
    var u := t[b := t[b].(free := true)];
    assert t[b] == Cell(false, id);
    forall j
      ensures FreeCount(u) == FreeCount(s) && FileCount(u, j) == FileCount(s, j)
    {
      CountUpdate(s, a, Cell(false, id), j);
      CountUpdate(t, b, Cell(true, id), j);
    }
  }

  /** Moving a whole file into free space keeps the number of free blocks
      and of every file's blocks. */
  lemma {:induction false} MovePreserves(s: seq<Cell>, to: int, from: int, len: int, id: int, i: int)
    requires 0 <= to && to + len <= from && from + len <= |s| && 0 <= i <= len
    requires AllFree(s, to + i, to + len)
    requires forall k :: from + i <= k < from + len ==> s[k] == Cell(false, id)
    ensures FreeCount(Move(s, to, from, len, id, i)) == FreeCount(s)
    ensures forall j :: FileCount(Move(s, to, from, len, id, i), j) == FileCount(s, j)
    decreases len - i
  {
    if i < len {
      var t := s[to + i := Cell(false, id)];
      var u := t[from + i := t[from + i].(free := true)];
      MoveStep(s, to + i, from + i, id);
      assert forall k :: 0 <= k < |s| && k != to + i && k != from + i ==> u[k] == s[k];
      MovePreserves(u, to, from, len, id, i + 1);
    }
  }

  /** Files up to `fileID` still sit, whole, where the grouping says. */
  predicate Intact(blocks: map<int, seq<int>>, s: seq<Cell>, fileID: int)
  {
    forall id, k ::
      (1 <= id <= fileID && id in blocks && |blocks[id]| > 0 &&
       blocks[id][0] <= k <= blocks[id][|blocks[id]| - 1] && 0 <= k < |s|) ==> s[k] == Cell(false, id)
  }

  lemma {:induction false} MoveCells(s: seq<Cell>, to: int, from: int, len: int, id: int, i: int, k: int)
    requires 0 <= to && to + len <= from && from + len <= |s| && 0 <= i <= len && 0 <= k < |s|
    ensures Move(s, to, from, len, id, i)[k] ==
      if to + i <= k < to + len then Cell(false, id)
      else if from + i <= k < from + len then s[k].(free := true)
      else s[k]
    decreases len - i
  {
    if i < len {
      var t := s[to + i := Cell(false, id)];
      MoveCells(t[from + i := t[from + i].(free := true)], to, from, len, id, i + 1, k);
    }
  }

  /** A free run found left of a whole file ends before the file starts. */
  lemma RunBeforeFile(s: seq<Cell>, first: int, last: int, id: int)
    requires 0 <= first <= last < |s|
    requires forall k :: first <= k <= last ==> s[k] == Cell(false, id)
    ensures var len := last - first + 1;
      var r := FreeRun(s, len, 0, 0);
      r != -1 && r < first ==> r + len <= first && AllFree(s, r, r + len)
  {
    var len := last - first + 1;
    FreeRunIsLeftmost(s, len);
    assert s[first] == Cell(false, id);
  }

  lemma RelocateStep(blocks: map<int, seq<int>>, s: seq<Cell>, fileID: int)
    requires Spans(blocks, |s|) && Intact(blocks, s, fileID)
    requires fileID >= 1 && fileID in blocks && |blocks[fileID]| > 0
    ensures var b := blocks[fileID];
      var r := Relocate(s, b[0], b[|b| - 1], fileID);
      && Intact(blocks, r, fileID - 1)
      && FreeCount(r) == FreeCount(s)
      && forall j :: FileCount(r, j) == FileCount(s, j)
  {
    var b := blocks[fileID];
    var first, last := b[0], b[|b| - 1];
    var len := last - first + 1;
    var freeStart := FreeRun(s, len, 0, 0);
    RunBeforeFile(s, first, last, fileID);
    if freeStart != -1 && freeStart < first {
      MovePreserves(s, freeStart, first, len, fileID, 0);
      var r := Move(s, freeStart, first, len, fileID, 0);
      forall id, k | 1 <= id <= fileID - 1 && id in blocks && |blocks[id]| > 0 &&
        blocks[id][0] <= k <= blocks[id][|blocks[id]| - 1] && 0 <= k < |s|
        ensures r[k] == Cell(false, id)
      {
        MoveCells(s, freeStart, first, len, fileID, 0, k);
        assert s[k] == Cell(false, id);
      }
    }
  }

  /** A relocation step leaves a block of file 0 (or of no file) alone. */
  lemma RelocateKeepsStep(blocks: map<int, seq<int>>, s: seq<Cell>, fileID: int, k: int)
    requires Spans(blocks, |s|) && Intact(blocks, s, fileID)
    requires fileID >= 1 && fileID in blocks && |blocks[fileID]| > 0
    requires 0 <= k < |s| && !s[k].free && s[k].fileNum <= 0
    ensures var b := blocks[fileID];
      Relocate(s, b[0], b[|b| - 1], fileID)[k] == s[k]
  {
    var b := blocks[fileID];
    var first, last := b[0], b[|b| - 1];
    var len := last - first + 1;
    var freeStart := FreeRun(s, len, 0, 0);
    RunBeforeFile(s, first, last, fileID);
    if freeStart != -1 && freeStart < first {
      MoveCells(s, freeStart, first, len, fileID, 0, k);
    }
  }

  /** The file loop of part 2 keeps the number of free blocks and of every
      file's blocks, as long as every file starts out whole. */
  lemma {:induction false} RelocateAllPreserves(blocks: map<int, seq<int>>, s: seq<Cell>, fileID: int)
    requires Spans(blocks, |s|) && Intact(blocks, s, fileID)
    ensures FreeCount(RelocateAll(blocks, s, fileID)) == FreeCount(s)
    ensures forall j :: FileCount(RelocateAll(blocks, s, fileID), j) == FileCount(s, j)
    decreases fileID
  {
    if fileID > 0 {
      if fileID !in blocks || |blocks[fileID]| == 0 {
        RelocateAllPreserves(blocks, s, fileID - 1);
      } else {
        var b := blocks[fileID];
        RelocateStep(blocks, s, fileID);
        RelocateAllPreserves(blocks, Relocate(s, b[0], b[|b| - 1], fileID), fileID - 1);
      }
    }
  }

  /** The file loop never touches a block of file 0: that file is never
      grouped, and every other file moves only into free blocks. */
  lemma {:induction false} RelocateAllKeeps(blocks: map<int, seq<int>>, s: seq<Cell>, fileID: int, k: int)
    requires Spans(blocks, |s|) && Intact(blocks, s, fileID)
    requires 0 <= k < |s| && !s[k].free && s[k].fileNum <= 0
    ensures RelocateAll(blocks, s, fileID)[k] == s[k]
    decreases fileID
  {
    if fileID > 0 {
      if fileID !in blocks || |blocks[fileID]| == 0 {
        RelocateAllKeeps(blocks, s, fileID - 1, k);
      } else {
        var b := blocks[fileID];
        RelocateStep(blocks, s, fileID);
        RelocateKeepsStep(blocks, s, fileID, k);
        RelocateAllKeeps(blocks, Relocate(s, b[0], b[|b| - 1], fileID), fileID - 1, k);
      }
    }
  }

  /** `fileBlocks` is built in one pass over the disk. */
  method GroupFiles(input: array<Cell>) returns (fileBlocks: map<int, seq<int>>)
    ensures fileBlocks == Group(input[..])
  {
    fileBlocks := map[];
    var i := 0;
    while i < input.Length
      invariant 0 <= i <= input.Length
      invariant fileBlocks == Group(input[..i])
    {
      assert input[..i + 1][..i] == input[..i];
      var space := input[i];
      if space.fileNum > 0 {
        var block := if space.fileNum in fileBlocks then fileBlocks[space.fileNum] else [];
        fileBlocks := fileBlocks[space.fileNum := block + [i]];
      }
      i := i + 1;
    }
    assert input[..input.Length] == input[..];
  }

  /** The free-space scan of `part2`. */
  method FindFreeSpan(input: array<Cell>, fileLen: int) returns (freeStart: int)
    requires fileLen >= 1
    ensures freeStart == FreeRun(input[..], fileLen, 0, 0)
  {
    freeStart := -1;
    var currentFreeLen := 0;
    var i := 0;
    while i < input.Length
      invariant 0 <= currentFreeLen < fileLen && currentFreeLen <= i <= input.Length
      invariant FreeRun(input[..], fileLen, i, currentFreeLen) == FreeRun(input[..], fileLen, 0, 0)
    {
      if input[i].free {
        currentFreeLen := currentFreeLen + 1;
        if currentFreeLen == fileLen {
          freeStart := i - fileLen + 1;
          return;
        }
      } else {
        currentFreeLen := 0;
      }
      i := i + 1;
    }
  }

  /** The relocation loop of `part2`. */
  method MoveFile(input: array<Cell>, freeStart: int, fileStart: int, fileLen: int, fileID: int)
    requires 0 <= freeStart && freeStart + fileLen <= input.Length
    requires 0 <= fileStart && fileStart + fileLen <= input.Length && fileLen >= 0
    modifies input
    ensures input[..] == Move(old(input[..]), freeStart, fileStart, fileLen, fileID, 0)
  {
    var i := 0;
    while i < fileLen
      invariant 0 <= i <= fileLen
      invariant Move(input[..], freeStart, fileStart, fileLen, fileID, i)
        == Move(old(input[..]), freeStart, fileStart, fileLen, fileID, 0)
    {
      ghost var before := input[..];
      input[freeStart + i] := input[freeStart + i].(free := false);
      input[freeStart + i] := input[freeStart + i].(fileNum := fileID);
      ghost var t := before[freeStart + i := Cell(false, fileID)];
      assert input[..] == t;
      input[fileStart + i] := input[fileStart + i].(free := true);
      assert input[..] == t[fileStart + i := t[fileStart + i].(free := true)];
      i := i + 1;
    }
  }

  /** The checksum loop of `part2`. */
  method Checksum2(input: array<Cell>) returns (sum: int)
    ensures sum == FilledChecksum(input[..], 0)
  {
    sum := 0;
    var index := 0;
    while index < input.Length
      invariant 0 <= index <= input.Length
      invariant sum + FilledChecksum(input[..], index) == FilledChecksum(input[..], 0)
    {
      if !input[index].free {
        sum := sum + index * input[index].fileNum;
      }
      index := index + 1;
    }
  }

  /** `part2`. */
  method Part2(input: array<Cell>, fileNum: int) returns (sum: int)
    modifies input
    ensures input[..] == Defragment(old(input[..]), fileNum)
    ensures sum == FilledChecksum(input[..], 0)
  {
    var fileBlocks := GroupFiles(input);
    GroupSpans(input[..]);
    var fileID := fileNum;
    while fileID > 0
      invariant input.Length == |old(input[..])|
      invariant RelocateAll(fileBlocks, input[..], fileID) == Defragment(old(input[..]), fileNum)
    {
      if fileID !in fileBlocks || |fileBlocks[fileID]| == 0 {
        fileID := fileID - 1;
        continue;
      }
      var block := fileBlocks[fileID];
      var fileStart, fileEnd := block[0], block[|block| - 1];
      var fileLen := fileEnd - fileStart + 1;
      var freeStart := FindFreeSpan(input, fileLen);
      if freeStart != -1 && freeStart < fileStart {
        MoveFile(input, freeStart, fileStart, fileLen, fileID);
      }
      fileID := fileID - 1;
    }
    sum := Checksum2(input);
  }

  // ---------------------------------------------------------------------
  // part 2 on a decompressed disk

  /** Every block between two blocks of the same file belongs to it too. */
  predicate Contiguous(e: seq<Cell>)
  {
    forall i, k, j :: 0 <= i <= k <= j < |e| && e[i].fileNum == e[j].fileNum >= 0 ==> e[k] == e[i]
  }

  /** Each file of the expanded disk occupies one contiguous run. */
  lemma {:induction false} ExpandContiguous(ds: seq<nat>)
    ensures Contiguous(Expand(ds))
  {
    if |ds| > 0 {
      var init := ds[..|ds| - 1];
      var e0 := Expand(init);
      var c := CellFor(|ds| - 1);
      var e := Expand(ds);
      ExpandContiguous(init);
      ExpandCells(init);
      RunFacts(ds[|ds| - 1], c);
      assert e == e0 + Run(ds[|ds| - 1], c);
      forall i, k, j | 0 <= i <= k <= j < |e| && e[i].fileNum == e[j].fileNum >= 0
        ensures e[k] == e[i]
      {
        if j < |e0| {
          assert e[i] == e0[i] && e[k] == e0[k] && e[j] == e0[j];
        } else if i >= |e0| {
          assert e[i] == Run(ds[|ds| - 1], c)[i - |e0|];
          assert e[k] == Run(ds[|ds| - 1], c)[k - |e0|];
        } else {
          assert false;
        }
      }
    }
  }

  /** On a decompressed disk every grouped file sits whole in its span. */
  lemma ExpandIntact(ds: seq<nat>, fileID: int)
    ensures Intact(Group(Expand(ds)), Expand(ds), fileID)
  {
    var e := Expand(ds);
    var g := Group(e);
    GroupMembers(e);
    GroupIncreasing(e);
    ExpandContiguous(ds);
    ExpandCells(ds);
    forall id, k | 1 <= id <= fileID && id in g && |g[id]| > 0 &&
      g[id][0] <= k <= g[id][|g[id]| - 1] && 0 <= k < |e|
      ensures e[k] == Cell(false, id)
    {
      var first, last := g[id][0], g[id][|g[id]| - 1];
      assert Listed(g, id, first) && Listed(g, id, last);
      assert e[first] in e;
    }
  }

  /** Part 2 on a decompressed disk keeps the number of free blocks and of
      every file's blocks. */
  lemma DefragmentCounts(ds: seq<nat>, fileNum: int)
    ensures FreeCount(Defragment(Expand(ds), fileNum)) == FreeCount(Expand(ds))
    ensures forall j :: FileCount(Defragment(Expand(ds), fileNum), j) == FileCount(Expand(ds), j)
  {
    var e := Expand(ds);
    GroupSpans(e);
    ExpandIntact(ds, fileNum);
    RelocateAllPreserves(Group(e), e, fileNum);
  }

  /** Part 2 on a decompressed disk never moves a block of file 0. */
  lemma DefragmentKeepsFileZero(ds: seq<nat>, fileNum: int, k: int)
    requires 0 <= k < |Expand(ds)| && Expand(ds)[k] == Cell(false, 0)
    ensures Defragment(Expand(ds), fileNum)[k] == Cell(false, 0)
  {
    var e := Expand(ds);
    GroupSpans(e);
    ExpandIntact(ds, fileNum);
    RelocateAllKeeps(Group(e), e, fileNum, k);
  }
}
