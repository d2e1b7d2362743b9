/** Day 17: run the three-bit computer (part 1), and search for an initial
    register `a` that makes the program print itself (part 2). The search
    rebuilds `a` three bits at a time from the last program value back to
    the first: at each level it tries `a+0 .. a+7` on a one-shot run of the
    computer and keeps the offsets whose first output is the value wanted. */
module Day17 {
  import opened Wrappers
  import opened Text
  import opened Sorting
  import opened ThreeBitComputer
  import HashSetUntil

  /** The first output of a one-shot run (`OneTime` set) of the program
      from registers (a, 0, 0), parsed back to an integer; None when the
      run exits on a bad opcode, panics, or prints nothing (`result[0]` on
      an empty slice). A one-shot run stops within |program| instructions
      (`RunOneTimeHalts`), so that budget loses nothing. */
  function FirstOutput(a: int, program: seq<int>): Option<int>
  {
    var (m, outcome) := RunSpec(Machine(a, 0, 0, 0, false, true, []), program, 0, |program|);
    if outcome != Halted || |m.out| == 0 then None else Atoi(m.out[0])
  }

  /** The search below is stated for any `probe` standing for
      `x => FirstOutput(x, program)`, so that reasoning about the search
      does not re-run the machine. */
  ghost predicate IsProbe(probe: int -> Option<int>, program: seq<int>)
  {
    forall x {:trigger FirstOutput(x, program)} :: probe(x) == FirstOutput(x, program)
  }

  // ---------------------------------------------------------------------
  // The candidates of one level.

  /** The offsets i in 0 .. n-1, ascending, whose probe prints `val`
      first; None if one of those runs crashes. */
  function Candidates(probe: int -> Option<int>, a: int, val: int, n: nat): Option<seq<int>>
  {
    if n == 0 then Some([])
    else
      match Candidates(probe, a, val, n - 1)
      case None => None
      case Some(cs) =>
        match probe(a + (n - 1))
        case None => None
        case Some(v) => Some(if v == val then cs + [n - 1] else cs)
  }

  /** The candidate list is exactly the offsets below n whose probe prints
      `val` first, in ascending order; it is None exactly when one of the
      runs crashes. */
  lemma {:induction false} CandidatesSpec(probe: int -> Option<int>, a: int, val: int, n: nat)
    ensures Candidates(probe, a, val, n).None? <==> exists x :: a <= x < a + n && probe(x).None?
    ensures Candidates(probe, a, val, n).Some? ==>
      var cs := Candidates(probe, a, val, n).value;
      (forall i :: 0 <= i < |cs| ==> 0 <= cs[i] < n) &&
      (forall i, j :: 0 <= i < j < |cs| ==> cs[i] < cs[j]) &&
      (forall i :: 0 <= i < n ==> (i in cs <==> probe(a + i) == Some(val)))
  {
    if n > 0 {
      CandidatesSpec(probe, a, val, n - 1);
      if Candidates(probe, a, val, n - 1).None? {
      } else if probe(a + n - 1).None? {
        assert a <= a + n - 1 < a + n;
      } else {
        forall x | a <= x < a + n
          ensures probe(x).Some?
        {
          if x < a + n - 1 {
            assert !(a <= x < a + n - 1 && probe(x).None?);
          }
        }
      }
    }
  }

  /** The candidate list never repeats an offset. */
  lemma CandidatesDistinct(probe: int -> Option<int>, a: int, val: int, n: nat)
    requires Candidates(probe, a, val, n).Some?
    ensures Distinct(Candidates(probe, a, val, n).value)
  {
    CandidatesSpec(probe, a, val, n);
  }

  /** One more offset: its probe decides whether the list crashes or
      grows. */
  lemma CandidatesNext(probe: int -> Option<int>, a: int, val: int, n: nat, cs: seq<int>)
    requires Candidates(probe, a, val, n) == Some(cs)
    ensures Candidates(probe, a, val, n + 1) ==
      if probe(a + n).None? then None else Some(if probe(a + n).value == val then cs + [n] else cs)
  {
  }

  /** Once a run below k crashes, the candidate list of every n >= k
      crashes. */
  lemma {:induction false} CandidatesCrash(probe: int -> Option<int>, a: int, val: int, k: nat, n: nat)
    requires k <= n
    requires Candidates(probe, a, val, k).None?
    ensures Candidates(probe, a, val, n).None?
    decreases n
  {
    if k < n {
      CandidatesCrash(probe, a, val, k, n - 1);
    }
  }

  /** The offsets `findSolutions` keeps out of a+0 .. a+7. */
  function Tries(probe: int -> Option<int>, a: int, val: int): Option<seq<int>>
  {
    Candidates(probe, a, val, 8)
  }

  /** The search is stated for any `tries` standing for `Tries` over the
      probe, so that reasoning about one level does not unfold the eight
      tries of every level below it. */
  ghost predicate IsTries(tries: (int, int) -> Option<seq<int>>, probe: int -> Option<int>)
  {
    forall a, val {:trigger Tries(probe, a, val)} :: tries(a, val) == Tries(probe, a, val)
  }

  lemma TriesAt(probe: int -> Option<int>, tries: (int, int) -> Option<seq<int>>, a: int, val: int, n: nat)
    requires IsTries(tries, probe) && n == 8
    ensures tries(a, val) == Candidates(probe, a, val, n)
  {
    assert tries(a, val) == Tries(probe, a, val);
  }

  lemma TriesCrash(probe: int -> Option<int>, tries: (int, int) -> Option<seq<int>>, a: int, val: int, k: nat)
    requires IsTries(tries, probe) && k <= 8
    requires Candidates(probe, a, val, k).None?
    ensures tries(a, val).None?
  {
    CandidatesCrash(probe, a, val, k, 8);
    TriesAt(probe, tries, a, val, 8);
  }

  /** What one level keeps out of a+0 .. a+7: distinct offsets below 8,
      exactly those whose probe prints `val` first; None exactly when one
      of the eight runs crashes. */
  lemma TriesSpec(probe: int -> Option<int>, tries: (int, int) -> Option<seq<int>>, a: int, val: int)
    requires IsTries(tries, probe)
    ensures tries(a, val).None? <==> exists x :: a <= x < a + 8 && probe(x).None?
    ensures tries(a, val).Some? ==>
      var cs := tries(a, val).value;
      (forall i :: 0 <= i < |cs| ==> 0 <= cs[i] < 8) && Distinct(cs) &&
      (forall i :: 0 <= i < 8 ==> (i in cs <==> probe(a + i) == Some(val)))
  {
    CandidatesSpec(probe, a, val, 8);
    TriesAt(probe, tries, a, val, 8);
  }

  lemma TriesBounds(probe: int -> Option<int>, tries: (int, int) -> Option<seq<int>>, a: int, val: int)
    requires IsTries(tries, probe)
    ensures tries(a, val).Some? ==> forall i :: 0 <= i < |tries(a, val).value| ==> 0 <= tries(a, val).value[i] < 8
  {
    TriesSpec(probe, tries, a, val);
  }

  /** a + c for every offset c of `cs`, in order. */
  function Shift(a: int, cs: seq<int>): seq<int>
  {
    if |cs| == 0 then [] else Shift(a, cs[..|cs| - 1]) + [a + cs[|cs| - 1]]
  }

  lemma {:induction false} ShiftElements(a: int, cs: seq<int>)
    ensures |Shift(a, cs)| == |cs|
    ensures forall k :: 0 <= k < |cs| ==> Shift(a, cs)[k] == a + cs[k]
  {
    if |cs| > 0 {
      ShiftElements(a, cs[..|cs| - 1]);
    }
  }

  lemma ShiftAppend(a: int, cs: seq<int>, c: int)
    ensures Shift(a, cs + [c]) == Shift(a, cs) + [a + c]
  {
    assert (cs + [c])[..|cs|] == cs;
  }

  /** The index a member of the shifted list comes from. */
  lemma ShiftMember(a: int, cs: seq<int>, x: int) returns (i: nat)
    requires x in multiset(Shift(a, cs))
    ensures i < |cs| && x == a + cs[i]
  {
    ShiftElements(a, cs);
    assert x in Shift(a, cs);
    i :| i < |cs| && Shift(a, cs)[i] == x;
  }

  // ---------------------------------------------------------------------
  // Running one recursive call per candidate, in the order of a list.

  /** Every call in `cs`, taken in order, succeeds. */
  predicate AllOk(cs: seq<int>, ok: int -> bool)
  {
    |cs| == 0 || (AllOk(cs[..|cs| - 1], ok) && ok(cs[|cs| - 1]))
  }

  /** What the calls in `cs` record, together. */
  function SumFound(cs: seq<int>, found: int -> multiset<int>): multiset<int>
  {
    if |cs| == 0 then multiset{} else SumFound(cs[..|cs| - 1], found) + found(cs[|cs| - 1])
  }

  predicate Distinct(s: seq<int>)
  {
    forall i, j :: 0 <= i < j < |s| ==> s[i] != s[j]
  }

  /** Taking one call out of the list and making it last changes nothing. */
  /** Taking call j out of the list. */
  lemma {:induction false} RemoveOk(cs: seq<int>, ok: int -> bool, j: nat)
    requires j < |cs|
    ensures AllOk(cs, ok) <==> AllOk(cs[..j] + cs[j + 1..], ok) && ok(cs[j])
    decreases |cs|
  {
    var n := |cs|;
    var without := cs[..j] + cs[j + 1..];
    if j == n - 1 {
      assert without == cs[..n - 1];
    } else {
      var init := cs[..n - 1];
      assert without[..|without| - 1] == init[..j] + init[j + 1..];
      assert without[|without| - 1] == cs[n - 1];
      assert init[j] == cs[j];
      RemoveOk(init, ok, j);
      assert AllOk(without, ok) == (AllOk(without[..|without| - 1], ok) && ok(cs[n - 1]));
    }
  }

  /** Taking call j out of the list. */
  lemma {:induction false} RemoveFound(cs: seq<int>, found: int -> multiset<int>, j: nat)
    requires j < |cs|
    ensures SumFound(cs, found) == SumFound(cs[..j] + cs[j + 1..], found) + found(cs[j])
    decreases |cs|
  {
    var n := |cs|;
    var without := cs[..j] + cs[j + 1..];
    if j == n - 1 {
      assert without == cs[..n - 1];
    } else {
      var init := cs[..n - 1];
      assert without[..|without| - 1] == init[..j] + init[j + 1..];
      assert without[|without| - 1] == cs[n - 1];
      assert init[j] == cs[j];
      RemoveFound(init, found, j);
      assert SumFound(without, found) == SumFound(without[..|without| - 1], found) + found(cs[n - 1]);
    }
  }

  lemma MultisetWithout(ys: seq<int>, j: nat)
    requires j < |ys|
    ensures multiset(ys[..j] + ys[j + 1..]) == multiset(ys) - multiset{ys[j]}
  {
    assert ys == ys[..j] + [ys[j]] + ys[j + 1..];
  }

  /** The calls may run in any order: two lists of the same candidates
      succeed together and record the same values. The Go code iterates
      over `candidates.ToSlice()`, whose order is unspecified. */
  lemma {:induction false} CallOrder(xs: seq<int>, ys: seq<int>, ok: int -> bool, found: int -> multiset<int>)
    requires multiset(xs) == multiset(ys)
    ensures AllOk(xs, ok) == AllOk(ys, ok)
    ensures SumFound(xs, found) == SumFound(ys, found)
    decreases |xs|
  {
    if |xs| > 0 {
      var n := |xs|;
      var x := xs[n - 1];
      var xs' := xs[..n - 1];
      assert xs == xs' + [x];
      assert x in multiset(ys);
      var j :| 0 <= j < |ys| && ys[j] == x;
      var ys' := ys[..j] + ys[j + 1..];
      MultisetWithout(ys, j);
      assert multiset(xs') == multiset(xs) - multiset{x};
      CallOrder(xs', ys', ok, found);
      RemoveOk(ys, ok, j);
      RemoveFound(ys, found, j);
    } else {
      assert |ys| == |multiset(ys)| == 0;
    }
  }

  /** A duplicate-free list holds each of its members once. */
  lemma {:induction false} DistinctCount(s: seq<int>)
    requires Distinct(s)
    ensures forall c :: multiset(s)[c] == if c in s then 1 else 0
  {
    if |s| > 0 {
      var init := s[..|s| - 1];
      DistinctCount(init);
      assert s == init + [s[|s| - 1]];
      assert s[|s| - 1] !in init;
    }
  }

  /** Two duplicate-free lists with the same members are permutations of
      each other. */
  lemma SameMembers(xs: seq<int>, ys: seq<int>)
    requires Distinct(xs) && Distinct(ys)
    requires forall c :: c in xs <==> c in ys
    ensures multiset(xs) == multiset(ys)
  {
    DistinctCount(xs);
    DistinctCount(ys);
    assert forall c :: multiset(xs)[c] == multiset(ys)[c];
  }

  // ---------------------------------------------------------------------
  // The search.

  /** `findSolutions(a, program, values, results, level)` runs without a
      crash; `size` is len(program). */
  predicate SearchOk(tries: (int, int) -> Option<seq<int>>, size: nat, a: int, values: seq<int>, level: int)
    decreases |values|, 1, 0
  {
    |values| == 0 ||
    (tries(a, values[|values| - 1]).Some? &&
     BranchesOk(tries, size, a, values[..|values| - 1], level, tries(a, values[|values| - 1]).value))
  }

  /** The recursive calls for the candidate offsets `cs`, taken in order,
      all run without a crash. */
  predicate BranchesOk(tries: (int, int) -> Option<seq<int>>, size: nat, a: int, rest: seq<int>, level: int, cs: seq<int>)
    decreases |rest| + 1, 0, |cs|
  {
    |cs| == 0 ||
    (BranchesOk(tries, size, a, rest, level, cs[..|cs| - 1]) &&
     SearchOk(tries, size, (a + cs[|cs| - 1]) * 8, rest, level + 1))
  }

  /** What `findSolutions` appends to `results`, as a multiset (the order
      depends on map iteration); meaningful when `SearchOk` holds. A value
      a+i is appended when candidate i is found at level len(program). */
  function SearchFound(tries: (int, int) -> Option<seq<int>>, size: nat, a: int, values: seq<int>, level: int): multiset<int>
    decreases |values|, 1, 0
  {
    if |values| == 0 then multiset{}
    else
      match tries(a, values[|values| - 1])
      case None => multiset{}
      case Some(cs) =>
        (if level == size then multiset(Shift(a, cs)) else multiset{}) +
        BranchesFound(tries, size, a, values[..|values| - 1], level, cs)
  }

  /** What the recursive calls for the candidate offsets `cs` append. */
  function BranchesFound(tries: (int, int) -> Option<seq<int>>, size: nat, a: int, rest: seq<int>, level: int, cs: seq<int>): multiset<int>
    decreases |rest| + 1, 0, |cs|
  {
    if |cs| == 0 then multiset{}
    else BranchesFound(tries, size, a, rest, level, cs[..|cs| - 1]) +
         SearchFound(tries, size, (a + cs[|cs| - 1]) * 8, rest, level + 1)
  }

  /** The recursive call for candidate `c`: (a+c)*8 with the last value
      popped, one level deeper. */
  function DescentOk(tries: (int, int) -> Option<seq<int>>, size: nat, a: int, rest: seq<int>, level: int): int -> bool
  {
    c => SearchOk(tries, size, (a + c) * 8, rest, level + 1)
  }

  function DescentFound(tries: (int, int) -> Option<seq<int>>, size: nat, a: int, rest: seq<int>, level: int): int -> multiset<int>
  {
    c => SearchFound(tries, size, (a + c) * 8, rest, level + 1)
  }

  /** The branches are the list of calls above, one per candidate. */
  lemma {:induction false} BranchesAreCalls(tries: (int, int) -> Option<seq<int>>, size: nat, a: int, rest: seq<int>, level: int, cs: seq<int>)
    ensures BranchesOk(tries, size, a, rest, level, cs) == AllOk(cs, DescentOk(tries, size, a, rest, level))
    ensures BranchesFound(tries, size, a, rest, level, cs) == SumFound(cs, DescentFound(tries, size, a, rest, level))
  {
    if |cs| > 0 {
      BranchesAreCalls(tries, size, a, rest, level, cs[..|cs| - 1]);
    }
  }

  /** The branches may run in any order. */
  lemma BranchesOrder(tries: (int, int) -> Option<seq<int>>, size: nat, a: int, rest: seq<int>, level: int, xs: seq<int>, ys: seq<int>)
    requires Distinct(xs) && Distinct(ys)
    requires forall c :: c in xs <==> c in ys
    ensures BranchesOk(tries, size, a, rest, level, xs) == BranchesOk(tries, size, a, rest, level, ys)
    ensures BranchesFound(tries, size, a, rest, level, xs) == BranchesFound(tries, size, a, rest, level, ys)
  {
    BranchesAreCalls(tries, size, a, rest, level, xs);
    BranchesAreCalls(tries, size, a, rest, level, ys);
    SameMembers(xs, ys);
    CallOrder(xs, ys, DescentOk(tries, size, a, rest, level), DescentFound(tries, size, a, rest, level));
  }

  /** Taking one more candidate adds its recursive call. */
  lemma BranchesStep(tries: (int, int) -> Option<seq<int>>, size: nat, a: int, rest: seq<int>, level: int, cs: seq<int>, k: nat)
    requires k < |cs|
    ensures BranchesOk(tries, size, a, rest, level, cs[..k + 1]) ==
      (BranchesOk(tries, size, a, rest, level, cs[..k]) && SearchOk(tries, size, (a + cs[k]) * 8, rest, level + 1))
    ensures BranchesFound(tries, size, a, rest, level, cs[..k + 1]) ==
      BranchesFound(tries, size, a, rest, level, cs[..k]) + SearchFound(tries, size, (a + cs[k]) * 8, rest, level + 1)
  {
    assert cs[..k + 1][..k] == cs[..k];
  }

  lemma BranchesAll(tries: (int, int) -> Option<seq<int>>, size: nat, a: int, rest: seq<int>, level: int, cs: seq<int>, k: nat)
    requires k == |cs|
    ensures BranchesOk(tries, size, a, rest, level, cs[..k]) == BranchesOk(tries, size, a, rest, level, cs)
    ensures BranchesFound(tries, size, a, rest, level, cs[..k]) == BranchesFound(tries, size, a, rest, level, cs)
  {
    assert cs[..k] == cs;
  }

  /** A crash in one branch makes the whole list crash. */
  lemma {:induction false} BranchesCrash(tries: (int, int) -> Option<seq<int>>, size: nat, a: int, rest: seq<int>, level: int, cs: seq<int>, k: nat)
    requires k <= |cs|
    requires !BranchesOk(tries, size, a, rest, level, cs[..k])
    ensures !BranchesOk(tries, size, a, rest, level, cs)
    decreases |cs| - k
  {
    if k < |cs| {
      assert cs[..k + 1][..k] == cs[..k];
      BranchesCrash(tries, size, a, rest, level, cs, k + 1);
    } else {
      assert cs[..k] == cs;
    }
  }

  /** Every value the search records was recorded at level `size`, that is
      after size - level descents, so its probe prints the value that many
      places from the end of `values`; no negative value is recorded when
      the search starts from a non-negative `a`. */
  lemma {:induction false} SearchSound(probe: int -> Option<int>, tries: (int, int) -> Option<seq<int>>,
                                       size: nat, a: int, values: seq<int>, level: int, x: int)
    requires IsTries(tries, probe)
    requires x in SearchFound(tries, size, a, values, level)
    ensures level <= size < level + |values|
    ensures probe(x) == Some(values[|values| - 1 - (size - level)])
    ensures a >= 0 ==> x >= 0
    decreases |values|, 1, 0
  {
    var val := values[|values| - 1];
    var rest := values[..|values| - 1];
    SearchFoundSplit(tries, size, a, values, level, x);
    var cs := tries(a, val).value;
    if level == size && x in multiset(Shift(a, cs)) {
      TriesSpec(probe, tries, a, val);
      var i := ShiftMember(a, cs, x);
      assert cs[i] in cs;
    } else {
      TriesBounds(probe, tries, a, val);
      BranchesSound(probe, tries, size, a, rest, level, cs, x);
      PrefixIndex(values, size - level);
    }
  }

  /** A recorded value comes from this level's candidates or from one of
      the branches below. */
  lemma SearchFoundSplit(tries: (int, int) -> Option<seq<int>>, size: nat, a: int, values: seq<int>, level: int, x: int)
    requires x in SearchFound(tries, size, a, values, level)
    ensures |values| > 0 && tries(a, values[|values| - 1]).Some?
    ensures var cs := tries(a, values[|values| - 1]).value;
      (level == size && x in multiset(Shift(a, cs))) ||
      x in BranchesFound(tries, size, a, values[..|values| - 1], level, cs)
  {
  }

  lemma {:induction false} BranchesSound(probe: int -> Option<int>, tries: (int, int) -> Option<seq<int>>,
                                         size: nat, a: int, rest: seq<int>, level: int, cs: seq<int>, x: int)
    requires IsTries(tries, probe)
    requires x in BranchesFound(tries, size, a, rest, level, cs)
    requires forall i :: 0 <= i < |cs| ==> 0 <= cs[i] < 8
    ensures level + 1 <= size < level + 1 + |rest|
    ensures probe(x) == Some(rest[|rest| - 1 - (size - (level + 1))])
    ensures a >= 0 ==> x >= 0
    decreases |rest| + 1, 0, |cs|
  {
    var n := |cs|;
    BranchesFoundSplit(tries, size, a, rest, level, cs, x);
    if x in BranchesFound(tries, size, a, rest, level, cs[..n - 1]) {
      BranchesSound(probe, tries, size, a, rest, level, cs[..n - 1], x);
    } else {
      SearchSound(probe, tries, size, (a + cs[n - 1]) * 8, rest, level + 1, x);
    }
  }

  /** A value recorded by the branches is recorded by the last one or by
      those before it. */
  lemma BranchesFoundSplit(tries: (int, int) -> Option<seq<int>>, size: nat, a: int, rest: seq<int>, level: int,
                           cs: seq<int>, x: int)
    requires x in BranchesFound(tries, size, a, rest, level, cs)
    ensures |cs| > 0
    ensures x in BranchesFound(tries, size, a, rest, level, cs[..|cs| - 1]) ||
      x in SearchFound(tries, size, (a + cs[|cs| - 1]) * 8, rest, level + 1)
  {
  }

  lemma PrefixIndex(values: seq<int>, d: int)
    requires 1 <= d < |values|
    ensures var rest := values[..|values| - 1];
      rest[|rest| - 1 - (d - 1)] == values[|values| - 1 - d]
  {
  }

  /** One try of `findSolutions`: a one-shot computer from (a, 0, 0), and
      its first output parsed; None where the Go process would end. */
  method FirstValue(a: int, program: seq<int>, ghost probe: int -> Option<int>) returns (firstVal: Option<int>)
    requires IsProbe(probe, program)
    ensures firstVal == probe(a)
  {
    assert probe(a) == FirstOutput(a, program);
    var comp := new Computer(a, 0, 0);
    comp.oneTime := true;
    var outcome := comp.Run(program, |program|);
    var result := comp.outResults;
    if outcome != Halted || |result| == 0 {
      return None;
    }
    firstVal := Atoi(result[0]);
  }

  /** The first loop of `findSolutions`: try a+0 .. a+7, collect the
      offsets whose first output is `val` into a fresh set, and append a+i
      to `results` for each of them at level len(program). `crashed`
      reports a run that ends the Go process. */
  method TryOffsets(a: int, program: seq<int>, val: int, results: seq<int>, level: int,
                    ghost probe: int -> Option<int>, ghost tries: (int, int) -> Option<seq<int>>)
    returns (candidates: HashSetUntil.HashSet<int>, found: seq<int>, crashed: bool)
    requires IsProbe(probe, program) && IsTries(tries, probe)
    ensures fresh(candidates)
    ensures crashed <==> tries(a, val).None?
    ensures !crashed ==>
      (forall c :: candidates.Contains(c) <==> c in tries(a, val).value) &&
      found == results + (if level == |program| then Shift(a, tries(a, val).value) else [])
  {
    found := results;
    candidates := HashSetUntil.NewHashSet();
    ghost var chosen: seq<int> := [];
    var i := 0;
    while i < 8
      invariant 0 <= i <= 8
      invariant fresh(candidates)
      invariant forall c :: candidates.Contains(c) <==> c in chosen
      invariant Candidates(probe, a, val, i) == Some(chosen)
      invariant found == results + (if level == |program| then Shift(a, chosen) else [])
    {
      var hit;
      hit, found := TryOffset(a, program, val, i, level, candidates, found, probe);
      CandidatesNext(probe, a, val, i, chosen);
      if hit.None? {
        TriesCrash(probe, tries, a, val, i + 1);
        return candidates, found, true;
      }
      if hit.value {
        ShiftAppend(a, chosen, i);
        chosen := chosen + [i];
      }
      i := i + 1;
    }
    TriesAt(probe, tries, a, val, i);
    assert tries(a, val).value == chosen;
    return candidates, found, false;
  }

  /** One pass of the first loop of `findSolutions`: run a+i, and on a
      first output equal to `val` add offset i to the set and, at level
      len(program), record a+i. `hit` is None when the run crashes. */
  method TryOffset(a: int, program: seq<int>, val: int, i: int, level: int,
                   candidates: HashSetUntil.HashSet<int>, found: seq<int>, ghost probe: int -> Option<int>)
    returns (hit: Option<bool>, recorded: seq<int>)
    requires IsProbe(probe, program)
    modifies candidates
    ensures hit == if probe(a + i).None? then None else Some(probe(a + i).value == val)
    ensures hit == Some(true) ==>
      candidates.data == old(candidates.data) + {i} &&
      recorded == found + (if level == |program| then [a + i] else [])
    ensures hit != Some(true) ==> candidates.data == old(candidates.data) && recorded == found
  {
    recorded := found;
    var firstVal := FirstValue(a + i, program, probe);
    if firstVal.None? {
      return None, recorded;
    }
    if firstVal.value == val {
      candidates.Add(i);
      if level == |program| {
        recorded := recorded + [a + i];
      }
    }
    return Some(firstVal.value == val), recorded;
  }

  /** `findSolutions`, appending to `results`; `crashed` reports a run of
      the computer that exits or panics, which ends the Go process. */
  method FindSolutions(a: int, program: seq<int>, values: seq<int>, results: seq<int>, level: int,
                       ghost probe: int -> Option<int>, ghost tries: (int, int) -> Option<seq<int>>)
    returns (found: seq<int>, crashed: bool)
    requires IsProbe(probe, program) && IsTries(tries, probe)
    ensures crashed <==> !SearchOk(tries, |program|, a, values, level)
    ensures !crashed ==> multiset(found) == multiset(results) + SearchFound(tries, |program|, a, values, level)
    decreases |values|, 1
  {
    found := results;
    if |values| == 0 {
      return found, false;
    }
    var val := values[|values| - 1];
    var rest := values[..|values| - 1];

    var candidates;
    candidates, found, crashed := TryOffsets(a, program, val, results, level, probe, tries);
    if crashed {
      return found, true;
    }
    ghost var chosen := tries(a, val).value;
    TriesSpec(probe, tries, a, val);
    var keys := candidates.ToSlice();
    BranchesOrder(tries, |program|, a, rest, level, keys, chosen);
    ghost var recorded := found;
    found, crashed := Descend(a, program, rest, keys, found, level, probe, tries);
    assert !crashed ==>
      multiset(found) == multiset(results) + multiset(recorded[|results|..]) + BranchesFound(tries, |program|, a, rest, level, chosen);
  }

  lemma UnionStep(results: multiset<int>, done: multiset<int>, next: multiset<int>, before: multiset<int>, after: multiset<int>)
    requires before == results + done && after == before + next
    ensures after == results + (done + next)
  {
  }

  /** The second loop of `findSolutions`: one recursive call per candidate,
      in the order of `keys`, each on (a + candidate) * 8 with the last
      value popped and one level deeper. */
  method Descend(a: int, program: seq<int>, rest: seq<int>, keys: seq<int>, results: seq<int>, level: int,
                 ghost probe: int -> Option<int>, ghost tries: (int, int) -> Option<seq<int>>)
    returns (found: seq<int>, crashed: bool)
    requires IsProbe(probe, program) && IsTries(tries, probe)
    ensures crashed <==> !BranchesOk(tries, |program|, a, rest, level, keys)
    ensures !crashed ==> multiset(found) == multiset(results) + BranchesFound(tries, |program|, a, rest, level, keys)
    decreases |rest| + 1, 0
  {
    found := results;
    var k := 0;
    while k < |keys|
      invariant 0 <= k <= |keys|
      invariant BranchesOk(tries, |program|, a, rest, level, keys[..k])
      invariant multiset(found) == multiset(results) + BranchesFound(tries, |program|, a, rest, level, keys[..k])
      decreases |keys| - k
    {
      var candidate := keys[k];
      BranchesStep(tries, |program|, a, rest, level, keys, k);
      ghost var before := found;
      var subCrashed;
      found, subCrashed := FindSolutions((a + candidate) * 8, program, rest, found, level + 1, probe, tries);
      if subCrashed {
        BranchesCrash(tries, |program|, a, rest, level, keys, k + 1);
        return found, true;
      }
      UnionStep(multiset(results), BranchesFound(tries, |program|, a, rest, level, keys[..k]),
                SearchFound(tries, |program|, (a + candidate) * 8, rest, level + 1),
                multiset(before), multiset(found));
      k := k + 1;
    }
    BranchesAll(tries, |program|, a, rest, level, keys, k);
    return found, false;
  }

  /** Part 2: the smallest recorded value, after sorting the results; None
      when a run crashes or nothing is recorded (`results[0]` panics). */
  method Part2(program: seq<int>, ghost probe: int -> Option<int>, ghost tries: (int, int) -> Option<seq<int>>)
    returns (answer: Option<int>)
    requires IsProbe(probe, program) && IsTries(tries, probe)
    ensures !SearchOk(tries, |program|, 0, program, 1) ==> answer.None?
    ensures answer.Some? ==>
      answer.value in SearchFound(tries, |program|, 0, program, 1) &&
      forall x :: x in SearchFound(tries, |program|, 0, program, 1) ==> answer.value <= x
    ensures answer.None? && SearchOk(tries, |program|, 0, program, 1) ==>
      SearchFound(tries, |program|, 0, program, 1) == multiset{}
  {
    var results, crashed := FindSolutions(0, program, program, [], 1, probe, tries);
    if crashed {
      return None;
    }
    var sorted := SortInts(results);
    if |sorted| == 0 {
      return None;
    }
    SortIntsHeadIsMin(results);
    assert multiset(results) == SearchFound(tries, |program|, 0, program, 1);
    assert sorted[0] in multiset(results);
    return Some(sorted[0]);
  }

  /** Every value part 2 may report is a non-negative `a` whose one-shot
      run prints the first program value first. */
  lemma Part2Answer(program: seq<int>, probe: int -> Option<int>, tries: (int, int) -> Option<seq<int>>, x: int)
    requires IsProbe(probe, program) && IsTries(tries, probe)
    requires x in SearchFound(tries, |program|, 0, program, 1)
    ensures x >= 0 && FirstOutput(x, program) == Some(program[0])
  {
    SearchSound(probe, tries, |program|, 0, program, 1, x);
  }

  /** Part 1: run the program from the given registers; the run may not
      halt, so it is given a step budget. */
  method Part1(a: int, b: int, c: int, program: seq<int>, fuel: nat) returns (output: seq<string>, outcome: Outcome)
    ensures var (m, o) := RunSpec(Machine(a, b, c, 0, false, false, []), program, 0, fuel);
      output == m.out && outcome == o
  {
    var comp := new Computer(a, b, c);
    outcome := comp.Run(program, fuel);
    output := comp.outResults;
  }

  // ---------------------------------------------------------------------
  // Input.

  /** The tokens of the lines, in order. */
  function Flatten(lines: seq<seq<string>>): seq<string>
  {
    if |lines| == 0 then [] else lines[0] + Flatten(lines[1..])
  }

  /** Every token parsed, in order; None if one does not parse. */
  function ParseTokens(tokens: seq<string>): Option<seq<int>>
  {
    if |tokens| == 0 then Some([])
    else
      match ParseTokens(tokens[..|tokens| - 1])
      case None => None
      case Some(vs) =>
        match Atoi(tokens[|tokens| - 1])
        case None => None
        case Some(v) => Some(vs + [v])
  }

  /** A token that does not parse spoils every longer list. */
  lemma {:induction false} ParseTokensFails(tokens: seq<string>, more: seq<string>)
    requires ParseTokens(tokens).None?
    ensures ParseTokens(tokens + more).None?
    decreases |more|
  {
    if |more| == 0 {
      assert tokens + more == tokens;
    } else {
      var init := more[..|more| - 1];
      ParseTokensFails(tokens, init);
      assert (tokens + more)[..|tokens + more| - 1] == tokens + init;
    }
  }

  /** `parseInput` after the regular-expression matching: `matches[i]` is
      the list of integers matched on line i. Registers a, b and c are the
      first match of lines 0, 1 and 2 (None if a line is missing or has no
      match: the Go code indexes out of range); the program is every match
      from line 4 on; None if a token does not parse (`util.ParseInt`
      exits). */
  function ParseInputSpec(matches: seq<seq<string>>): Option<(int, int, int, seq<int>)>
  {
    if |matches| < 3 || |matches[0]| == 0 || |matches[1]| == 0 || |matches[2]| == 0 then None
    else
      match (Atoi(matches[0][0]), Atoi(matches[1][0]), Atoi(matches[2][0]),
             ParseTokens(if |matches| < 4 then [] else Flatten(matches[4..])))
      case (Some(a), Some(b), Some(c), Some(program)) => Some((a, b, c, program))
      case _ => None
  }

  method ParseInput(matches: seq<seq<string>>) returns (parsed: Option<(int, int, int, seq<int>)>)
    ensures parsed == ParseInputSpec(matches)
  {
    if |matches| < 3 || |matches[0]| == 0 || |matches[1]| == 0 || |matches[2]| == 0 {
      return None;
    }
    var a := Atoi(matches[0][0]);
    var b := Atoi(matches[1][0]);
    var c := Atoi(matches[2][0]);
    if a.None? || b.None? || c.None? {
      return None;
    }
    var program: seq<int> := [];
    if |matches| < 4 {
      return Some((a.value, b.value, c.value, program));
    }
    ghost var all := Flatten(matches[4..]);
    ghost var consumed: seq<string> := [];
    var line := 4;
    while line < |matches|
      invariant 4 <= line <= |matches|
      invariant consumed + Flatten(matches[line..]) == all
      invariant ParseTokens(consumed) == Some(program)
    {
      assert matches[line..][1..] == matches[line + 1..];
      assert consumed + matches[line] + Flatten(matches[line + 1..]) == all;
      var extended := ParseLine(matches[line], program, consumed);
      if extended.None? {
        ParseTokensFails(consumed + matches[line], Flatten(matches[line + 1..]));
        return None;
      }
      program := extended.value;
      consumed := consumed + matches[line];
      line := line + 1;
    }
    assert consumed == all;
    return Some((a.value, b.value, c.value, program));
  }

  /** Decimal strings of a list of integers. */
  /** The tokens of one line appended to the program parsed so far; None
      if one does not parse. */
  method ParseLine(tokens: seq<string>, program: seq<int>, ghost consumed: seq<string>)
    returns (extended: Option<seq<int>>)
    requires ParseTokens(consumed) == Some(program)
    ensures extended == ParseTokens(consumed + tokens)
  {
    var j := 0;
    var values := program;
    assert consumed + tokens[..0] == consumed;
    while j < |tokens|
      invariant 0 <= j <= |tokens|
      invariant ParseTokens(consumed + tokens[..j]) == Some(values)
    {
      var num := Atoi(tokens[j]);
      assert (consumed + tokens[..j + 1])[..|consumed| + j] == consumed + tokens[..j];
      if num.None? {
        assert consumed + tokens[..j + 1] + tokens[j + 1..] == consumed + tokens;
        ParseTokensFails(consumed + tokens[..j + 1], tokens[j + 1..]);
        return None;
      }
      values := values + [num.value];
      j := j + 1;
    }
    assert tokens[..j] == tokens;
    return Some(values);
  }

  function Itoas(values: seq<int>): seq<string>
    ensures |Itoas(values)| == |values|
  {
    if |values| == 0 then [] else Itoas(values[..|values| - 1]) + [Itoa(values[|values| - 1])]
  }

  lemma {:induction false} ParseTokensItoas(program: seq<int>)
    ensures ParseTokens(Itoas(program)) == Some(program)
  {
    if |program| > 0 {
      var n := |program|;
      AtoiItoa(program[n - 1]);
      assert Itoas(program)[..n - 1] == Itoas(program[..n - 1]);
      ParseTokensItoas(program[..n - 1]);
      assert program == program[..n - 1] + [program[n - 1]];
    }
  }

  /** Printing the registers and the program and parsing them back gives
      the same machine input. */
  lemma ParseInputRoundTrip(a: int, b: int, c: int, program: seq<int>)
    ensures ParseInputSpec([[Itoa(a)], [Itoa(b)], [Itoa(c)], [], Itoas(program)]) == Some((a, b, c, program))
  {
    var matches := [[Itoa(a)], [Itoa(b)], [Itoa(c)], [], Itoas(program)];
    AtoiItoa(a);
    AtoiItoa(b);
    AtoiItoa(c);
    FlattenOne(Itoas(program));
    assert matches[4..] == [Itoas(program)];
    ParseTokensItoas(program);
    assert ParseTokens(Flatten(matches[4..])) == Some(program);
  }

  lemma FlattenOne(line: seq<string>)
    ensures Flatten([line]) == line
  {
    assert [line][1..] == [];
  }
}
