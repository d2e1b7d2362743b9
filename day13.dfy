/** Day 13: claw machines. Button A moves the claw by (xA, yA) and costs 3
    tokens, button B moves it by (xB, yB) and costs 1; a machine is won
    when the claw lands exactly on the prize (xP, yP). Part 1 tries A-press
    counts 0 to 100 and adds the cheapest win of every machine that has
    one. The regular-expression matches are given as lists of strings:
    the whole match followed by its six captured numerals. */
module Day13 {
  import opened Wrappers
  import opened Text
  import opened GoInt

  /** `attempts`: the largest number of A presses tried. */
  const Attempts: nat := 100

  /** `math.MaxInt64`, the "no solution" cost. */
  const MaxInt64: int := 9223372036854775807

  /** The six numbers of one machine, in the order the pattern captures
      them. */
  datatype Machine = Machine(xA: int, yA: int, xB: int, yB: int, xP: int, yP: int)

  // ---------------------------------------------------------------------
  // What a win is

  /** Pressing A `a` times (within the tried range) and B `b >= 0` times
      lands exactly on the prize. */
  predicate Accepted(m: Machine, a: int, b: int)
  {
    0 <= a <= Attempts && b >= 0 && m.xA * a + m.xB * b == m.xP && m.yA * a + m.yB * b == m.yP
  }

  function Cost(a: int, b: int): int
  {
    3 * a + b
  }

  /** An accepted pair the search can record: its cost is below the
      starting `minCost`. */
  predicate Candidate(m: Machine, a: int, b: int)
  {
    Accepted(m, a, b) && Cost(a, b) < MaxInt64
  }

  /** The x remainder test passes for `a` A presses. */
  predicate XDivides(m: Machine, a: int)
    requires m.xB != 0
  {
    Rem(m.xP - m.xA * a, m.xB) == 0
  }

  /** Go divides by zero, and panics, when `xB` is 0 (at once) or when `yB`
      is 0 and some attempt passes the x test. */
  predicate Panics(m: Machine)
  {
    m.xB == 0 || (m.yB == 0 && exists a :: 0 <= a <= Attempts && XDivides(m, a))
  }

  /** The B presses the loop body accepts for `a` A presses, if any: both
      remainders zero, equal quotients, and a quotient of at least 0. With
      `yB` 0 Go only reaches the y test when it panics. */
  function Press(m: Machine, a: int): Option<int>
    requires m.xB != 0
  {
    if m.yB == 0 || !XDivides(m, a) || Rem(m.yP - m.yA * a, m.yB) != 0 then None
    else
      var bX := Quo(m.xP - m.xA * a, m.xB);
      var bY := Quo(m.yP - m.yA * a, m.yB);
      if bX == bY && bX >= 0 then Some(bX) else None
  }

  /** An exact win needs the x test to pass. */
  lemma AcceptedDivides(m: Machine, a: int, b: int)
    requires m.xB != 0 && Accepted(m, a, b)
    ensures XDivides(m, a) && Quo(m.xP - m.xA * a, m.xB) == b
  {
    assert m.xP - m.xA * a == m.xB * b;
    QuoExact(m.xB, b);
  }

  /** The remainder and quotient tests accept exactly the exact wins. */
  lemma PressAccepted(m: Machine, a: int, b: int)
    requires !Panics(m) && 0 <= a <= Attempts
    ensures Press(m, a) == Some(b) <==> Accepted(m, a, b)
  {
    if Accepted(m, a, b) {
      AcceptedDivides(m, a, b);
      assert m.yB != 0;
      assert m.yP - m.yA * a == m.yB * b;
      QuoExact(m.yB, b);
    }
    if Press(m, a) == Some(b) {
      QuoRem(m.xP - m.xA * a, m.xB);
      QuoRem(m.yP - m.yA * a, m.yB);
    }
  }

  // ---------------------------------------------------------------------
  // The search

  /** `minCost` and `bestSolution` after the attempts below `n`. */
  function CheapestUpTo(m: Machine, n: nat): (int, (int, int))
    requires m.xB != 0 && n <= Attempts + 1
  {
    if n == 0 then (MaxInt64, (-1, -1))
    else
      var prev := CheapestUpTo(m, n - 1);
      match Press(m, n - 1)
      case Some(b) => if Cost(n - 1, b) < prev.0 then (Cost(n - 1, b), (n - 1, b)) else prev
      case None => prev
  }

  /** The result of `solveLinearCombinations` when it does not panic. */
  function Cheapest(m: Machine): (int, (int, int))
    requires !Panics(m)
  {
    CheapestUpTo(m, Attempts + 1)
  }

  /** After the attempts below `n`: with no candidate among them the
      sentinels MaxInt64 and (-1, -1) remain; otherwise the solution is a
      candidate, its cost is the least of all candidates' costs, and among
      the cheapest it has the fewest A presses. */
  lemma {:induction false} CheapestUpToSpec(m: Machine, n: nat)
    requires !Panics(m) && n <= Attempts + 1
    ensures var r := CheapestUpTo(m, n);
            (r == (MaxInt64, (-1, -1)) <==> forall a, b :: 0 <= a < n ==> !Candidate(m, a, b)) &&
            (r != (MaxInt64, (-1, -1)) ==> 0 <= r.1.0 < n && Candidate(m, r.1.0, r.1.1) && r.0 == Cost(r.1.0, r.1.1)) &&
            (forall a, b :: 0 <= a < n && Candidate(m, a, b) ==> r.0 <= Cost(a, b)) &&
            (forall a, b :: 0 <= a < n && Candidate(m, a, b) && Cost(a, b) == r.0 ==> r.1.0 <= a)
  {
    if n > 0 {
      var a := n - 1;
      CheapestUpToSpec(m, a);
      var prev := CheapestUpTo(m, a);
      var r := CheapestUpTo(m, n);
      forall b | Candidate(m, a, b)
        ensures Press(m, a) == Some(b)
      {
        PressAccepted(m, a, b);
      }
      match Press(m, a)
      case Some(b) =>
        PressAccepted(m, a, b);
        if Cost(a, b) < prev.0 {
          assert Candidate(m, a, b);
        }
      case None =>
    }
  }

  /** `solveLinearCombinations`: `None` when Go divides by zero. */
  method SolveLinearCombinations(m: Machine) returns (result: Option<(int, (int, int))>)
    ensures result.None? <==> Panics(m)
    ensures result.Some? ==> result.value == Cheapest(m)
  {
    if m.xB == 0 {
      return None;
    }
    var minCost := MaxInt64;
    var bestSolution := (-1, -1);
    for attempt := 0 to Attempts + 1
      invariant (minCost, bestSolution) == CheapestUpTo(m, attempt)
      invariant m.yB == 0 ==> forall a :: 0 <= a < attempt ==> !XDivides(m, a)
    {
      if Rem(m.xP - m.xA * attempt, m.xB) != 0 {
        continue;
      }
      var bX := Quo(m.xP - m.xA * attempt, m.xB);
      if m.yB == 0 {
        assert XDivides(m, attempt);
        return None;
      }
      if Rem(m.yP - m.yA * attempt, m.yB) != 0 {
        continue;
      }
      var bY := Quo(m.yP - m.yA * attempt, m.yB);
      if bX == bY && bX >= 0 {
        var cost := 3 * attempt + bX;
        if cost < minCost {
          minCost := cost;
          bestSolution := (attempt, bX);
        }
      }
    }
    return Some((minCost, bestSolution));
  }

  /** The search's answer: the sentinels exactly when no A-press count in
      0..100 wins; otherwise the cheapest win, with the fewest A presses
      among equally cheap ones. */
  lemma CheapestSpec(m: Machine)
    requires !Panics(m)
    ensures var r := Cheapest(m);
            (r == (MaxInt64, (-1, -1)) <==> forall a, b :: !Candidate(m, a, b)) &&
            (r != (MaxInt64, (-1, -1)) ==> Candidate(m, r.1.0, r.1.1) && r.0 == Cost(r.1.0, r.1.1)) &&
            (forall a, b :: Candidate(m, a, b) ==> r.0 <= Cost(a, b) && (Cost(a, b) == r.0 ==> r.1.0 <= a))
  {
    CheapestUpToSpec(m, Attempts + 1);
  }

  // ---------------------------------------------------------------------
  // Part 1

  /** What a machine adds to part 1: its cheapest cost when it has a win,
      nothing otherwise. */
  function Fee(m: Machine): int
    requires !Panics(m)
  {
    if Cheapest(m).0 != MaxInt64 then Cheapest(m).0 else 0
  }

  function Total(machines: seq<Machine>): int
    requires forall k :: 0 <= k < |machines| ==> !Panics(machines[k])
  {
    if |machines| == 0 then 0 else Total(machines[..|machines| - 1]) + Fee(machines[|machines| - 1])
  }

  /** `part1`: `None` when some machine makes Go divide by zero. */
  method Part1(machines: seq<Machine>) returns (minCost: Option<int>)
    ensures minCost.None? <==> exists k :: 0 <= k < |machines| && Panics(machines[k])
    ensures minCost.Some? ==> minCost.value == Total(machines)
  {
    var sum := 0;
    var solutions: seq<(int, int)> := [];
    for k := 0 to |machines|
      invariant forall j :: 0 <= j < k ==> !Panics(machines[j])
      invariant sum == Total(machines[..k])
    {
      assert machines[..k + 1][..k] == machines[..k];
      var found := SolveLinearCombinations(machines[k]);
      if found.None? {
        return None;
      }
      var (minCostFound, solution) := found.value;
      if minCostFound != MaxInt64 {
        sum := sum + minCostFound;
        solutions := solutions + [solution];
      }
    }
    assert machines[..|machines|] == machines;
    return Some(sum);
  }

  /** A machine adds its cheapest win's cost, and nothing when it has no
      win; the total never goes below 0. */
  lemma FeeSpec(m: Machine)
    requires !Panics(m)
    ensures (forall a, b :: !Candidate(m, a, b)) ==> Fee(m) == 0
    ensures forall a, b :: Candidate(m, a, b) ==> 0 <= Fee(m) <= Cost(a, b)
    ensures (exists a, b :: Candidate(m, a, b)) ==> exists a, b :: Candidate(m, a, b) && Fee(m) == Cost(a, b)
  {
    CheapestSpec(m);
    var r := Cheapest(m);
    if r != (MaxInt64, (-1, -1)) {
      assert Candidate(m, r.1.0, r.1.1) && Fee(m) == Cost(r.1.0, r.1.1);
    }
  }

  /** The part 1 total is the sum over the machines taken in any split. */
  lemma {:induction false} TotalAppend(a: seq<Machine>, b: seq<Machine>)
    requires forall k :: 0 <= k < |a| ==> !Panics(a[k])
    requires forall k :: 0 <= k < |b| ==> !Panics(b[k])
    ensures forall k :: 0 <= k < |a + b| ==> !Panics((a + b)[k])
    ensures Total(a + b) == Total(a) + Total(b)
    decreases |b|
  {
    if |b| > 0 {
      var n := |b| - 1;
      assert (a + b)[..|a| + n] == a + b[..n] && (a + b)[|a| + n] == b[n];
      TotalAppend(a, b[..n]);
    } else {
      assert a + b == a;
    }
  }

  // ---------------------------------------------------------------------
  // Reading the machines

  /** One match converted: the six captured numerals parsed in order. */
  function MachineOf(found: seq<string>): Option<Machine>
    requires |found| == 7
  {
    match AtoiAll(found[1..])
    case Some(v) => Some(Machine(v[0], v[1], v[2], v[3], v[4], v[5]))
    case None => None
  }

  function Capture(matches: seq<seq<string>>): Option<seq<Machine>>
    requires forall k :: 0 <= k < |matches| ==> |matches[k]| == 7
  {
    if |matches| == 0 then Some([])
    else
      var front := Capture(matches[..|matches| - 1]);
      var last := MachineOf(matches[|matches| - 1]);
      if front.Some? && last.Some? then Some(front.value + [last.value]) else None
  }

  /** A match that does not parse stops the capture for good. */
  lemma {:induction false} CaptureStops(matches: seq<seq<string>>, n: nat)
    requires forall k :: 0 <= k < |matches| ==> |matches[k]| == 7
    requires n <= |matches| && Capture(matches[..n]).None?
    ensures Capture(matches).None?
    decreases |matches| - n
  {
    if n < |matches| {
      assert matches[..n + 1][..n] == matches[..n];
      CaptureStops(matches, n + 1);
    } else {
      assert matches[..n] == matches;
    }
  }

  /** The body of the `captureMachines` loop: a fresh six-element array
      filled from the captured numerals; `None` when `util.ParseInt` stops
      the program. */
  method CaptureOne(found: seq<string>) returns (machine: Option<Machine>)
    requires |found| == 7
    ensures machine == MachineOf(found)
  {
    var values := new int[6];
    for i := 0 to 6
      invariant forall j :: 0 <= j < i ==> Atoi(found[1 + j]) == Some(values[j])
    {
      var v := Atoi(found[1 + i]);
      if v.None? {
        assert Atoi(found[1..][i]).None?;
        return None;
      }
      values[i] := v.value;
    }
    var tokens := found[1..];
    assert forall k :: 0 <= k < 6 ==> Atoi(tokens[k]) == Some(values[k]);
    assert AtoiAll(tokens).Some? && AtoiAll(tokens).value == values[..];
    return Some(Machine(values[0], values[1], values[2], values[3], values[4], values[5]));
  }

  /** `captureMachines`: one machine per match, in order. */
  method CaptureMachines(matches: seq<seq<string>>) returns (machines: Option<seq<Machine>>)
    requires forall k :: 0 <= k < |matches| ==> |matches[k]| == 7
    ensures machines == Capture(matches)
  {
    var found: seq<Machine> := [];
    for k := 0 to |matches|
      invariant Capture(matches[..k]) == Some(found)
    {
      assert matches[..k + 1][..k] == matches[..k] && matches[..k + 1][k] == matches[k];
      var machine := CaptureOne(matches[k]);
      if machine.None? {
        CaptureStops(matches, k + 1);
        return None;
      }
      found := found + [machine.value];
    }
    assert matches[..|matches|] == matches;
    return Some(found);
  }

  /** The text of one machine's match. */
  function MatchText(m: Machine): string
  {
    "Button A: X+" + Itoa(m.xA) + ", Y+" + Itoa(m.yA) + "\nButton B: X+" + Itoa(m.xB) + ", Y+" + Itoa(m.yB) +
    "\nPrize: X=" + Itoa(m.xP) + ", Y=" + Itoa(m.yP)
  }

  /** One machine's match: the whole text, then its six numerals. */
  function Render(m: Machine): (r: seq<string>)
    ensures |r| == 7
  {
    [MatchText(m)] + Numerals([m.xA, m.yA, m.xB, m.yB, m.xP, m.yP])
  }

  function RenderAll(machines: seq<Machine>): (r: seq<seq<string>>)
    ensures |r| == |machines| && forall k :: 0 <= k < |r| ==> |r[k]| == 7
  {
    if |machines| == 0 then [] else RenderAll(machines[..|machines| - 1]) + [Render(machines[|machines| - 1])]
  }

  /** Capturing the numerals of rendered machines gives the machines back,
      in order. */
  lemma {:induction false} CaptureRender(machines: seq<Machine>)
    ensures Capture(RenderAll(machines)) == Some(machines)
  {
    if |machines| > 0 {
      var n := |machines| - 1;
      CaptureRender(machines[..n]);
      MachineOfRender(machines[n]);
      assert RenderAll(machines) == RenderAll(machines[..n]) + [Render(machines[n])];
      CaptureSnoc(RenderAll(machines[..n]), Render(machines[n]));
      assert machines[..n] + [machines[n]] == machines;
    }
  }

  lemma CaptureSnoc(matches: seq<seq<string>>, last: seq<string>)
    requires forall k :: 0 <= k < |matches| ==> |matches[k]| == 7
    requires |last| == 7
    ensures Capture(matches + [last]) ==
              if Capture(matches).Some? && MachineOf(last).Some? then Some(Capture(matches).value + [MachineOf(last).value]) else None
  {
    assert (matches + [last])[..|matches|] == matches;
  }

  lemma MachineOfRender(m: Machine)
    ensures MachineOf(Render(m)) == Some(m)
  {
    var values := [m.xA, m.yA, m.xB, m.yB, m.xP, m.yP];
    assert Render(m)[1..] == Numerals(values);
    AtoiAllNumerals(values);
    assert AtoiAll(Render(m)[1..]).value == values;
  }

  /** `main`, part 1: capture the machines, then add their cheapest wins. */
  method Solve(matches: seq<seq<string>>) returns (answer: Option<int>)
    requires forall k :: 0 <= k < |matches| ==> |matches[k]| == 7
    ensures answer.None? <==>
              Capture(matches).None? || exists k :: 0 <= k < |Capture(matches).value| && Panics(Capture(matches).value[k])
    ensures answer.Some? ==> answer.value == Total(Capture(matches).value)
  {
    var machines := CaptureMachines(matches);
    if machines.None? {
      return None;
    }
    answer := Part1(machines.value);
  }
}
