/** Day 24: a circuit of AND/OR/XOR gates over named wires. Part 1
    evaluates it and reads the z-wires as a binary number; part 2 walks the
    ripple-carry adder pattern bit by bit and swaps gate outputs wherever
    the pattern breaks. */
module Day24 {
  import opened Wrappers
  import Text
  import Sorting
  import GoInt

  /** The operation a gate line names; its pattern admits only these. */
  datatype Op = And | Or | Xor

  /** `gate`: the groups a gate line "a OP b -> out" matches. */
  datatype Gate = Gate(inputOne: string, inputTwo: string, output: string, operation: Op)

  /** `processGate`'s value: Go's `&`, `|` or `^` on the two inputs. The
      operators never overflow, so unbounded two's complement is exact. */
  function Eval(op: Op, a: int, b: int): int
  {
    match op
    case And => GoInt.And(a, b)
    case Or => GoInt.Or(a, b)
    case Xor => GoInt.Xor(a, b)
  }

  /** On single bits the gates compute the truth tables. */
  lemma EvalBits(op: Op, a: int, b: int)
    requires 0 <= a <= 1 && 0 <= b <= 1
    ensures Eval(op, a, b) == match op
              case And => (if a == 1 && b == 1 then 1 else 0)
              case Or => (if a == 1 || b == 1 then 1 else 0)
              case Xor => (if a != b then 1 else 0)
  {
    GoInt.AndOrBit(a, b);
    GoInt.XorNatBit(a, b);
  }

  /** Two known (non-negative) values give a known value. */
  lemma EvalNonNegative(op: Op, a: int, b: int)
    requires a >= 0 && b >= 0
    ensures Eval(op, a, b) >= 0
  {
    GoInt.AndOrNonNegative(a, b);
  }

  // ---------------------------------------------------------------------
  // Looking up and rewiring gates

  /** Gate `g` has inputs x and y, in either order, and operation `op`. */
  predicate Joins(g: Gate, x: string, y: string, op: Op)
  {
    (g.inputOne == x && g.inputTwo == y && g.operation == op) ||
    (g.inputOne == y && g.inputTwo == x && g.operation == op)
  }

  /** The output of the first gate joining x and y with `op`, or "" when
      there is none. */
  function FirstJoin(x: string, y: string, op: Op, gates: seq<Gate>): string
  {
    if |gates| == 0 then ""
    else if Joins(gates[0], x, y, op) then gates[0].output
    else FirstJoin(x, y, op, gates[1..])
  }

  /** The answer is the first matching gate's output, or "" if none
      matches. */
  lemma {:induction false} FirstJoinSpec(x: string, y: string, op: Op, gates: seq<Gate>)
    ensures (forall i :: 0 <= i < |gates| ==> !Joins(gates[i], x, y, op)) ==> FirstJoin(x, y, op, gates) == ""
    ensures forall i :: 0 <= i < |gates| && Joins(gates[i], x, y, op) &&
                        (forall j :: 0 <= j < i ==> !Joins(gates[j], x, y, op)) ==>
                        FirstJoin(x, y, op, gates) == gates[i].output
  {
    if |gates| > 0 {
      FirstJoinSpec(x, y, op, gates[1..]);
      forall i | 0 < i < |gates| && Joins(gates[i], x, y, op) &&
                 (forall j :: 0 <= j < i ==> !Joins(gates[j], x, y, op))
        ensures FirstJoin(x, y, op, gates) == gates[i].output
      {
        assert gates[1..][i - 1] == gates[i];
        assert forall j :: 0 <= j < i - 1 ==> gates[1..][j] == gates[j + 1];
      }
    }
  }

  /** The order in which the two inputs are named does not matter. */
  lemma {:induction false} FirstJoinSymmetric(x: string, y: string, op: Op, gates: seq<Gate>)
    ensures FirstJoin(x, y, op, gates) == FirstJoin(y, x, op, gates)
  {
    if |gates| > 0 {
      FirstJoinSymmetric(x, y, op, gates[1..]);
    }
  }

  /** One gate of `swapOutputWires`: an output a becomes b and b becomes a. */
  function SwapOutput(a: string, b: string, g: Gate): Gate
  {
    if g.output == a then g.(output := b)
    else if g.output == b then g.(output := a)
    else g
  }

  /** The gates with outputs a and b exchanged. */
  function Swapped(a: string, b: string, gates: seq<Gate>): (r: seq<Gate>)
    ensures |r| == |gates| && forall i :: 0 <= i < |gates| ==> r[i] == SwapOutput(a, b, gates[i])
  {
    if |gates| == 0 then [] else [SwapOutput(a, b, gates[0])] + Swapped(a, b, gates[1..])
  }

  /** Swapping changes only outputs a and b, exchanging them, and keeps
      inputs and operations. */
  lemma SwapOutputSpec(a: string, b: string, g: Gate)
    ensures var h := SwapOutput(a, b, g);
            h.inputOne == g.inputOne && h.inputTwo == g.inputTwo && h.operation == g.operation &&
            (g.output == a ==> h.output == b) &&
            (g.output != a && g.output == b ==> h.output == a) &&
            (g.output != a && g.output != b ==> h.output == g.output)
  {
  }

  /** Swapping the same two outputs twice restores every gate. */
  lemma SwapTwice(a: string, b: string, gates: seq<Gate>)
    ensures Swapped(a, b, Swapped(a, b, gates)) == gates
  {
    var once := Swapped(a, b, gates);
    var twice := Swapped(a, b, once);
    forall i | 0 <= i < |gates|
      ensures twice[i] == gates[i]
    {
      SwapOutputSpec(a, b, gates[i]);
      SwapOutputSpec(a, b, once[i]);
    }
  }

  /** `findGate`: scans the gates in order and returns the first match. */
  method FindGate(xWire: string, yWire: string, op: Op, gates: seq<Gate>) returns (output: string)
    ensures output == FirstJoin(xWire, yWire, op, gates)
  {
    var i := 0;
    while i < |gates|
      invariant 0 <= i <= |gates|
      invariant FirstJoin(xWire, yWire, op, gates) == FirstJoin(xWire, yWire, op, gates[i..])
    {
      assert gates[i..][1..] == gates[i + 1..];
      if Joins(gates[i], xWire, yWire, op) {
        return gates[i].output;
      }
      i := i + 1;
    }
    return "";
  }

  /** `swapOutputWires`: a new list, gate by gate. */
  method SwapOutputWires(wireA: string, wireB: string, gates: seq<Gate>) returns (newGates: seq<Gate>)
    ensures newGates == Swapped(wireA, wireB, gates)
  {
    newGates := [];
    for i := 0 to |gates|
      invariant newGates == Swapped(wireA, wireB, gates[..i])
    {
      SwappedSnoc(wireA, wireB, gates[..i], gates[i]);
      assert gates[..i + 1] == gates[..i] + [gates[i]];
      var g := gates[i];
      if g.output == wireA {
        newGates := newGates + [Gate(g.inputOne, g.inputTwo, wireB, g.operation)];
      } else if g.output == wireB {
        newGates := newGates + [Gate(g.inputOne, g.inputTwo, wireA, g.operation)];
      } else {
        newGates := newGates + [g];
      }
    }
    assert gates[..|gates|] == gates;
  }

  lemma SwappedSnoc(a: string, b: string, gates: seq<Gate>, g: Gate)
    ensures Swapped(a, b, gates + [g]) == Swapped(a, b, gates) + [SwapOutput(a, b, g)]
  {
    var l, r := Swapped(a, b, gates + [g]), Swapped(a, b, gates) + [SwapOutput(a, b, g)];
    assert |l| == |r|;
    forall i | 0 <= i < |l|
      ensures l[i] == r[i]
    {
      if i < |gates| {
        assert (gates + [g])[i] == gates[i];
      }
    }
  }

  // ---------------------------------------------------------------------
  // Part 1: evaluating the circuit

  /** Go's `wires[w]`: a wire never seen reads as 0. The value -1 marks a
      wire named by a gate whose value is not known yet. */
  function Get(m: map<string, int>, w: string): int
  {
    if w in m then m[w] else 0
  }

  /** Both inputs of `g` are known. */
  predicate Ready(m: map<string, int>, g: Gate)
  {
    Get(m, g.inputOne) != -1 && Get(m, g.inputTwo) != -1
  }

  /** The wires after `processGate(g)`. */
  function Apply(m: map<string, int>, g: Gate): map<string, int>
  {
    m[g.output := Eval(g.operation, Get(m, g.inputOne), Get(m, g.inputTwo))]
  }

  /** The wires after applying the gates in order. */
  function ApplyAll(m: map<string, int>, gs: seq<Gate>): map<string, int>
  {
    if |gs| == 0 then m else Apply(ApplyAll(m, gs[..|gs| - 1]), gs[|gs| - 1])
  }

  /** One pass of `processGates` over `gs`: gates whose inputs are known
      are applied in order, the rest are kept, in order, for the next pass. */
  function Pass(m: map<string, int>, gs: seq<Gate>): (r: (map<string, int>, seq<Gate>))
    ensures |r.1| <= |gs|
  {
    if |gs| == 0 then (m, [])
    else
      var (m', later) := Pass(m, gs[..|gs| - 1]);
      var g := gs[|gs| - 1];
      if Ready(m', g) then (Apply(m', g), later) else (m', later + [g])
  }

  /** The whole of `processGates`: passes until no gate is left, or None
      when a pass applies no gate, after which the Go loop repeats that
      same pass for ever. */
  function Settle(m: map<string, int>, gs: seq<Gate>): Option<map<string, int>>
    decreases |gs|
  {
    if |gs| == 0 then Some(m)
    else
      var (m', later) := Pass(m, gs);
      if |later| == |gs| then None else Settle(m', later)
  }

  /** A pass defers exactly the gates it finds not ready, so every deferred
      gate is one of the pass's gates. */
  lemma {:induction false} PassDefers(m: map<string, int>, gs: seq<Gate>)
    ensures forall g :: g in Pass(m, gs).1 ==> g in gs
  {
    if |gs| > 0 {
      PassDefers(m, gs[..|gs| - 1]);
    }
  }

  /** A pass that applies no gate leaves the wires and the gate list as they
      were, so the next pass is the same pass again: the Go loop does not
      end. */
  lemma {:induction false} NoProgressRepeats(m: map<string, int>, gs: seq<Gate>)
    requires |Pass(m, gs).1| == |gs|
    ensures Pass(m, gs) == (m, gs)
  {
    if |gs| > 0 {
      var front := gs[..|gs| - 1];
      var (m', later) := Pass(m, front);
      assert |later| <= |front|;
      if Ready(m', gs[|gs| - 1]) {
        assert false;
      }
      NoProgressRepeats(m, front);
      assert front + [gs[|gs| - 1]] == gs;
    }
  }

  /** Wire values are known (non-negative) or the unknown mark. */
  predicate Marks(m: map<string, int>)
  {
    forall w :: w in m ==> m[w] >= -1
  }

  /** Applying a gate whose inputs are known keeps values known or marked,
      and gives its output a known value. */
  lemma ApplyKnown(m: map<string, int>, g: Gate)
    requires Marks(m) && Ready(m, g)
    ensures Marks(Apply(m, g)) && Get(Apply(m, g), g.output) >= 0
    ensures forall w :: Get(m, w) >= 0 ==> Get(Apply(m, g), w) >= 0
  {
    EvalNonNegative(g.operation, Get(m, g.inputOne), Get(m, g.inputTwo));
  }

  /** A pass keeps values known or marked, never forgets a known value, and
      every gate it applies has a known output afterwards. */
  lemma {:induction false} PassKnown(m: map<string, int>, gs: seq<Gate>)
    requires Marks(m)
    ensures Marks(Pass(m, gs).0)
    ensures forall w :: Get(m, w) >= 0 ==> Get(Pass(m, gs).0, w) >= 0
    ensures forall g :: g in gs && g !in Pass(m, gs).1 ==> Get(Pass(m, gs).0, g.output) >= 0
  {
    if |gs| > 0 {
      var front := gs[..|gs| - 1];
      var g := gs[|gs| - 1];
      PassKnown(m, front);
      var (m', later) := Pass(m, front);
      if Ready(m', g) {
        ApplyKnown(m', g);
      }
      forall h | h in gs && h !in Pass(m, gs).1
        ensures Get(Pass(m, gs).0, h.output) >= 0
      {
        if h != g {
          assert h in front;
        }
      }
    }
  }

  /** When `processGates` ends, every gate it was given has a known output. */
  lemma {:induction false} SettleKnown(m: map<string, int>, gs: seq<Gate>)
    requires Marks(m) && Settle(m, gs).Some?
    ensures Marks(Settle(m, gs).value)
    ensures forall w :: Get(m, w) >= 0 ==> Get(Settle(m, gs).value, w) >= 0
    ensures forall g :: g in gs ==> Get(Settle(m, gs).value, g.output) >= 0
    decreases |gs|
  {
    if |gs| > 0 {
      var (m', later) := Pass(m, gs);
      PassKnown(m, gs);
      PassDefers(m, gs);
      SettleKnown(m', later);
    }
  }

  /** The gates of `gs` whose inputs are known in `m` (`knownInputs`). */
  function KnownGates(m: map<string, int>, gs: seq<Gate>): seq<Gate>
  {
    if |gs| == 0 then []
    else if Ready(m, gs[|gs| - 1]) then KnownGates(m, gs[..|gs| - 1]) + [gs[|gs| - 1]]
    else KnownGates(m, gs[..|gs| - 1])
  }

  /** The other gates (`unknownInputs`). */
  function UnknownGates(m: map<string, int>, gs: seq<Gate>): seq<Gate>
  {
    if |gs| == 0 then []
    else if Ready(m, gs[|gs| - 1]) then UnknownGates(m, gs[..|gs| - 1])
    else UnknownGates(m, gs[..|gs| - 1]) + [gs[|gs| - 1]]
  }

  /** The two lists split the gates: each gate goes to exactly one of them,
      by whether its inputs are known. */
  lemma {:induction false} ClassifySplits(m: map<string, int>, gs: seq<Gate>)
    ensures |KnownGates(m, gs)| + |UnknownGates(m, gs)| == |gs|
    ensures forall g :: g in KnownGates(m, gs) <==> g in gs && Ready(m, g)
    ensures forall g :: g in UnknownGates(m, gs) <==> g in gs && !Ready(m, g)
  {
    if |gs| > 0 {
      ClassifySplits(m, gs[..|gs| - 1]);
      assert gs == gs[..|gs| - 1] + [gs[|gs| - 1]];
    }
  }

  /** The wires `part1` ends with: the known gates applied in order, then
      the others settled, or None when `processGates` does not end. */
  function Evaluate(m: map<string, int>, gs: seq<Gate>): Option<map<string, int>>
  {
    Settle(ApplyAll(m, KnownGates(m, gs)), UnknownGates(m, gs))
  }

  /** Gates whose inputs are all known when `processKnownGates` starts
      stay ready while it runs, and each gets a known output. */
  lemma {:induction false} ApplyAllKnown(m: map<string, int>, gs: seq<Gate>)
    requires Marks(m) && forall g :: g in gs ==> Ready(m, g)
    ensures Marks(ApplyAll(m, gs))
    ensures forall w :: Get(m, w) >= 0 ==> Get(ApplyAll(m, gs), w) >= 0
    ensures forall g :: g in gs ==> Get(ApplyAll(m, gs), g.output) >= 0
  {
    if |gs| > 0 {
      var front := gs[..|gs| - 1];
      var g := gs[|gs| - 1];
      ApplyAllKnown(m, front);
      var before := ApplyAll(m, front);
      assert g in gs;
      assert Get(m, g.inputOne) >= 0 && Get(m, g.inputTwo) >= 0;
      ApplyKnown(before, g);
      forall h | h in gs
        ensures Get(ApplyAll(m, gs), h.output) >= 0
      {
        if h != g {
          assert h in front;
        }
      }
    }
  }

  /** When every wire is known or marked, as `parseData` leaves them, and
      `part1`'s evaluation ends, every gate's output is known. */
  lemma EvaluateKnown(m: map<string, int>, gs: seq<Gate>)
    requires Marks(m) && Evaluate(m, gs).Some?
    ensures forall g :: g in gs ==> Get(Evaluate(m, gs).value, g.output) >= 0
  {
    ClassifySplits(m, gs);
    var known, unknown := KnownGates(m, gs), UnknownGates(m, gs);
    ApplyAllKnown(m, known);
    SettleKnown(ApplyAll(m, known), unknown);
  }

  /** The names of the z-wires. */
  function ZWires(m: map<string, int>): set<string>
  {
    set k | k in m && |k| > 0 && k[0] == 'z'
  }

  /** '1' for a wire holding 1, '0' otherwise. */
  function BitChar(m: map<string, int>, w: string): char
  {
    if Get(m, w) == 1 then '1' else '0'
  }

  /** The binary string `part1` builds: the wires of `zs` from the last to
      the first. */
  function Binary(m: map<string, int>, zs: seq<string>): string
  {
    if |zs| == 0 then "" else Binary(m, zs[1..]) + [BitChar(m, zs[0])]
  }

  /** The number the wires stand for, `zs[i]` carrying weight 2^i. */
  function Weighted(m: map<string, int>, zs: seq<string>): nat
  {
    if |zs| == 0 then 0 else (if Get(m, zs[0]) == 1 then 1 else 0) + 2 * Weighted(m, zs[1..])
  }

  /** The value of a string of binary digits, most significant first. */
  function BinaryValue(s: string): nat
  {
    if |s| == 0 then 0 else 2 * BinaryValue(s[..|s| - 1]) + (if s[|s| - 1] == '1' then 1 else 0)
  }

  /** `strconv.ParseInt(s, 2, 64)` on a string of binary digits, its error
      ignored: the empty string is a syntax error and gives 0, and a value
      past the largest 64-bit integer is a range error and gives that
      largest integer. */
  function ParseInt64Binary(s: string): int
  {
    if |s| == 0 then 0
    else if BinaryValue(s) >= 0x8000_0000_0000_0000 then 0x7FFF_FFFF_FFFF_FFFF
    else BinaryValue(s)
  }

  /** The string `part1` builds is the binary numeral of the weighted sum:
      the highest-numbered z-wire is the most significant bit. */
  lemma {:induction false} BinaryWeighted(m: map<string, int>, zs: seq<string>)
    ensures |Binary(m, zs)| == |zs|
    ensures BinaryValue(Binary(m, zs)) == Weighted(m, zs)
  {
    if |zs| > 0 {
      BinaryWeighted(m, zs[1..]);
      var s := Binary(m, zs);
      assert s[..|s| - 1] == Binary(m, zs[1..]);
    }
  }

  /** `part1`'s answer on sorted z-wires: their weighted sum, as far as a
      64-bit integer holds it. */
  lemma Part1Answer(m: map<string, int>, zs: seq<string>)
    ensures ParseInt64Binary(Binary(m, zs)) ==
              if |zs| == 0 then 0 else if Weighted(m, zs) >= 0x8000_0000_0000_0000 then 0x7FFF_FFFF_FFFF_FFFF
              else Weighted(m, zs)
  {
    BinaryWeighted(m, zs);
  }

  /** The global `wires` map and the operations that change it. */
  class Circuit {
    var wires: map<string, int>

    constructor ()
      ensures wires == map[]
    {
      wires := map[];
    }

    /** `processGate`: sets the output wire and changes no other. */
    method ProcessGate(g: Gate)
      modifies this
      ensures wires == Apply(old(wires), g)
      ensures forall w :: w != g.output ==> Get(wires, w) == Get(old(wires), w)
    {
      var value := Eval(g.operation, Get(wires, g.inputOne), Get(wires, g.inputTwo));
      wires := wires[g.output := value];
    }

    /** `processKnownGates`: every gate in order. */
    method ProcessKnownGates(inputs: seq<Gate>)
      modifies this
      ensures wires == ApplyAll(old(wires), inputs)
    {
      for i := 0 to |inputs|
        invariant wires == ApplyAll(old(wires), inputs[..i])
      {
        assert inputs[..i + 1][..i] == inputs[..i];
        ProcessGate(inputs[i]);
      }
      assert inputs[..|inputs|] == inputs;
    }

    /** One pass of `processGates`' outer loop. */
    method ProcessPass(inputs: seq<Gate>) returns (reattempt: seq<Gate>)
      modifies this
      ensures (wires, reattempt) == Pass(old(wires), inputs)
    {
      reattempt := [];
      for i := 0 to |inputs|
        invariant (wires, reattempt) == Pass(old(wires), inputs[..i])
      {
        assert inputs[..i + 1][..i] == inputs[..i];
        var g := inputs[i];
        if Get(wires, g.inputOne) != -1 && Get(wires, g.inputTwo) != -1 {
          ProcessGate(g);
        } else {
          reattempt := reattempt + [g];
        }
      }
      assert inputs[..|inputs|] == inputs;
    }

    /** `processGates`: passes until every gate has been applied. Where a
        pass applies no gate the Go loop runs for ever; here it stops and
        `settled` is false. */
    method ProcessGates(inputs: seq<Gate>) returns (settled: bool)
      modifies this
      ensures settled <==> Settle(old(wires), inputs).Some?
      ensures settled ==> wires == Settle(old(wires), inputs).value
    {
      var gs := inputs;
      while |gs| > 0
        invariant Settle(old(wires), inputs) == Settle(wires, gs)
        decreases |gs|
      {
        var reattempt := ProcessPass(gs);
        if |reattempt| == |gs| {
          return false;
        }
        gs := reattempt;
      }
      return true;
    }

    /** `parseData` on the lines' pattern groups: each initial wire gets its
        parsed value, then every wire a gate names that has no value yet is
        marked -1. */
    method ParseData(initialWires: seq<(string, string)>, gateLines: seq<Gate>) returns (gates: seq<Gate>)
      requires forall i :: 0 <= i < |initialWires| ==> Text.AllDigits(initialWires[i].1)
      modifies this
      ensures gates == gateLines
      ensures wires == MarkAll(LoadAll(old(wires), initialWires), gateLines)
    {
      for i := 0 to |initialWires|
        invariant wires == LoadAll(old(wires), initialWires[..i])
      {
        assert initialWires[..i + 1][..i] == initialWires[..i];
        var (wireName, digits) := initialWires[i];
        wires := wires[wireName := Text.ParseDigits(digits)];
      }
      assert initialWires[..|initialWires|] == initialWires;
      ghost var loaded := wires;
      gates := [];
      for i := 0 to |gateLines|
        invariant wires == MarkAll(loaded, gateLines[..i]) && gates == gateLines[..i]
      {
        assert gateLines[..i + 1][..i] == gateLines[..i];
        var g := gateLines[i];
        if g.inputOne !in wires {
          wires := wires[g.inputOne := -1];
        }
        if g.inputTwo !in wires {
          wires := wires[g.inputTwo := -1];
        }
        if g.output !in wires {
          wires := wires[g.output := -1];
        }
        gates := gates + [g];
      }
      assert gateLines[..|gateLines|] == gateLines;
    }

    /** The z-wire names, in the map's iteration order (a choice here);
        None when a wire has the empty name, on which `k[0]` panics. */
    method ZPositions() returns (zs: Option<seq<string>>)
      ensures zs.None? <==> "" in wires
      ensures zs.Some? ==> (forall k :: k in zs.value <==> k in ZWires(wires)) && |zs.value| == |ZWires(wires)|
    {
      var keys := wires.Keys;
      var found := [];
      ghost var seen: set<string> := {};
      while keys != {}
        invariant keys <= wires.Keys && "" !in wires.Keys - keys
        invariant forall k :: k in found <==> k in seen
        invariant seen == ZWires(wires) - keys && |found| == |seen|
        decreases keys
      {
        var k :| k in keys;
        if |k| == 0 {
          return None;
        }
        if k[0] == 'z' {
          found := found + [k];
          seen := seen + {k};
        }
        keys := keys - {k};
      }
      return Some(found);
    }

    /** `part1`. None when `processGates` would not end or when a wire has
        the empty name; otherwise the z-wires are read in sorted order, the
        highest as the most significant bit, and the answer is
        `ParseInt64Binary` of that string. */
    method Part1(gates: seq<Gate>) returns (answer: Option<int>, ghost zs: seq<string>)
      modifies this
      ensures Evaluate(old(wires), gates).Some? ==> wires == Evaluate(old(wires), gates).value
      ensures answer.Some? <==> Evaluate(old(wires), gates).Some? && "" !in wires
      ensures answer.Some? ==>
                Sorting.SortedStrings(zs) && (forall k :: k in zs <==> k in ZWires(wires)) &&
                |zs| == |ZWires(wires)| && answer.value == ParseInt64Binary(Binary(wires, zs))
    {
      ghost var m := wires;
      var knownInputs, unknownInputs := [], [];
      for i := 0 to |gates|
        invariant knownInputs == KnownGates(m, gates[..i]) && unknownInputs == UnknownGates(m, gates[..i])
      {
        assert gates[..i + 1][..i] == gates[..i];
        var g := gates[i];
        if Get(wires, g.inputOne) != -1 && Get(wires, g.inputTwo) != -1 {
          knownInputs := knownInputs + [g];
        } else {
          unknownInputs := unknownInputs + [g];
        }
      }
      assert gates[..|gates|] == gates;
      ProcessKnownGates(knownInputs);
      var settled := ProcessGates(unknownInputs);
      zs := [];
      if !settled {
        return None, zs;
      }
      var zPosition := ZPositions();
      if zPosition.None? {
        return None, zs;
      }
      var sorted := Sorting.SortStrings(zPosition.value);
      Sorting.SortStringsSpec(zPosition.value);
      zs := sorted;
      forall k
        ensures k in sorted <==> k in zPosition.value
      {
        assert k in sorted <==> k in multiset(sorted);
      }
      var binary := "";
      var z := |sorted|;
      while z > 0
        invariant 0 <= z <= |sorted| && binary == Binary(wires, sorted[z..])
      {
        z := z - 1;
        assert sorted[z..][1..] == sorted[z + 1..];
        binary := binary + (if Get(wires, sorted[z]) == 1 then "1" else "0");
      }
      return Some(ParseInt64Binary(binary)), zs;
    }
  }

  /** The wires after the initial-wire lines: each sets its wire's value. */
  function LoadAll(m: map<string, int>, lines: seq<(string, string)>): map<string, int>
    requires forall i :: 0 <= i < |lines| ==> Text.AllDigits(lines[i].1)
  {
    if |lines| == 0 then m
    else LoadAll(m, lines[..|lines| - 1])[lines[|lines| - 1].0 := Text.ParseDigits(lines[|lines| - 1].1)]
  }

  /** The wires after marking, gate by gate, each named wire without a
      value as -1. */
  function MarkAll(m: map<string, int>, gs: seq<Gate>): map<string, int>
  {
    if |gs| == 0 then m
    else
      var before := MarkAll(m, gs[..|gs| - 1]);
      var g := gs[|gs| - 1];
      var one := if g.inputOne in before then before else before[g.inputOne := -1];
      var two := if g.inputTwo in one then one else one[g.inputTwo := -1];
      if g.output in two then two else two[g.output := -1]
  }

  /** A wire no initial-wire line names is left as it was. */
  lemma {:induction false} LoadAllOthers(m: map<string, int>, lines: seq<(string, string)>, w: string)
    requires forall i :: 0 <= i < |lines| ==> Text.AllDigits(lines[i].1)
    requires forall i :: 0 <= i < |lines| ==> lines[i].0 != w
    ensures w in LoadAll(m, lines) <==> w in m
    ensures w in m ==> LoadAll(m, lines)[w] == m[w]
  {
    if |lines| > 0 {
      LoadAllOthers(m, lines[..|lines| - 1], w);
    }
  }

  /** A wire named on an initial-wire line holds the value of the last line
      naming it. */
  lemma {:induction false} LoadAllLast(m: map<string, int>, lines: seq<(string, string)>, i: nat)
    requires forall i :: 0 <= i < |lines| ==> Text.AllDigits(lines[i].1)
    requires i < |lines| && forall j :: i < j < |lines| ==> lines[j].0 != lines[i].0
    ensures lines[i].0 in LoadAll(m, lines) && LoadAll(m, lines)[lines[i].0] == Text.ParseDigits(lines[i].1)
  {
    if i < |lines| - 1 {
      var front := lines[..|lines| - 1];
      assert front[i] == lines[i];
      LoadAllLast(m, front, i);
    }
  }

  /** Marking keeps every value there was and gives -1 to every wire that
      had none. */
  lemma {:induction false} MarkAllValues(m: map<string, int>, gs: seq<Gate>)
    ensures forall w :: w in m ==> w in MarkAll(m, gs) && MarkAll(m, gs)[w] == m[w]
    ensures forall w :: w in MarkAll(m, gs) && w !in m ==> MarkAll(m, gs)[w] == -1
  {
    if |gs| > 0 {
      MarkAllValues(m, gs[..|gs| - 1]);
    }
  }

  /** The wires the gates name, as inputs or as outputs. */
  function NamedBy(gs: seq<Gate>): set<string>
  {
    if |gs| == 0 then {}
    else
      var g := gs[|gs| - 1];
      NamedBy(gs[..|gs| - 1]) + {g.inputOne, g.inputTwo, g.output}
  }

  /** The marked wires are exactly the wires there were and those a gate
      names. */
  lemma {:induction false} MarkAllNamed(m: map<string, int>, gs: seq<Gate>)
    ensures MarkAll(m, gs).Keys == m.Keys + NamedBy(gs)
  {
    if |gs| > 0 {
      MarkAllNamed(m, gs[..|gs| - 1]);
    }
  }

  /** Parsing leaves every wire known or marked, since the initial values
      are digit strings. */
  lemma {:induction false} ParsedMarks(m: map<string, int>, lines: seq<(string, string)>, gs: seq<Gate>)
    requires Marks(m) && forall i :: 0 <= i < |lines| ==> Text.AllDigits(lines[i].1)
    ensures Marks(MarkAll(LoadAll(m, lines), gs))
  {
    LoadMarks(m, lines);
    MarkAllValues(LoadAll(m, lines), gs);
  }

  lemma {:induction false} LoadMarks(m: map<string, int>, lines: seq<(string, string)>)
    requires Marks(m) && forall i :: 0 <= i < |lines| ==> Text.AllDigits(lines[i].1)
    ensures Marks(LoadAll(m, lines))
  {
    if |lines| > 0 {
      LoadMarks(m, lines[..|lines| - 1]);
    }
  }

  // ---------------------------------------------------------------------
  // Part 2: the adder walk

  /** `fmt.Sprintf("%c%02d", c, bit)`. */
  function WireName(c: char, bit: nat): string
    requires bit < 100
  {
    [c, Text.DigitChar(bit / 10), Text.DigitChar(bit % 10)]
  }

  /** The outcome of one walk over the bits: every bit fits the adder
      pattern, or the first bit that does not names two outputs to swap. */
  datatype Verdict = Fits | SwapPair(a: string, b: string)

  /** The walk of `checkParallelAdders` from `bit`, with carry wire
      `carry`, up to bit 44. */
  function Walk(gates: seq<Gate>, bit: nat, carry: string): Verdict
    requires bit < 45
    decreases 45 - bit
  {
    var x, y, z := WireName('x', bit), WireName('y', bit), WireName('z', bit);
    if bit == 0 then
      Walk(gates, 1, FirstJoin(x, y, And, gates))
    else
      var abXor := FirstJoin(x, y, Xor, gates);
      var abAnd := FirstJoin(x, y, And, gates);
      var cinAbXor := FirstJoin(abXor, carry, Xor, gates);
      if cinAbXor == "" then SwapPair(abXor, abAnd)
      else if cinAbXor != z then SwapPair(cinAbXor, z)
      else if bit + 1 >= 45 then Fits
      else Walk(gates, bit + 1, FirstJoin(abAnd, FirstJoin(abXor, carry, And, gates), Or, gates))
  }

  /** The whole repair: walk, and on a broken bit record and apply the
      swap and walk again from bit 0, at most `rounds` times. */
  function Repair(gates: seq<Gate>, rounds: nat): (seq<string>, bool)
    decreases rounds
  {
    match Walk(gates, 0, "")
    case Fits => ([], true)
    case SwapPair(a, b) =>
      if rounds == 0 then ([], false)
      else
        var (rest, finished) := Repair(Swapped(a, b, gates), rounds - 1);
        ([a, b] + rest, finished)
  }

  /** The gates with every recorded pair of outputs swapped, in order. */
  function SwapAll(gates: seq<Gate>, swaps: seq<string>): seq<Gate>
    requires |swaps| % 2 == 0
    decreases |swaps|
  {
    if |swaps| == 0 then gates
    else SwapAll(Swapped(swaps[0], swaps[1], gates), swaps[2..])
  }

  /** Swaps come in pairs, and a finished repair leaves a circuit in which
      every bit fits the adder pattern. */
  lemma {:induction false} RepairSound(gates: seq<Gate>, rounds: nat)
    ensures |Repair(gates, rounds).0| % 2 == 0
    ensures Repair(gates, rounds).1 ==> Walk(SwapAll(gates, Repair(gates, rounds).0), 0, "") == Fits
    decreases rounds
  {
    match Walk(gates, 0, "")
    case Fits =>
    case SwapPair(a, b) =>
      if rounds > 0 {
        var swapped := Swapped(a, b, gates);
        RepairSound(swapped, rounds - 1);
        var swaps := Repair(gates, rounds).0;
        assert swaps[2..] == Repair(swapped, rounds - 1).0;
      }
  }

  /** Swapping keeps the number of gates. */
  lemma {:induction false} SwapAllLength(gates: seq<Gate>, swaps: seq<string>)
    requires |swaps| % 2 == 0
    ensures |SwapAll(gates, swaps)| == |gates|
    decreases |swaps|
  {
    if |swaps| > 0 {
      SwapAllLength(Swapped(swaps[0], swaps[1], gates), swaps[2..]);
    }
  }

  /** One walk of `checkParallelAdders` over bits 0 to 44: it stops at
      the first bit that breaks the adder pattern, naming the two outputs
      the Go loop swaps before it resets `bit` to 0. */
  method WalkBits(gates: seq<Gate>) returns (verdict: Verdict)
    ensures verdict == Walk(gates, 0, "")
  {
    var currentCarryWire := "";
    var bit := 0;
    while true
      invariant 0 <= bit < 45
      invariant Walk(gates, 0, "") == Walk(gates, bit, currentCarryWire)
      decreases 45 - bit
    {
      var xWire, yWire, zWire := WireName('x', bit), WireName('y', bit), WireName('z', bit);
      if bit == 0 {
        currentCarryWire := FindGate(xWire, yWire, And, gates);
      } else {
        var abXorGate := FindGate(xWire, yWire, Xor, gates);
        var abAndGate := FindGate(xWire, yWire, And, gates);
        var cinAbXorGate := FindGate(abXorGate, currentCarryWire, Xor, gates);
        if cinAbXorGate == "" {
          return SwapPair(abXorGate, abAndGate);
        }
        if cinAbXorGate != zWire {
          return SwapPair(cinAbXorGate, zWire);
        }
        var cinAbAndGate := FindGate(abXorGate, currentCarryWire, And, gates);
        var carryWire := FindGate(abAndGate, cinAbAndGate, Or, gates);
        currentCarryWire := carryWire;
      }
      if bit + 1 >= 45 {
        return Fits;
      }
      bit := bit + 1;
    }
  }

  /** `checkParallelAdders`: walk, and on a broken bit record and apply
      the swap and walk again from bit 0. The Go loop has no bound on the
      number of restarts; here `rounds` bounds them and `finished` is false
      when the bound is reached. */
  method CheckParallelAdders(gates0: seq<Gate>, rounds: nat) returns (swaps: seq<string>, finished: bool)
    ensures (swaps, finished) == Repair(gates0, rounds)
  {
    var gates := gates0;
    swaps := [];
    var left: nat := rounds;
    assert [] + Repair(gates, left).0 == Repair(gates, left).0;
    while true
      invariant Repair(gates0, rounds) == (swaps + Repair(gates, left).0, Repair(gates, left).1)
      decreases left
    {
      var verdict := WalkBits(gates);
      if verdict.Fits? {
        assert swaps + [] == swaps;
        return swaps, true;
      }
      if left == 0 {
        assert swaps + [] == swaps;
        return swaps, false;
      }
      assert swaps + ([verdict.a, verdict.b] + Repair(Swapped(verdict.a, verdict.b, gates), left - 1).0)
          == (swaps + [verdict.a, verdict.b]) + Repair(Swapped(verdict.a, verdict.b, gates), left - 1).0;
      swaps := swaps + [verdict.a, verdict.b];
      gates := SwapOutputWires(verdict.a, verdict.b, gates);
      left := left - 1;
    }
  }

  /** `part2`: the swapped wires, sorted and joined with commas. */
  method Part2(gates: seq<Gate>, rounds: nat) returns (answer: Option<string>)
    ensures answer.Some? <==> Repair(gates, rounds).1
    ensures answer.Some? ==>
              answer.value == Text.Join(Sorting.SortStrings(Repair(gates, rounds).0), ',')
  {
    var swaps, finished := CheckParallelAdders(gates, rounds);
    if !finished {
      return None;
    }
    var sorted := Sorting.SortStrings(swaps);
    return Some(Text.Join(sorted, ','));
  }
}
