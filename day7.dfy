/** Day 7: bridge repair. Each equation is a target and a list of numbers;
    it is solvable when some choice of operators, applied strictly left to
    right, turns the numbers into the target. Part 1 allows `+` and `*`,
    part 2 also the digit concatenation `||`. Each equation is decided by a
    table whose entry `i` holds every value the first `i + 1` numbers can
    produce. */
module Day7 {
  import opened Wrappers
  import opened Text
  import opened GoInt
  import HashSetUtil

  datatype Equation = Equation(target: int, values: seq<int>)

  // ---------------------------------------------------------------------
  // parseEquations

  /** One line: the first space-separated token without its last character
      is the target, the remaining tokens are the numbers. An empty first
      token makes Go slice to -1 and panic; a token that is not a number
      makes `util.ParseInt` exit. */
  function ParseLine(line: string): Option<Equation>
  {
    var split := Split(line, ' ');
    var head := split[0];
    if |head| == 0 then None
    else
      match Atoi(head[..|head| - 1])
      case None => None
      case Some(target) =>
        match AtoiAll(split[1..])
        case None => None
        case Some(values) => Some(Equation(target, values))
  }

  /** Every line parsed, or None when some line stops the program. */
  function ParseAll(input: seq<string>): (r: Option<seq<Equation>>)
    ensures r.Some? <==> forall k :: 0 <= k < |input| ==> ParseLine(input[k]).Some?
    ensures r.Some? ==> |r.value| == |input| &&
                        forall k :: 0 <= k < |input| ==> ParseLine(input[k]) == Some(r.value[k])
  {
    if |input| == 0 then Some([])
    else
      match ParseAll(input[..|input| - 1])
      case None => None
      case Some(front) =>
        match ParseLine(input[|input| - 1])
        case None => None
        case Some(eq) => Some(front + [eq])
  }

  /** The puzzle's own line format: `target: v1 v2 ...`. */
  function Format(eq: Equation): string
  {
    Join([Itoa(eq.target) + ":"] + Numerals(eq.values), ' ')
  }

  /** Parsing a formatted equation gives the equation back. */
  lemma ParseFormat(eq: Equation)
    ensures ParseLine(Format(eq)) == Some(eq)
  {
    var head := Itoa(eq.target) + ":";
    FormatSplit(eq);
    assert head[..|head| - 1] == Itoa(eq.target);
    AtoiItoa(eq.target);
    AtoiAllNumerals(eq.values);
    assert ([head] + Numerals(eq.values))[1..] == Numerals(eq.values);
  }

  lemma FormatSplit(eq: Equation)
    ensures Split(Format(eq), ' ') == [Itoa(eq.target) + ":"] + Numerals(eq.values)
  {
    var parts := [Itoa(eq.target) + ":"] + Numerals(eq.values);
    forall p | p in parts
      ensures ' ' !in p
    {
      var k :| 0 <= k < |parts| && parts[k] == p;
      if k == 0 {
        ItoaChars(eq.target);
      } else {
        ItoaChars(eq.values[k - 1]);
      }
    }
    JoinSplit(parts, ' ');
  }

  /** `parseEquations`: the lines in order, each split on single spaces. */
  method ParseEquations(input: seq<string>) returns (eqs: Option<seq<Equation>>)
    ensures eqs == ParseAll(input)
  {
    var list: seq<Equation> := [];
    for n := 0 to |input|
      invariant ParseAll(input[..n]) == Some(list)
    {
      var eq := ParseEquation(input[n]);
      assert input[..n + 1][..n] == input[..n];
      if eq.None? {
        return None;
      }
      list := list + [eq.value];
    }
    assert input[..|input|] == input;
    return Some(list);
  }

  /** The body of the loop in `parseEquations`, for one line. */
  method ParseEquation(line: string) returns (eq: Option<Equation>)
    ensures eq == ParseLine(line)
  {
    var split := Split(line, ' ');
    var targetStr := split[0];
    if |targetStr| == 0 {
      return None;
    }
    targetStr := targetStr[..|targetStr| - 1];
    var target := Atoi(targetStr);
    if target.None? {
      return None;
    }
    var values: seq<int> := [];
    for i := 1 to |split|
      invariant AtoiAll(split[1..i]) == Some(values)
    {
      var v := Atoi(split[i]);
      assert split[1..i + 1][..i - 1] == split[1..i];
      if v.None? {
        assert split[1..i + 1][i - 1] == split[i];
        return None;
      }
      values := values + [v.value];
    }
    assert split[1..|split|] == split[1..];
    return Some(Equation(target.value, values));
  }

  // ---------------------------------------------------------------------
  // Operators

  /** `v || x`: the digits of `x` written after those of `v`. The sign of
      `v` stays in front, as in the string Go builds. */
  function CatValue(v: int, x: nat): int
  {
    var shifted := Abs(v) * Pow10(|NatDigits(x)|) + x;
    if v < 0 then -shifted else shifted
  }

  /** `util.ParseInt(strconv.Itoa(v) + strconv.Itoa(x))`; None where the
      parse fails and the Go helper exits. */
  function ParsedConcat(v: int, x: int): Option<int>
  {
    Atoi(Itoa(v) + Itoa(x))
  }

  /** Concatenating through strings is `CatValue` for a non-negative right
      operand; a negative one puts a minus sign inside the string and the
      parse fails. */
  lemma ConcatDecimal(v: int, x: int)
    ensures x >= 0 ==> ParsedConcat(v, x) == Some(CatValue(v, x))
    ensures x < 0 ==> ParsedConcat(v, x) == None
  {
    if x >= 0 {
      var digits := NatDigits(Abs(v)) + NatDigits(x);
      UnsignedAppend(Abs(v), x);
      if v < 0 {
        assert Itoa(v) + Itoa(x) == "-" + digits;
        assert ("-" + digits)[1..] == digits;
      } else {
        assert Itoa(v) + Itoa(x) == digits;
      }
    } else {
      MinusInside(v, x);
    }
  }

  /** A negative right operand leaves a minus sign after the first
      character, so neither the string nor its unsigned tail is digits. */
  lemma MinusInside(v: int, x: int)
    requires x < 0
    ensures Atoi(Itoa(v) + Itoa(x)) == None
  {
    var s := Itoa(v) + Itoa(x);
    var minus := |Itoa(v)|;
    assert s[minus] == '-';
    assert !AllDigits(s);
    if v < 0 {
      assert s[1..][minus - 1] == '-';
      assert !AllDigits(s[1..]);
    }
  }

  /** The digits of `a` followed by those of `b` read as one number. */
  lemma UnsignedAppend(a: nat, b: nat)
    ensures Unsigned(NatDigits(a) + NatDigits(b)) == Some(a * Pow10(|NatDigits(b)|) + b)
    ensures (NatDigits(a) + NatDigits(b))[0] != '-' && (NatDigits(a) + NatDigits(b))[0] != '+'
  {
    var da, db := NatDigits(a), NatDigits(b);
    ParseDigitsAppend(da, db);
    ParseNatDigits(a);
    ParseNatDigits(b);
    assert (da + db)[0] == da[0] && IsDigit(da[0]);
  }

  /** Every value one more number produces from the values in `s`: sums,
      products and, when concatenation is on, concatenations. */
  function Step(s: set<int>, x: int, withConcat: bool): set<int>
  {
    (set v | v in s :: v + x) + (set v | v in s :: v * x) +
    (if withConcat && x >= 0 then set v | v in s :: CatValue(v, x) else {})
  }

  lemma StepAdd(s: set<int>, v: int, x: int, withConcat: bool)
    ensures Step(s + {v}, x, withConcat) ==
            Step(s, x, withConcat) + {v + x, v * x} +
            (if withConcat && x >= 0 then {CatValue(v, x)} else {})
  {
  }

  /** The value when every operator is `+`. */
  function Added(values: seq<int>): int
  {
    if |values| == 0 then 0 else Added(values[..|values| - 1]) + values[|values| - 1]
  }

  /** Adding throughout is one of the choices, so the table is never
      empty. */
  lemma {:induction false} LevelHasAdded(values: seq<int>, withConcat: bool)
    requires |values| >= 1
    ensures Added(values) in Level(values, withConcat)
  {
    if |values| > 1 {
      var front := values[..|values| - 1];
      LevelHasAdded(front, withConcat);
      assert Added(front) + values[|values| - 1] in Step(Level(front, withConcat), values[|values| - 1], withConcat);
    }
  }

  /** The last table entry: every value the numbers can produce. */
  function Level(values: seq<int>, withConcat: bool): set<int>
    requires |values| >= 1
  {
    if |values| == 1 then {values[0]}
    else
      var front := Level(values[..|values| - 1], withConcat);
      Step(front, values[|values| - 1], withConcat)
  }

  /** Every number after the first is non-negative: only then can part 2
      concatenate without the parse failing. */
  predicate LaterNonNegative(values: seq<int>)
  {
    forall k :: 1 <= k < |values| ==> values[k] >= 0
  }

  // ---------------------------------------------------------------------
  // One equation (the body of each goroutine)

  /** What one equation's goroutine does: None when it stops the program
      (no numbers, so `dp[0]` is out of range; or a concatenation that does
      not parse), otherwise whether it sends its target. */
  function Outcome(eq: Equation, withConcat: bool): Option<bool>
  {
    if |eq.values| == 0 then None
    else if withConcat && !LaterNonNegative(eq.values) then None
    else Some(eq.target in Level(eq.values, withConcat))
  }

  /** The table `dp`, filled entry by entry from the elements of the entry
      before, taken in any order. */
  method Calibrate(eq: Equation, withConcat: bool) returns (outcome: Option<bool>)
    ensures outcome == Outcome(eq, withConcat)
  {
    var values := eq.values;
    var n := |values|;
    if n == 0 {
      return None;
    }
    var dp := new set<int>[n](_ => {});
    dp[0] := {values[0]};
    assert values[..1] == [values[0]];
    var i := 1;
    while i < n
      invariant 1 <= i <= n
      invariant dp[i - 1] == Level(values[..i], withConcat)
      invariant withConcat ==> LaterNonNegative(values[..i])
    {
      LevelHasAdded(values[..i], withConcat);
      var next := NextEntry(dp[i - 1], values[i], withConcat);
      if next.None? {
        LevelNext(values, i, withConcat);
        return None;
      }
      LevelNext(values, i, withConcat);
      dp[i] := next.value;
      i := i + 1;
    }
    assert values[..n] == values;
    return Some(eq.target in dp[n - 1]);
  }

  /** The table grows by one step per number. */
  lemma LevelNext(values: seq<int>, i: nat, withConcat: bool)
    requires 1 <= i < |values|
    ensures Level(values[..i + 1], withConcat) == Step(Level(values[..i], withConcat), values[i], withConcat)
    ensures LaterNonNegative(values[..i]) && values[i] >= 0 ==> LaterNonNegative(values[..i + 1])
    ensures values[i] < 0 ==> !LaterNonNegative(values)
  {
    assert values[..i + 1][..i] == values[..i];
  }

  /** The inner loop: over the previous entry's members as a slice, in
      any order, each combined with the next number. None when a
      concatenation does not parse, which happens on the first member once
      the number is negative. */
  method NextEntry(prev: set<int>, x: int, withConcat: bool) returns (next: Option<set<int>>)
    ensures next == if withConcat && x < 0 && prev != {} then None else Some(Step(prev, x, withConcat))
  {
    var currentTable := HashSetUtil.Elements(prev);
    ghost var done: set<int> := {};
    var entry: set<int> := {};
    for k := 0 to |currentTable|
      invariant done == set v | v in currentTable[..k]
      invariant entry == Step(done, x, withConcat)
      invariant withConcat && x < 0 ==> k == 0
    {
      var val := currentTable[k];
      StepAdd(done, val, x, withConcat);
      entry := entry + {val + x, val * x};
      if withConcat {
        var joined := ParsedConcat(val, x);
        ConcatDecimal(val, x);
        if joined.None? {
          return None;
        }
        entry := entry + {joined.value};
      }
      assert currentTable[..k + 1] == currentTable[..k] + [val];
      done := done + {val};
    }
    assert currentTable[..|currentTable|] == currentTable;
    assert done == prev;
    return Some(entry);
  }

  // ---------------------------------------------------------------------
  // The answer

  /** The sum of the targets the equations send. */
  function Contributed(eqs: seq<Equation>, withConcat: bool): int
    requires forall k :: 0 <= k < |eqs| ==> Outcome(eqs[k], withConcat).Some?
  {
    if |eqs| == 0 then 0
    else
      var last := eqs[|eqs| - 1];
      Contributed(eqs[..|eqs| - 1], withConcat) +
      (if Outcome(last, withConcat).value then last.target else 0)
  }

  /** `part1` (`withConcat` false) and `part2` (true): the sum, or None when
      some goroutine stops the program. */
  function Total(eqs: seq<Equation>, withConcat: bool): Option<int>
  {
    if forall k :: 0 <= k < |eqs| ==> Outcome(eqs[k], withConcat).Some? then
      Some(Contributed(eqs, withConcat))
    else None
  }

  /** The goroutines and the results channel, run one equation after the
      other. */
  method Sum(eqs: seq<Equation>, withConcat: bool) returns (answer: Option<int>)
    ensures answer == Total(eqs, withConcat)
  {
    var sum := 0;
    for k := 0 to |eqs|
      invariant forall j :: 0 <= j < k ==> Outcome(eqs[j], withConcat).Some?
      invariant sum == Contributed(eqs[..k], withConcat)
    {
      var result := Calibrate(eqs[k], withConcat);
      if result.None? {
        return None;
      }
      assert eqs[..k + 1][..k] == eqs[..k];
      if result.value {
        sum := sum + eqs[k].target;
      }
    }
    assert eqs[..|eqs|] == eqs;
    return Some(sum);
  }

  // ---------------------------------------------------------------------
  // Operator choices

  datatype Operator = Add | Mul | Cat

  /** `ops` has one operator between each pair of numbers, and every `||`
      has a non-negative right operand. */
  predicate Fits(values: seq<int>, ops: seq<Operator>)
  {
    |ops| + 1 == |values| && forall k :: 0 <= k < |ops| && ops[k] == Cat ==> values[k + 1] >= 0
  }

  predicate Allowed(ops: seq<Operator>, withConcat: bool)
  {
    withConcat || forall k :: 0 <= k < |ops| ==> ops[k] != Cat
  }

  function Apply(v: int, op: Operator, x: int): int
    requires op == Cat ==> x >= 0
  {
    match op
    case Add => v + x
    case Mul => v * x
    case Cat => CatValue(v, x)
  }

  /** The operators applied strictly left to right. */
  function Eval(values: seq<int>, ops: seq<Operator>): int
    requires Fits(values, ops)
  {
    if |ops| == 0 then values[0]
    else
      var n := |ops|;
      assert Fits(values[..n], ops[..n - 1]);
      Apply(Eval(values[..n], ops[..n - 1]), ops[n - 1], values[n])
  }

  /** Every operator choice produces a value in the table. */
  lemma {:induction false} LevelComplete(values: seq<int>, ops: seq<Operator>, withConcat: bool)
    requires Fits(values, ops) && Allowed(ops, withConcat)
    ensures Eval(values, ops) in Level(values, withConcat)
  {
    if |ops| > 0 {
      var n := |ops|;
      var front, op, x := values[..n], ops[n - 1], values[n];
      assert Fits(front, ops[..n - 1]) && Allowed(ops[..n - 1], withConcat);
      LevelComplete(front, ops[..n - 1], withConcat);
      var v := Eval(front, ops[..n - 1]);
      assert v in Level(front, withConcat);
      assert Apply(v, op, x) in Step(Level(front, withConcat), x, withConcat);
    }
  }

  /** Every value in the table comes from some operator choice. */
  lemma {:induction false} LevelWitness(values: seq<int>, withConcat: bool, t: int) returns (ops: seq<Operator>)
    requires |values| >= 1 && t in Level(values, withConcat)
    ensures Fits(values, ops) && Allowed(ops, withConcat) && Eval(values, ops) == t
    decreases |values|
  {
    if |values| == 1 {
      ops := [];
    } else {
      var n := |values| - 1;
      var front, x := values[..n], values[n];
      assert Level(values, withConcat) == Step(Level(front, withConcat), x, withConcat);
      var op, v := StepSource(Level(front, withConcat), x, withConcat, t);
      var prefix := LevelWitness(front, withConcat, v);
      ops := prefix + [op];
      assert ops[..n - 1] == prefix;
      assert forall k :: 0 <= k < n - 1 ==> ops[k] == prefix[k];
      assert Fits(values, ops);
      assert Eval(values, ops) == Apply(Eval(front, prefix), op, x);
    }
  }

  /** A value one step produces comes from some earlier value and
      operator. */
  lemma StepSource(s: set<int>, x: int, withConcat: bool, t: int) returns (op: Operator, v: int)
    requires t in Step(s, x, withConcat)
    ensures v in s && (op == Cat ==> withConcat && x >= 0) && Apply(v, op, x) == t
  {
    if v' :| v' in s && v' + x == t {
      op, v := Add, v';
    } else if v' :| v' in s && v' * x == t {
      op, v := Mul, v';
    } else {
      var v' :| v' in s && withConcat && x >= 0 && CatValue(v', x) == t;
      op, v := Cat, v';
    }
  }

  /** A target is in the last table entry exactly when some left-to-right
      operator choice turns the numbers into it. */
  lemma LevelIff(values: seq<int>, withConcat: bool, t: int)
    requires |values| >= 1
    ensures t in Level(values, withConcat) <==>
            exists ops :: Fits(values, ops) && Allowed(ops, withConcat) && Eval(values, ops) == t
  {
    if t in Level(values, withConcat) {
      var ops := LevelWitness(values, withConcat, t);
    }
    if ops :| Fits(values, ops) && Allowed(ops, withConcat) && Eval(values, ops) == t {
      LevelComplete(values, ops, withConcat);
    }
  }

  /** Part 2's table holds everything part 1's does. */
  lemma {:induction false} LevelGrows(values: seq<int>)
    requires |values| >= 1
    ensures Level(values, false) <= Level(values, true)
  {
    if |values| > 1 {
      LevelGrows(values[..|values| - 1]);
    }
  }

  /** With non-negative targets, part 2's answer is at least part 1's, and
      part 1 stops the program only where part 2 does too. */
  lemma {:induction false} TotalGrows(eqs: seq<Equation>)
    requires forall k :: 0 <= k < |eqs| ==> eqs[k].target >= 0
    requires Total(eqs, true).Some?
    ensures Total(eqs, false).Some?
    ensures Total(eqs, false).value <= Total(eqs, true).value
    decreases |eqs|
  {
    assert forall k :: 0 <= k < |eqs| ==> Outcome(eqs[k], false).Some?;
    if |eqs| > 0 {
      var front := eqs[..|eqs| - 1];
      assert forall k :: 0 <= k < |front| ==> front[k] == eqs[k];
      TotalGrows(front);
      var last := eqs[|eqs| - 1];
      LevelGrows(last.values);
    }
  }
}
