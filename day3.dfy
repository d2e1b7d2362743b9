/** Day 3: the `mul(X,Y)` instructions in a corrupted memory dump. Part 1
    sums the products of all of them; part 2 only of those enabled, where a
    `don't()` disables the instructions after it and a `do()` enables them
    again. The regular-expression matches are given as a list of tokens. */
module Day3 {
  import opened Wrappers
  import opened Text

  /** One match of the part 2 pattern: `mul(x,y)` with its two numerals,
      `do()` or `don't()`. The part 1 pattern matches the `mul` tokens
      alone. */
  datatype Token = Mul(x: string, y: string) | Do | Dont

  /** The text a token was matched from. */
  function TokenText(t: Token): string
  {
    match t
    case Mul(x, y) => "mul(" + x + "," + y + ")"
    case Do => "do()"
    case Dont => "don't()"
  }

  /** What the pattern guarantees: each numeral of a `mul` is one to three
      decimal digits. */
  predicate WellFormed(t: Token)
  {
    t.Mul? ==> 1 <= |t.x| <= 3 && AllDigits(t.x) && 1 <= |t.y| <= 3 && AllDigits(t.y)
  }

  /** Comparing the matched text with "do()" or "don't()", as Go does, is
      telling the token apart. */
  lemma TokenTextDistinct(t: Token)
    ensures TokenText(t) == "do()" <==> t == Do
    ensures TokenText(t) == "don't()" <==> t == Dont
  {
    if t.Mul? {
      assert TokenText(t)[0] == 'm';
    }
  }

  // ---------------------------------------------------------------------
  // matchPattern

  /** The filter: the `mul` tokens met while enabled, in order, starting
      with `on`; `don't()` turns it off and `do()` on. */
  function Enabled(on: bool, tokens: seq<Token>): seq<Token>
    decreases |tokens|
  {
    if |tokens| == 0 then []
    else
      match tokens[0]
      case Dont => Enabled(false, tokens[1..])
      case Do => Enabled(true, tokens[1..])
      case Mul(_, _) => (if on then [tokens[0]] else []) + Enabled(on, tokens[1..])
  }

  /** Whether the filter is on after `tokens`, having started `on`. */
  function After(on: bool, tokens: seq<Token>): bool
    decreases |tokens|
  {
    if |tokens| == 0 then on
    else
      match tokens[0]
      case Dont => After(false, tokens[1..])
      case Do => After(true, tokens[1..])
      case Mul(_, _) => After(on, tokens[1..])
  }

  /** The most recent `do()` or `don't()`, if any. */
  function LastSwitch(tokens: seq<Token>): Option<Token>
  {
    if |tokens| == 0 then None
    else if tokens[|tokens| - 1].Mul? then LastSwitch(tokens[..|tokens| - 1])
    else Some(tokens[|tokens| - 1])
  }

  /** The `mul` tokens, in order. */
  function Muls(tokens: seq<Token>): seq<Token>
  {
    if |tokens| == 0 then [] else (if tokens[0].Mul? then [tokens[0]] else []) + Muls(tokens[1..])
  }

  /** The numerals `numRe` finds in each token: "x,y" for a `mul`, none
      for the others. */
  function NumberStrings(tokens: seq<Token>): seq<string>
  {
    if |tokens| == 0 then []
    else (if tokens[0].Mul? then [tokens[0].x + "," + tokens[0].y] else []) + NumberStrings(tokens[1..])
  }

  lemma {:induction false} NumberStringsAppend(a: seq<Token>, b: seq<Token>)
    ensures NumberStrings(a + b) == NumberStrings(a) + NumberStrings(b)
  {
    if |a| == 0 {
      assert a + b == b;
    } else {
      assert (a + b)[0] == a[0] && (a + b)[1..] == a[1..] + b;
      NumberStringsAppend(a[1..], b);
    }
  }

  /** `matchPattern` on the tokens the pattern found: with `filter`, only
      the `mul` tokens the filter lets through; then the "x,y" numerals of
      each. */
  method MatchPattern(matches: seq<Token>, filter: bool) returns (extractedNumbers: seq<string>)
    ensures extractedNumbers == NumberStrings(if filter then Enabled(true, matches) else matches)
  {
    var kept := matches;
    if filter {
      kept := FilterSwitches(matches);
    }
    extractedNumbers := [];
    for k := 0 to |kept|
      invariant extractedNumbers == NumberStrings(kept[..k])
    {
      var m := kept[k];
      NumberStringsAppend(kept[..k], [m]);
      assert kept[..k + 1] == kept[..k] + [m];
      if m.Mul? {
        extractedNumbers := extractedNumbers + [m.x + "," + m.y];
      }
    }
    assert kept[..|kept|] == kept;
  }

  /** The filtering loop of `matchPattern`: `skip` is set by "don't()",
      cleared by "do()", and every other match is kept while it is
      clear. */
  method FilterSwitches(matches: seq<Token>) returns (validResults: seq<Token>)
    ensures validResults == Enabled(true, matches)
  {
    validResults := [];
    var skip := false;
    for k := 0 to |matches|
      invariant validResults + Enabled(!skip, matches[k..]) == Enabled(true, matches)
    {
      var m := matches[k];
      assert matches[k..][1..] == matches[k + 1..];
      TokenTextDistinct(m);
      if TokenText(m) == "don't()" {
        skip := true;
      } else if TokenText(m) == "do()" {
        skip := false;
      }
      if TokenText(m) != "do()" && TokenText(m) != "don't()" && !skip {
        validResults := validResults + [m];
      }
    }
  }

  /** The filter lets no `do()` or `don't()` through. */
  lemma {:induction false} EnabledMuls(on: bool, tokens: seq<Token>)
    ensures forall t :: t in Enabled(on, tokens) ==> t.Mul?
    decreases |tokens|
  {
    if |tokens| > 0 {
      EnabledMuls(false, tokens[1..]);
      EnabledMuls(true, tokens[1..]);
    }
  }

  /** Filtering in two pieces: the second piece starts in the state the
      first left. */
  lemma {:induction false} EnabledAppend(on: bool, a: seq<Token>, b: seq<Token>)
    ensures Enabled(on, a + b) == Enabled(on, a) + Enabled(After(on, a), b)
    decreases |a|
  {
    if |a| == 0 {
      assert a + b == b;
    } else {
      assert (a + b)[1..] == a[1..] + b;
      assert (a + b)[0] == a[0];
      match a[0]
      case Dont => EnabledAppend(false, a[1..], b);
      case Do => EnabledAppend(true, a[1..], b);
      case Mul(_, _) => EnabledAppend(on, a[1..], b);
    }
  }

  /** Only the most recent `do()` or `don't()` applies: after one the
      filter is on exactly when it was a `do()`, and before any it keeps
      its starting state. */
  lemma {:induction false} AfterLastSwitch(on: bool, tokens: seq<Token>)
    ensures After(on, tokens) == if LastSwitch(tokens).None? then on else LastSwitch(tokens) == Some(Do)
    decreases |tokens|
  {
    if |tokens| > 0 {
      var n := |tokens| - 1;
      AfterSnoc(on, tokens[..n], tokens[n]);
      assert tokens == tokens[..n] + [tokens[n]];
      AfterLastSwitch(on, tokens[..n]);
    }
  }

  lemma {:induction false} AfterSnoc(on: bool, a: seq<Token>, t: Token)
    ensures After(on, a + [t]) == match t case Do => true case Dont => false case Mul(_, _) => After(on, a)
    decreases |a|
  {
    if |a| == 0 {
      assert [t][1..] == [];
    } else {
      assert (a + [t])[1..] == a[1..] + [t];
      match a[0]
      case Dont => AfterSnoc(false, a[1..], t);
      case Do => AfterSnoc(true, a[1..], t);
      case Mul(_, _) => AfterSnoc(on, a[1..], t);
    }
  }

  /** A `mul` token is kept exactly when the filter is on after the tokens
      before it: the most recent switch before it is a `do()`, or there is
      none. */
  lemma MulKept(before: seq<Token>, m: Token, after: seq<Token>)
    requires m.Mul?
    ensures Enabled(true, before + [m] + after)
            == Enabled(true, before) + (if LastSwitch(before) != Some(Dont) then [m] else []) + Enabled(After(true, before + [m]), after)
  {
    var on := After(true, before);
    var kept := if LastSwitch(before) != Some(Dont) then [m] else [];
    AfterLastSwitch(true, before);
    LastSwitchIsSwitch(before);
    assert on == (LastSwitch(before) != Some(Dont));
    EnabledOne(on, m);
    EnabledAppend(true, before, [m]);
    assert Enabled(true, before + [m]) == Enabled(true, before) + kept;
    EnabledAppend(true, before + [m], after);
  }

  /** The filter keeps a lone `mul` token exactly when it is on. */
  lemma EnabledOne(on: bool, m: Token)
    requires m.Mul?
    ensures Enabled(on, [m]) == if on then [m] else []
  {
    assert [m][1..] == [];
  }

  lemma {:induction false} LastSwitchIsSwitch(tokens: seq<Token>)
    ensures LastSwitch(tokens).Some? ==> !LastSwitch(tokens).value.Mul?
  {
    if |tokens| > 0 && tokens[|tokens| - 1].Mul? {
      LastSwitchIsSwitch(tokens[..|tokens| - 1]);
    }
  }

  /** With no `don't()` the filter keeps every `mul` token, in order. */
  lemma {:induction false} EnabledWithoutDont(tokens: seq<Token>)
    requires Dont !in tokens
    ensures Enabled(true, tokens) == Muls(tokens)
  {
    if |tokens| > 0 {
      assert forall t :: t in tokens[1..] ==> t in tokens;
      EnabledWithoutDont(tokens[1..]);
    }
  }

  // ---------------------------------------------------------------------
  // extractNumbers and findProductSum

  /** One pair: the two pieces around the first comma, each read with
      `strconv.Atoi`, 0 when it is not a number; None when there is no
      comma (Go indexes past the pieces and panics). */
  function Pair(numStr: string): Option<(int, int)>
  {
    var numbers := Split(numStr, ',');
    if |numbers| < 2 then None else Some((AtoiOrZero(numbers[0]), AtoiOrZero(numbers[1])))
  }

  /** The pairs of all the strings, in order; None when one has no
      comma. */
  function Pairs(numsInStr: seq<string>): (r: Option<seq<(int, int)>>)
    ensures r.Some? <==> forall k :: 0 <= k < |numsInStr| ==> Pair(numsInStr[k]).Some?
    ensures r.Some? ==> |r.value| == |numsInStr| &&
                        forall k :: 0 <= k < |numsInStr| ==> Pair(numsInStr[k]) == Some(r.value[k])
  {
    if |numsInStr| == 0 then Some([])
    else
      match (Pairs(numsInStr[..|numsInStr| - 1]), Pair(numsInStr[|numsInStr| - 1]))
      case (Some(pairs), Some(p)) => Some(pairs + [p])
      case _ => None
  }

  /** `extractNumbers`. */
  method ExtractNumbers(numsInStr: seq<string>) returns (results: Option<seq<(int, int)>>)
    ensures results == Pairs(numsInStr)
  {
    var pairs: seq<(int, int)> := [];
    for k := 0 to |numsInStr|
      invariant Pairs(numsInStr[..k]) == Some(pairs)
    {
      assert numsInStr[..k + 1][..k] == numsInStr[..k] && numsInStr[..k + 1][k] == numsInStr[k];
      var numbers := Split(numsInStr[k], ',');
      if |numbers| < 2 {
        return None;
      }
      pairs := pairs + [(AtoiOrZero(numbers[0]), AtoiOrZero(numbers[1]))];
    }
    assert numsInStr[..|numsInStr|] == numsInStr;
    return Some(pairs);
  }

  /** The sum of the products of the pairs. */
  function ProductSum(pairs: seq<(int, int)>): int
  {
    if |pairs| == 0 then 0 else ProductSum(pairs[..|pairs| - 1]) + pairs[|pairs| - 1].0 * pairs[|pairs| - 1].1
  }

  /** `findProductSum`. */
  method FindProductSum(extractedPairs: seq<(int, int)>) returns (sum: int)
    ensures sum == ProductSum(extractedPairs)
  {
    sum := 0;
    for k := 0 to |extractedPairs|
      invariant sum == ProductSum(extractedPairs[..k])
    {
      assert extractedPairs[..k + 1][..k] == extractedPairs[..k];
      sum := sum + extractedPairs[k].0 * extractedPairs[k].1;
    }
    assert extractedPairs[..|extractedPairs|] == extractedPairs;
  }

  /** The sum splits over concatenation; it is 0 for no pairs. */
  lemma {:induction false} ProductSumAppend(a: seq<(int, int)>, b: seq<(int, int)>)
    ensures ProductSum(a + b) == ProductSum(a) + ProductSum(b)
    decreases |b|
  {
    if |b| == 0 {
      assert a + b == a;
    } else {
      var n := |b| - 1;
      assert (a + b)[..|a| + n] == a + b[..n] && (a + b)[|a| + n] == b[n];
      ProductSumAppend(a, b[..n]);
    }
  }

  // ---------------------------------------------------------------------
  // The instructions' meaning

  /** x * y for a `mul` of two numerals, 0 for the other tokens. */
  function Product(t: Token): nat
  {
    if t.Mul? && AllDigits(t.x) && AllDigits(t.y) then ParseDigits(t.x) * ParseDigits(t.y) else 0
  }

  /** The sum of x * y over the `mul` tokens. */
  function Value(tokens: seq<Token>): nat
  {
    if |tokens| == 0 then 0 else Product(tokens[0]) + Value(tokens[1..])
  }

  /** The numerals of a `mul` read back as its two numbers. */
  lemma PairOfMul(t: Token)
    requires t.Mul? && WellFormed(t)
    ensures Pair(t.x + "," + t.y) == Some((ParseDigits(t.x), ParseDigits(t.y)))
  {
    assert ',' !in t.x by {
      assert forall i :: 0 <= i < |t.x| ==> IsDigit(t.x[i]);
    }
    assert ',' !in t.y by {
      assert forall i :: 0 <= i < |t.y| ==> IsDigit(t.y[i]);
    }
    SplitAfter(t.x, ',', t.y);
    SplitNoSep(t.y, ',');
    assert t.x + "," + t.y == t.x + [','] + t.y;
    AtoiDigits(t.x);
    AtoiDigits(t.y);
  }

  /** Reading and multiplying the numerals of well-formed tokens sums x * y
      over their `mul` tokens. */
  lemma {:induction false} ValueOfNumbers(tokens: seq<Token>)
    requires forall t :: t in tokens ==> WellFormed(t)
    ensures Pairs(NumberStrings(tokens)).Some?
    ensures ProductSum(Pairs(NumberStrings(tokens)).value) == Value(tokens)
  {
    if |tokens| > 0 {
      var t := tokens[0];
      assert t in tokens && forall u :: u in tokens[1..] ==> u in tokens;
      ValueOfNumbers(tokens[1..]);
      var rest := NumberStrings(tokens[1..]);
      var head: seq<string> := if t.Mul? then [t.x + "," + t.y] else [];
      var restPairs := Pairs(rest).value;
      var headPairs: seq<(int, int)> := if t.Mul? then [(ParseDigits(t.x), ParseDigits(t.y))] else [];
      if t.Mul? {
        PairOfMul(t);
        assert head[..0] == [] && head[0] == t.x + "," + t.y;
        assert Pairs(head) == Some([] + [(ParseDigits(t.x), ParseDigits(t.y))]);
        assert [] + [(ParseDigits(t.x), ParseDigits(t.y))] == headPairs;
      } else {
        assert head == [] && headPairs == [];
      }
      assert Pairs(head) == Some(headPairs);
      PairsAppend(head, rest);
      ProductSumAppend(headPairs, restPairs);
      assert ProductSum(headPairs) == Product(t) by {
        if t.Mul? {
          assert headPairs[..0] == [];
        }
      }
    }
  }

  lemma PairsAppend(a: seq<string>, b: seq<string>)
    requires Pairs(a).Some? && Pairs(b).Some?
    ensures Pairs(a + b) == Some(Pairs(a).value + Pairs(b).value)
  {
    var r := Pairs(a + b);
    assert forall k :: 0 <= k < |a + b| ==> Pair((a + b)[k]).Some? by {
      forall k | 0 <= k < |a + b| ensures Pair((a + b)[k]).Some? {
        if k < |a| {
          assert (a + b)[k] == a[k];
        } else {
          assert (a + b)[k] == b[k - |a|];
        }
      }
    }
    var expected := Pairs(a).value + Pairs(b).value;
    assert r.value == expected by {
      forall k | 0 <= k < |a + b| ensures r.value[k] == expected[k] {
        if k < |a| {
          assert (a + b)[k] == a[k];
        } else {
          assert (a + b)[k] == b[k - |a|];
        }
      }
    }
  }

  /** Disabled instructions only take products away: part 2 never exceeds
      part 1. */
  lemma {:induction false} EnabledValueAtMost(on: bool, tokens: seq<Token>)
    ensures forall t :: t in Enabled(on, tokens) ==> t in tokens
    ensures Value(Enabled(on, tokens)) <= Value(tokens)
    decreases |tokens|
  {
    if |tokens| > 0 {
      assert tokens[0] in tokens && forall t :: t in tokens[1..] ==> t in tokens;
      var t := tokens[0];
      var next := if t == Dont then false else if t == Do then true else on;
      EnabledValueAtMost(next, tokens[1..]);
      if t.Mul? && on {
        assert Enabled(on, tokens) == [t] + Enabled(on, tokens[1..]);
        assert ([t] + Enabled(on, tokens[1..]))[1..] == Enabled(on, tokens[1..]);
      } else if t.Mul? {
        assert Enabled(on, tokens) == [] + Enabled(on, tokens[1..]) == Enabled(on, tokens[1..]);
      } else {
        assert Enabled(on, tokens) == Enabled(next, tokens[1..]);
      }
    }
  }

  // ---------------------------------------------------------------------
  // part1, part2 and main

  /** `part1` on the matches of the part 1 pattern: the products of every
      pair summed. */
  method Part1(matches: seq<Token>) returns (sum: Option<int>)
    ensures sum == match Pairs(NumberStrings(matches)) case None => None case Some(pairs) => Some(ProductSum(pairs))
  {
    var numbers := MatchPattern(matches, false);
    var extractedPairs := ExtractNumbers(numbers);
    if extractedPairs.None? {
      return None;
    }
    var total := FindProductSum(extractedPairs.value);
    return Some(total);
  }

  /** `part2` on the matches of the part 2 pattern: the products of the
      enabled pairs summed. */
  method Part2(matches: seq<Token>) returns (sum: Option<int>)
    ensures sum == match Pairs(NumberStrings(Enabled(true, matches))) case None => None case Some(pairs) => Some(ProductSum(pairs))
  {
    var numbers := MatchPattern(matches, true);
    var extractedPairs := ExtractNumbers(numbers);
    if extractedPairs.None? {
      return None;
    }
    var total := FindProductSum(extractedPairs.value);
    return Some(total);
  }

  /** `main` on the matches of the part 2 pattern; the part 1 pattern
      finds the `mul` tokens among them. Part 1 sums x * y over every
      `mul`, part 2 over the enabled ones, and part 2 is never more. */
  method Solve(tokens: seq<Token>) returns (answers: (int, int))
    requires forall t :: t in tokens ==> WellFormed(t)
    ensures answers.0 == Value(tokens) && answers.1 == Value(Enabled(true, tokens))
    ensures answers.1 <= answers.0
  {
    var muls := Muls(tokens);
    MulsSame(tokens);
    EnabledValueAtMost(true, tokens);
    ValueOfNumbers(muls);
    ValueOfNumbers(Enabled(true, tokens));
    var part1 := Part1(muls);
    var part2 := Part2(tokens);
    return (part1.value, part2.value);
  }

  /** Dropping the `do()` and `don't()` tokens keeps the value. */
  lemma {:induction false} MulsSame(tokens: seq<Token>)
    ensures forall t :: t in Muls(tokens) ==> t in tokens
    ensures Value(Muls(tokens)) == Value(tokens)
  {
    if |tokens| > 0 {
      assert tokens[0] in tokens && forall t :: t in tokens[1..] ==> t in tokens;
      MulsSame(tokens[1..]);
      if tokens[0].Mul? {
        assert ([tokens[0]] + Muls(tokens[1..]))[1..] == Muls(tokens[1..]);
      } else {
        assert Muls(tokens) == [] + Muls(tokens[1..]) == Muls(tokens[1..]);
      }
    }
  }
}
