/** Day 11: plutonian pebbles. Every blink replaces each stone by one or
    two stones: 0 becomes 1, a number with an even count of decimal digits
    splits into its left and right halves, any other number is multiplied
    by 2024. The answer is how many stones there are after 25 (part 1) or
    75 (part 2) blinks, counted per starting stone with a memo instead of
    building the row. */
module Day11 {
  import opened Wrappers
  import opened Text
  import opened GoInt

  const Part1Rounds := 25
  const Part2Rounds := 75
  const RuleThree := 2024

  // ---------------------------------------------------------------------
  // convertInt

  /** The stones on the first line, separated by single spaces; None when
      there is no line (Go indexes `input[0]` and panics) or a token is
      not a number (`util.ParseInt` exits). */
  function Stones(input: seq<string>): Option<seq<int>>
  {
    if |input| == 0 then None else AtoiAll(Split(input[0], ' '))
  }

  /** `convertInt`: one number per token, appended in order. */
  method ConvertInt(input: seq<string>) returns (stones: Option<seq<int>>)
    ensures stones == Stones(input)
  {
    if |input| == 0 {
      return None;
    }
    var tokens := Split(input[0], ' ');
    var list: seq<int> := [];
    for k := 0 to |tokens|
      invariant AtoiAll(tokens[..k]) == Some(list)
    {
      var number := Atoi(tokens[k]);
      assert tokens[..k + 1][..k] == tokens[..k];
      if number.None? {
        return None;
      }
      list := list + [number.value];
    }
    assert tokens[..|tokens|] == tokens;
    return Some(list);
  }

  /** The puzzle's line, the stones separated by single spaces, reads back
      as the same stones. */
  lemma StonesFormat(stones: seq<int>)
    requires |stones| >= 1
    ensures Stones([Join(Numerals(stones), ' ')]) == Some(stones)
  {
    var parts := Numerals(stones);
    forall p | p in parts
      ensures ' ' !in p
    {
      var k :| 0 <= k < |parts| && parts[k] == p;
      ItoaChars(stones[k]);
    }
    JoinSplit(parts, ' ');
    AtoiAllNumerals(stones);
  }

  // ---------------------------------------------------------------------
  // countStones

  /** Go's split of a stone: the two halves of its decimal text, each
      parsed; None when a half is not a number and `util.ParseInt` exits
      (a one-digit stone, or a negative stone whose left half is a lone
      "-"). */
  function TextHalves(stone: int): Option<(int, int)>
  {
    var digits := Itoa(stone);
    var h := |digits| / 2;
    match (Atoi(digits[..h]), Atoi(digits[h..]))
    case (Some(left), Some(right)) => Some((left, right))
    case _ => None
  }

  /** Go's three rules as written, on the decimal text: 0 becomes 1, a
      text of even length splits, anything else is multiplied by 2024. */
  function TextNext(stone: int): Option<seq<int>>
  {
    if stone == 0 then Some([1])
    else if |Itoa(stone)| % 2 == 0 then
      match TextHalves(stone)
      case None => None
      case Some(halves) => Some([halves.0, halves.1])
    else Some([stone * RuleThree])
  }

  /** How many decimal digits a number has. */
  function DigitCount(n: nat): nat
  {
    if n < 10 then 1 else 1 + DigitCount(n / 10)
  }

  /** A number without its last `k` digits, and those `k` digits alone. */
  function DropDigits(n: nat, k: nat): nat
  {
    if k == 0 then n else DropDigits(n / 10, k - 1)
  }

  function LastDigits(n: nat, k: nat): nat
  {
    if k == 0 then 0 else 10 * LastDigits(n / 10, k - 1) + n % 10
  }

  /** The length of a stone's decimal text, its sign included. */
  function TextLength(stone: int): nat
  {
    if stone < 0 then 1 + DigitCount(-stone) else DigitCount(stone)
  }

  /** `TextHalves` in arithmetic: the right half of the text holds the
      last `k` digits, the left half the others (and the sign). */
  function Halves(stone: int): Option<(int, int)>
  {
    var len := TextLength(stone);
    var k := len - len / 2;
    if stone >= 0 then
      if len / 2 == 0 then None else Some((DropDigits(stone, k), LastDigits(stone, k)))
    else if len / 2 <= 1 then None
    else
      var left := -(DropDigits(-stone, k) as int);
      Some((left, LastDigits(-stone, k)))
  }

  /** Two counts added, None once either stopped the program. */
  function Plus(a: Option<int>, b: Option<int>): Option<int>
  {
    if a.Some? && b.Some? then Some(a.value + b.value) else None
  }

  /** The stones one stone becomes in one blink: `TextNext` in arithmetic
      (`NextText`); None when the program exits. */
  function Next(stone: int): (r: Option<seq<int>>)
    ensures r.Some? ==> 1 <= |r.value| <= 2
  {
    if stone == 0 then Some([1])
    else if TextLength(stone) % 2 == 0 then
      match Halves(stone)
      case None => None
      case Some(halves) => Some([halves.0, halves.1])
    else Some([stone * RuleThree])
  }

  /** `countStones` without its memo: the number of stones one stone
      becomes after `round` blinks, or None when the program exits. */
  function Count(stone: int, round: nat): Option<int>
    decreases round, 0
  {
    if round == 0 then Some(1)
    else
      match Next(stone)
      case None => None
      case Some(next) => Sum(next, round - 1)
  }

  /** The counts of the one or two stones a stone becomes, added; None
      once one of them stops the program. */
  function Sum(next: seq<int>, round: nat): Option<int>
    requires 1 <= |next| <= 2
    decreases round, 1
  {
    if |next| == 1 then Count(next[0], round)
    else Plus(Count(next[0], round), Count(next[1], round))
  }

  /** The memo shared by the workers: `memo[(stone, round)]` is the count
      for that stone and number of rounds. Go keys it by the string
      `"stone,round"`, which tells the pairs apart just as a pair does. */
  class StoneCounter {
    var memo: map<(int, nat), int>

    ghost predicate Valid()
      reads this
    {
      forall key | key in memo :: Count(key.0, key.1) == Some(memo[key])
    }

    constructor ()
      ensures memo == map[] && Valid()
    {
      memo := map[];
    }

    /** `countStones`: the rules applied recursively, each result stored
        under its key and a stored result returned without recomputing.
        The branches of Go's function that pick the next stones are `Next`;
        the recursive calls on them are `CountEach`. */
    method CountStones(stone: int, round: nat) returns (result: Option<int>)
      requires Valid()
      modifies this
      ensures Valid() && result == Count(stone, round)
      ensures old(memo).Keys <= memo.Keys
      decreases round, 0
    {
      if round == 0 {
        return Some(1);
      }
      var key := (stone, round);
      if key in memo {
        return Some(memo[key]);
      }
      var next := Next(stone);
      if next.None? {
        return None;
      }
      result := CountEach(next.value, round - 1);
      if result.Some? {
        memo := memo[key := result.value];
      }
    }

    /** The recursive calls of `countStones` on the one or two stones a
        stone becomes, left to right, their counts added. */
    method CountEach(next: seq<int>, round: nat) returns (result: Option<int>)
      requires Valid() && 1 <= |next| <= 2
      modifies this
      ensures Valid() && result == Sum(next, round)
      ensures old(memo).Keys <= memo.Keys
      decreases round, 1
    {
      result := CountStones(next[0], round);
      if result.Some? && |next| == 2 {
        var right := CountStones(next[1], round);
        result := Plus(result, right);
      }
    }
  }

  // ---------------------------------------------------------------------
  // part1 and part2

  /** The sum of the counts of the stones, or None when one of them stops
      the program. */
  function Total(stones: seq<int>, rounds: nat): Option<int>
  {
    if |stones| == 0 then Some(0)
    else
      match Total(stones[..|stones| - 1], rounds)
      case None => None
      case Some(front) =>
        match Count(stones[|stones| - 1], rounds)
        case None => None
        case Some(c) => Some(front + c)
  }

  /** Once a prefix stops the program, so does the whole list. */
  lemma {:induction false} TotalStops(stones: seq<int>, k: nat, rounds: nat)
    requires k <= |stones| && Total(stones[..k], rounds) == None
    ensures Total(stones, rounds) == None
    decreases |stones| - k
  {
    if k < |stones| {
      assert stones[..k + 1][..k] == stones[..k];
      TotalStops(stones, k + 1, rounds);
    } else {
      assert stones[..k] == stones;
    }
  }

  /** `part1` (25 rounds) and `part2` (75): one task per stone, all
      sharing one memo, the counts added up. */
  method Blinks(stones: seq<int>, rounds: nat) returns (count: Option<int>)
    ensures count == Total(stones, rounds)
  {
    var counter := new StoneCounter();
    var sum := 0;
    for k := 0 to |stones|
      invariant counter.Valid()
      invariant Total(stones[..k], rounds) == Some(sum)
    {
      var result := counter.CountStones(stones[k], rounds);
      assert stones[..k + 1][..k] == stones[..k];
      if result.None? {
        TotalStops(stones, k + 1, rounds);
        return None;
      }
      sum := sum + result.value;
    }
    assert stones[..|stones|] == stones;
    return Some(sum);
  }

  // ---------------------------------------------------------------------
  // The row of stones, built explicitly

  /** The left and right halves of the digits of a stone with `2h`
      digits, as numbers: its quotient and remainder by 10^h. */
  function High(stone: nat): nat
  {
    DropDigits(stone, DigitCount(stone) / 2)
  }

  function Low(stone: nat): nat
  {
    LastDigits(stone, DigitCount(stone) / 2)
  }

  /** The stones one stone becomes in one blink. */
  function Rule(stone: nat): seq<nat>
  {
    if stone == 0 then [1]
    else if DigitCount(stone) % 2 == 0 then [High(stone), Low(stone)]
    else [stone * RuleThree]
  }

  /** One blink over the whole row, keeping the order. */
  function Blink(stones: seq<nat>): seq<nat>
  {
    if |stones| == 0 then [] else Rule(stones[0]) + Blink(stones[1..])
  }

  /** The row after `n` blinks. */
  function After(stones: seq<nat>, n: nat): seq<nat>
    decreases n
  {
    if n == 0 then stones else After(Blink(stones), n - 1)
  }

  lemma {:induction false} BlinkAppend(a: seq<nat>, b: seq<nat>)
    ensures Blink(a + b) == Blink(a) + Blink(b)
  {
    if |a| == 0 {
      assert a + b == b;
    } else {
      assert (a + b)[0] == a[0];
      assert (a + b)[1..] == a[1..] + b;
      BlinkAppend(a[1..], b);
    }
  }

  /** Stones blink independently: the row of a concatenation is the
      concatenation of the rows. */
  lemma {:induction false} AfterAppend(a: seq<nat>, b: seq<nat>, n: nat)
    ensures After(a + b, n) == After(a, n) + After(b, n)
    decreases n
  {
    if n > 0 {
      BlinkAppend(a, b);
      AfterAppend(Blink(a), Blink(b), n - 1);
    }
  }

  // ---------------------------------------------------------------------
  // The arithmetic rules are Go's rules on the text

  lemma {:induction false} DigitCountLength(n: nat)
    ensures DigitCount(n) == |NatDigits(n)|
  {
    if n >= 10 {
      DigitCountLength(n / 10);
    }
  }

  /** The text of a stone is as long as `TextLength` says. */
  lemma TextLengthItoa(stone: int)
    ensures TextLength(stone) == |Itoa(stone)|
  {
    if stone < 0 {
      DigitCountLength(-stone);
    } else {
      DigitCountLength(stone);
    }
  }

  /** Cutting a number after its last `k` digits is dividing it by 10^k. */
  lemma {:induction false} CutDigits(n: nat, k: nat)
    ensures n == DropDigits(n, k) * Pow10(k) + LastDigits(n, k)
    ensures LastDigits(n, k) < Pow10(k)
  {
    if k > 0 {
      CutDigits(n / 10, k - 1);
      var high, low, p := DropDigits(n / 10, k - 1), LastDigits(n / 10, k - 1), Pow10(k - 1);
      calc {
        n;
        10 * (n / 10) + n % 10;
        10 * (high * p + low) + n % 10;
        high * (10 * p) + (10 * low + n % 10);
      }
    }
  }

  /** The digits of a number cut after the first `j` parse to the two
      parts `DropDigits` and `LastDigits` compute. */
  lemma CutText(n: nat, j: nat)
    requires j <= |NatDigits(n)|
    ensures AllDigits(NatDigits(n)[..j]) && AllDigits(NatDigits(n)[j..])
    ensures ParseDigits(NatDigits(n)[..j]) == DropDigits(n, |NatDigits(n)| - j)
    ensures ParseDigits(NatDigits(n)[j..]) == LastDigits(n, |NatDigits(n)| - j)
  {
    var digits := NatDigits(n);
    var a, b, k := digits[..j], digits[j..], |digits| - j;
    assert a + b == digits;
    assert AllDigits(a) && AllDigits(b);
    ParseDigitsAppend(a, b);
    ParseNatDigits(n);
    ParseDigitsBound(b);
    CutDigits(n, k);
    MulAddUnique(Pow10(k), ParseDigits(a), ParseDigits(b), DropDigits(n, k), LastDigits(n, k));
  }

  /** `Halves` is Go's split of the text, for a non-negative stone ... */
  lemma HalvesTextNonNegative(stone: nat)
    ensures Halves(stone) == TextHalves(stone)
  {
    TextLengthItoa(stone);
    var digits := Itoa(stone);
    var len := |digits|;
    var h, k := len / 2, len - len / 2;
    assert digits == NatDigits(stone);
    CutText(stone, h);
    AtoiDigits(digits[h..]);
    if h > 0 {
      AtoiDigits(digits[..h]);
    }
  }

  /** ... and for a negative one. */
  lemma HalvesTextNegative(stone: int)
    requires stone < 0
    ensures Halves(stone) == TextHalves(stone)
  {
    TextLengthItoa(stone);
    var text := Itoa(stone);
    var h := |text| / 2;
    SignedRight(stone, h);
    if h > 1 {
      SignedLeft(stone, h);
    } else {
      SignAlone(stone);
    }
    assert TextHalves(stone) == match (Atoi(text[..h]), Atoi(text[h..]))
      case (Some(left), Some(right)) => Some((left, right))
      case _ => None;
  }

  /** The text of a negative stone cut after `h` characters: the right
      half is digits only ... */
  lemma SignedRight(stone: int, h: nat)
    requires stone < 0 && 1 <= h < |Itoa(stone)|
    ensures Atoi(Itoa(stone)[h..]) == Some(LastDigits(-stone, |Itoa(stone)| - h))
  {
    var n: nat := -stone;
    var digits := NatDigits(n);
    assert Itoa(stone) == "-" + digits;
    CutText(n, h - 1);
    assert Itoa(stone)[h..] == digits[h - 1..];
    AtoiDigits(digits[h - 1..]);
  }

  /** ... the left half keeps the sign and reads as a negative number
      ... */
  lemma SignedLeft(stone: int, h: nat)
    requires stone < 0 && 1 < h < |Itoa(stone)|
    ensures Atoi(Itoa(stone)[..h]) == Some(-(DropDigits(-stone, |Itoa(stone)| - h) as int))
  {
    var n: nat := -stone;
    var digits := NatDigits(n);
    assert Itoa(stone) == "-" + digits;
    var left := Itoa(stone)[..h];
    assert left[0] == '-' && left[1..] == digits[..h - 1];
    CutText(n, h - 1);
    AtoiDigits(digits[..h - 1]);
  }

  /** ... unless it is the sign alone. */
  lemma SignAlone(stone: int)
    requires stone < 0 && |Itoa(stone)| / 2 == 1
    ensures Atoi(Itoa(stone)[..1]) == None
  {
    assert Itoa(stone)[..1] == "-";
    assert "-"[1..] == [];
  }

  /** The arithmetic rules are Go's rules on the decimal text. */
  lemma NextText(stone: int)
    ensures Next(stone) == TextNext(stone)
  {
    TextLengthItoa(stone);
    if stone >= 0 {
      HalvesTextNonNegative(stone);
    } else {
      HalvesTextNegative(stone);
    }
  }

  /** On a non-negative stone the rules are `Rule`. */
  lemma NextRule(stone: nat)
    ensures Next(stone) == Some(Rule(stone))
  {
  }

  /** The number of stones a non-negative stone becomes after `round`
      blinks, counted by the rule alone. */
  function Expand(stone: nat, round: nat): nat
    decreases round
  {
    if round == 0 then 1
    else
      var next := Rule(stone);
      Expand(next[0], round - 1) + if |next| == 2 then Expand(next[1], round - 1) else 0
  }

  /** `countStones` on a non-negative stone never stops the program and
      counts what the rule makes of it. */
  lemma {:induction false} CountExpand(stone: nat, round: nat)
    ensures Count(stone, round) == Some(Expand(stone, round))
  {
    CountExpandAll(round);
  }

  lemma {:induction false} CountExpandAll(round: nat)
    ensures forall stone: nat :: Count(stone, round) == Some(Expand(stone, round))
    decreases round
  {
    if round > 0 {
      CountExpandAll(round - 1);
      forall stone: nat
        ensures Count(stone, round) == Some(Expand(stone, round))
      {
        CountExpandStep(stone, round - 1);
      }
    }
  }

  lemma CountExpandStep(stone: nat, prev: nat)
    requires forall s: nat :: Count(s, prev) == Some(Expand(s, prev))
    ensures Count(stone, prev + 1) == Some(Expand(stone, prev + 1))
  {
    CountNext(stone, prev);
    var next := Rule(stone);
    SumExpand(next, prev);
  }

  /** On a non-negative stone, `Count` goes through the rule. */
  lemma CountNext(stone: nat, prev: nat)
    ensures Count(stone, prev + 1) == Sum(Rule(stone), prev)
  {
    NextRule(stone);
  }

  /** Counted stones whose counts are their expansions add up to the
      expansion of the stones. */
  lemma SumExpand(next: seq<nat>, prev: nat)
    requires 1 <= |next| <= 2
    requires forall k | 0 <= k < |next| :: Count(next[k], prev) == Some(Expand(next[k], prev))
    ensures Sum(next, prev) == Some(Expand(next[0], prev) + if |next| == 2 then Expand(next[1], prev) else 0)
  {
    assert Count(next[0], prev) == Some(Expand(next[0], prev));
    if |next| == 2 {
      assert Count(next[1], prev) == Some(Expand(next[1], prev));
    }
  }

  /** The rule's count is the length of the explicit row. */
  lemma {:induction false} ExpandIsLength(stone: nat, round: nat)
    ensures Expand(stone, round) == |After([stone], round)|
    decreases round
  {
    if round > 0 {
      var next := Rule(stone);
      ExpandIsLength(next[0], round - 1);
      if |next| == 2 {
        ExpandIsLength(next[1], round - 1);
        RowPair(stone, round);
      } else {
        RowSingle(stone, round);
      }
    }
  }

  /** The memoised count is the length of the explicit row: the answer is
      the number of stones after the blinks. */
  lemma CountIsLength(stone: nat, round: nat)
    ensures Count(stone, round) == Some(|After([stone], round)|)
  {
    CountExpand(stone, round);
    ExpandIsLength(stone, round);
  }

  /** One stone blinks by its rule. */
  lemma BlinkOne(stone: nat)
    ensures Blink([stone]) == Rule(stone)
  {
    assert [stone][1..] == [];
  }

  /** A stone's row after `round` blinks is the row of what it becomes,
      one blink fewer. */
  lemma RowSingle(stone: nat, round: nat)
    requires round > 0 && |Rule(stone)| == 1
    ensures After([stone], round) == After([Rule(stone)[0]], round - 1)
  {
    BlinkOne(stone);
    assert Rule(stone) == [Rule(stone)[0]];
  }

  lemma RowPair(stone: nat, round: nat)
    requires round > 0 && |Rule(stone)| == 2
    ensures var next := Rule(stone);
            |After([stone], round)| == |After([next[0]], round - 1)| + |After([next[1]], round - 1)|
  {
    var next := Rule(stone);
    BlinkOne(stone);
    assert next == [next[0]] + [next[1]];
    AfterAppend([next[0]], [next[1]], round - 1);
  }

  /** For stones of the puzzle (non-negative numbers) `part1`/`part2`
      answer the length of the row after the blinks. */
  lemma {:induction false} TotalIsLength(stones: seq<nat>, rounds: nat)
    ensures Total(stones, rounds) == Some(|After(stones, rounds)|)
  {
    if |stones| > 0 {
      var front, last := stones[..|stones| - 1], stones[|stones| - 1];
      TotalIsLength(front, rounds);
      CountIsLength(last, rounds);
      assert stones == front + [last];
      AfterAppend(front, [last], rounds);
    } else {
      AfterEmpty(rounds);
    }
  }

  /** No stones stay no stones. */
  lemma {:induction false} AfterEmpty(n: nat)
    ensures After([], n) == []
  {
    if n > 0 {
      AfterEmpty(n - 1);
    }
  }

  /** A stone never disappears: every blink leaves at least as many
      stones as before. */
  lemma {:induction false} BlinkNoShorter(stones: seq<nat>)
    ensures |Blink(stones)| >= |stones|
  {
    if |stones| > 0 {
      BlinkNoShorter(stones[1..]);
    }
  }

  lemma {:induction false} AfterNoShorter(stones: seq<nat>, n: nat)
    ensures |After(stones, n)| >= |stones|
    decreases n
  {
    if n > 0 {
      BlinkNoShorter(stones);
      AfterNoShorter(Blink(stones), n - 1);
    }
  }
}
