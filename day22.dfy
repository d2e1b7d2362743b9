/** Day 22: pseudo-random secret numbers. Each step mixes and prunes the
    number three times; prices are last digits, and the buyer sells on the
    first occurrence of a window of four price changes. */
module Day22 {
  import GoInt

  /** `pruneNum`: 2^24. */
  const PruneNum: int := 16777216

  /** `prune`: Go's `%`, which takes the sign of the dividend. */
  function Prune(secretNum: int): int
  {
    GoInt.Rem(secretNum, PruneNum)
  }

  /** `mix`: bitwise XOR. */
  function Mix(secretNum: int, result: int): int
  {
    GoInt.Xor(secretNum, result)
  }

  /** A non-negative number prunes to its residue, in [0, 2^24). */
  lemma PruneRange(x: int)
    requires x >= 0
    ensures Prune(x) == x % PruneNum && 0 <= Prune(x) < PruneNum
  {
    GoInt.QuoRemNonNegative(x, PruneNum);
  }

  /** Mixing a number in twice gives back the original. */
  lemma MixTwice(secretNum: int, result: int)
    ensures Mix(Mix(secretNum, result), result) == secretNum
  {
    GoInt.XorInvolution(secretNum, result);
  }

  /** `calculateSingleSecretNum`: mix-then-prune with sn*64, then sn/32,
      then sn*2048. */
  function Next(secretNum: int): int
  {
    var sn1 := Prune(Mix(secretNum, secretNum * 64));
    var sn2 := Prune(Mix(sn1, GoInt.Quo(sn1, 32)));
    Prune(Mix(sn2, sn2 * 2048))
  }

  /** A non-negative secret number steps to a number in [0, 2^24). */
  lemma NextRange(secretNum: int)
    requires secretNum >= 0
    ensures 0 <= Next(secretNum) < PruneNum
  {
    var sn1 := Prune(Mix(secretNum, secretNum * 64));
    PruneRange(Mix(secretNum, secretNum * 64));
    GoInt.QuoRemNonNegative(sn1, 32);
    var sn2 := Prune(Mix(sn1, GoInt.Quo(sn1, 32)));
    PruneRange(Mix(sn1, GoInt.Quo(sn1, 32)));
    PruneRange(Mix(sn2, sn2 * 2048));
  }

  /** On a non-negative secret number the step is, in plain arithmetic,
      XOR with x*64, then with x/32, then with x*2048, each followed by the
      residue modulo 2^24. */
  lemma NextNonNegative(secretNum: int)
    requires secretNum >= 0
    ensures var a := GoInt.XorNat(secretNum, secretNum * 64) % PruneNum;
            var b := GoInt.XorNat(a, a / 32) % PruneNum;
            Next(secretNum) == GoInt.XorNat(b, b * 2048) % PruneNum
  {
    var a := GoInt.XorNat(secretNum, secretNum * 64) % PruneNum;
    PruneRange(GoInt.XorNat(secretNum, secretNum * 64));
    GoInt.QuoRemNonNegative(a, 32);
    var b := GoInt.XorNat(a, a / 32) % PruneNum;
    PruneRange(GoInt.XorNat(a, a / 32));
    PruneRange(GoInt.XorNat(b, b * 2048));
  }

  /** `calculateSecretNum` without its cache: the step applied `times`
      times; a count of zero or less gives the number back. */
  function Iterate(secretNum: int, times: int): int
    decreases times
  {
    if times <= 0 then secretNum else Iterate(Next(secretNum), times - 1)
  }

  /** The last step can be taken last. */
  lemma {:induction false} IterateSnoc(secretNum: int, times: nat)
    ensures Iterate(secretNum, times + 1) == Next(Iterate(secretNum, times))
    decreases times
  {
    if times > 0 {
      IterateSnoc(Next(secretNum), times - 1);
    }
  }

  /** Iterating a times and then b times is iterating a + b times. */
  lemma {:induction false} IterateAdd(secretNum: int, a: nat, b: nat)
    ensures Iterate(Iterate(secretNum, a), b) == Iterate(secretNum, a + b)
    decreases a
  {
    if a > 0 {
      IterateAdd(Next(secretNum), a - 1, b);
    }
  }

  /** After at least one step a non-negative secret number lies in
      [0, 2^24); with no step it is unchanged. */
  lemma {:induction false} IterateRange(secretNum: int, times: int)
    requires secretNum >= 0
    ensures Iterate(secretNum, times) >= 0
    ensures times >= 1 ==> Iterate(secretNum, times) < PruneNum
    decreases times
  {
    if times > 0 {
      NextRange(secretNum);
      IterateRange(Next(secretNum), times - 1);
    }
  }

  /** The `secMap` cache: every entry maps a secret number to its next one. */
  class SecretCache {
    var entries: map<int, int>

    predicate Valid()
      reads this
    {
      forall k :: k in entries ==> entries[k] == Next(k)
    }

    constructor ()
      ensures entries == map[] && Valid()
    {
      entries := map[];
    }
  }

  /** `calculateSecretNum`: `times` steps, each read from the cache when the
      number is in it and otherwise computed and stored. The cache never
      changes the result. */
  method CalculateSecretNum(secretNum0: int, times0: int, secMap: SecretCache) returns (secretNum: int)
    requires secMap.Valid()
    modifies secMap
    ensures secMap.Valid() && secretNum == Iterate(secretNum0, times0)
    ensures forall k :: k in old(secMap.entries) ==> k in secMap.entries
  {
    secretNum := secretNum0;
    var times := times0;
    while times > 0
      invariant secMap.Valid() && Iterate(secretNum0, times0) == Iterate(secretNum, times)
      invariant forall k :: k in old(secMap.entries) ==> k in secMap.entries
    {
      var startNum := secretNum;
      if startNum in secMap.entries {
        secretNum := secMap.entries[startNum];
      } else {
        secretNum := Next(startNum);
        secMap.entries := secMap.entries[startNum := secretNum];
      }
      times := times - 1;
    }
  }

  /** `sequence`: four consecutive price changes. */
  datatype Sequence = Sequence(zero: int, one: int, two: int, three: int)

  /** A price: the last digit of a secret number (Go's `% 10`). */
  function Price(secretNum: int): int
  {
    GoInt.Rem(secretNum, 10)
  }

  /** The prices of the secret number and of the `n` numbers after it. */
  function Prices(secretNum: int, n: nat): (p: seq<int>)
    ensures |p| == n + 1
  {
    if n == 0 then [Price(secretNum)] else Prices(secretNum, n - 1) + [Price(Iterate(secretNum, n))]
  }

  /** Price i is the price of the secret number after i steps. */
  lemma {:induction false} PricesSpec(secretNum: int, n: nat)
    ensures forall i :: 0 <= i <= n ==> Prices(secretNum, n)[i] == Price(Iterate(secretNum, i))
  {
    if n > 0 {
      PricesSpec(secretNum, n - 1);
    }
  }

  /** The prices of a non-negative secret number are digits 0 to 9. */
  lemma PricesDigits(secretNum: int, n: nat)
    requires secretNum >= 0
    ensures forall i :: 0 <= i <= n ==> 0 <= Prices(secretNum, n)[i] <= 9
  {
    PricesSpec(secretNum, n);
    forall i | 0 <= i <= n
      ensures 0 <= Prices(secretNum, n)[i] <= 9
    {
      IterateRange(secretNum, i);
      GoInt.QuoRemNonNegative(Iterate(secretNum, i), 10);
    }
  }

  /** The four changes leading up to price `j`. */
  function Window(p: seq<int>, j: int): Sequence
    requires 4 <= j < |p|
  {
    Sequence(p[j - 3] - p[j - 4], p[j - 2] - p[j - 3], p[j - 1] - p[j - 2], p[j] - p[j - 1])
  }

  /** Each window of four changes, mapped to the price at the end of its
      first occurrence. */
  function FirstSeen(p: seq<int>): map<Sequence, int>
  {
    if |p| < 5 then map[]
    else
      var earlier := FirstSeen(p[..|p| - 1]);
      var key := Window(p, |p| - 1);
      if key in earlier then earlier else earlier[key := p[|p| - 1]]
  }

  /** The keys are exactly the windows that occur. */
  lemma {:induction false} FirstSeenKeys(p: seq<int>)
    ensures forall k :: k in FirstSeen(p) <==> exists j :: 4 <= j < |p| && Window(p, j) == k
  {
    if |p| >= 5 {
      var front := p[..|p| - 1];
      FirstSeenKeys(front);
      forall j | 4 <= j < |front|
        ensures Window(front, j) == Window(p, j)
      {
      }
      forall k | exists j :: 4 <= j < |p| && Window(p, j) == k
        ensures k in FirstSeen(p)
      {
        var j :| 4 <= j < |p| && Window(p, j) == k;
        if j < |front| {
          assert Window(front, j) == k;
        }
      }
    }
  }

  /** A window keeps the price of its first occurrence. */
  lemma {:induction false} FirstSeenFirst(p: seq<int>, j: int)
    requires 4 <= j < |p| && forall i :: 4 <= i < j ==> Window(p, i) != Window(p, j)
    ensures Window(p, j) in FirstSeen(p) && FirstSeen(p)[Window(p, j)] == p[j]
  {
    var front := p[..|p| - 1];
    if j < |p| - 1 {
      assert Window(front, j) == Window(p, j);
      forall i | 4 <= i < j
        ensures Window(front, i) != Window(front, j)
      {
        assert Window(front, i) == Window(p, i);
      }
      FirstSeenFirst(front, j);
    } else {
      FirstSeenKeys(front);
      forall i | 4 <= i < |front|
        ensures Window(front, i) != Window(p, j)
      {
        assert Window(front, i) == Window(p, i);
      }
    }
  }

  /** `determineSequences`: four steps to fill the first window, then one
      more step per window while `times > 1`, so `times` - 1 new secret
      numbers in all when `times` is at least 5, and 4 otherwise. Each
      window keeps the price of its first occurrence. */
  method DetermineSequences(secretNum0: int, cache: SecretCache, times0: int) returns (localMap: map<Sequence, int>)
    requires cache.Valid()
    modifies cache
    ensures cache.Valid()
    ensures localMap == FirstSeen(Prices(secretNum0, if times0 >= 5 then times0 - 1 else 4))
  {
    var secretNum, vals := FirstPrices(secretNum0, cache);
    var times := times0 - 4;
    localMap := map[Sequence(vals[1] - vals[0], vals[2] - vals[1], vals[3] - vals[2], vals[4] - vals[3]) := vals[4]];
    FirstWindow(vals);
    ghost var n := 4;
    while times > 1
      invariant n >= 4 && times == times0 - n && secretNum == Iterate(secretNum0, n)
      invariant times0 >= 5 ==> times >= 1
      invariant times0 < 5 ==> n == 4
      invariant vals == Prices(secretNum0, n)[n - 4..] && localMap == FirstSeen(Prices(secretNum0, n))
      invariant cache.Valid()
      decreases times
    {
      secretNum := CalculateSecretNum(secretNum, 1, cache);
      ghost var before := vals;
      vals := vals[1..];
      vals := vals + [GoInt.Rem(secretNum, 10)];
      var currentSequence := Sequence(vals[1] - vals[0], vals[2] - vals[1], vals[3] - vals[2], vals[4] - vals[3]);
      Advance(secretNum0, n, before, vals, localMap, secretNum, currentSequence);
      if currentSequence !in localMap {
        localMap := localMap[currentSequence := vals[4]];
      }
      times := times - 1;
      n := n + 1;
    }
    assert n == if times0 >= 5 then times0 - 1 else 4;
  }

  /** The first loop of `determineSequences`: four steps, collecting the
      prices of the first five secret numbers. */
  method FirstPrices(secretNum0: int, cache: SecretCache) returns (secretNum: int, vals: seq<int>)
    requires cache.Valid()
    modifies cache
    ensures cache.Valid() && secretNum == Iterate(secretNum0, 4) && vals == Prices(secretNum0, 4)
  {
    secretNum := secretNum0;
    vals := [GoInt.Rem(secretNum, 10)];
    for i := 0 to 4
      invariant vals == Prices(secretNum0, i) && secretNum == Iterate(secretNum0, i)
      invariant cache.Valid()
    {
      secretNum := CalculateSecretNum(secretNum, 1, cache);
      IterateSnoc(secretNum0, i);
      vals := vals + [GoInt.Rem(secretNum, 10)];
    }
  }

  /** The first window is the only one among the first five prices. */
  lemma FirstWindow(p: seq<int>)
    requires |p| == 5
    ensures FirstSeen(p) == map[Sequence(p[1] - p[0], p[2] - p[1], p[3] - p[2], p[4] - p[3]) := p[4]]
  {
    assert |p[..4]| == 4;
  }

  /** One more price slides the window of the last five prices by one, and
      the new window, `key`, is the one ending at that price. */
  lemma Slide(p: seq<int>, vals: seq<int>, x: int, key: Sequence)
    requires |p| >= 5 && vals == p[|p| - 5..]
    requires key == Sequence(vals[2] - vals[1], vals[3] - vals[2], vals[4] - vals[3], x - vals[4])
    ensures (p + [x])[|p| - 4..] == vals[1..] + [x]
    ensures FirstSeen(p + [x]) == if key in FirstSeen(p) then FirstSeen(p) else FirstSeen(p)[key := x]
  {
    var q := p + [x];
    SnocFront(p, x);
    WindowLast(p, vals, x, key);
    assert q[|p| - 4..] == vals[1..] + [x];
  }

  lemma SnocFront(p: seq<int>, x: int)
    ensures (p + [x])[..|p|] == p
  {
  }

  /** The window ending at the new price. */
  lemma WindowLast(p: seq<int>, vals: seq<int>, x: int, key: Sequence)
    requires |p| >= 5 && vals == p[|p| - 5..]
    requires key == Sequence(vals[2] - vals[1], vals[3] - vals[2], vals[4] - vals[3], x - vals[4])
    ensures Window(p + [x], |p|) == key
  {
    var n := |p|;
    assert vals[1] == p[n - 4] && vals[2] == p[n - 3] && vals[3] == p[n - 2] && vals[4] == p[n - 1];
  }

  lemma PricesSnoc(secretNum: int, n: nat)
    ensures Prices(secretNum, n + 1) == Prices(secretNum, n) + [Price(Iterate(secretNum, n + 1))]
  {
  }

  /** One pass of `determineSequences`' second loop keeps the window on the
      last five prices and the map on the first occurrences. */
  lemma Advance(secretNum0: int, n: nat, vals: seq<int>, vals': seq<int>, localMap: map<Sequence, int>,
                next: int, key: Sequence)
    requires n >= 4 && vals == Prices(secretNum0, n)[n - 4..] && localMap == FirstSeen(Prices(secretNum0, n))
    requires next == Iterate(Iterate(secretNum0, n), 1)
    requires vals' == vals[1..] + [GoInt.Rem(next, 10)]
    requires key == Sequence(vals'[1] - vals'[0], vals'[2] - vals'[1], vals'[3] - vals'[2], vals'[4] - vals'[3])
    ensures next == Iterate(secretNum0, n + 1)
    ensures vals' == Prices(secretNum0, n + 1)[n + 1 - 4..]
    ensures FirstSeen(Prices(secretNum0, n + 1)) == if key in localMap then localMap else localMap[key := vals'[4]]
  {
    IterateAdd(secretNum0, n, 1);
    PricesSnoc(secretNum0, n);
    Slide(Prices(secretNum0, n), vals, GoInt.Rem(next, 10), key);
  }
}
