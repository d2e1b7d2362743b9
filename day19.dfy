/** Day 19: towel patterns. A design is made by laying bank patterns end to
    end; part 1 asks whether a design can be made, part 2 in how many
    ways. */
module Day19 {
  import opened Wrappers

  // ---------------------------------------------------------------------
  // The bank

  /** The longest length among the bank's patterns, or -1 for an empty
      bank. */
  function MaxLength(bank: seq<string>): int
  {
    if |bank| == 0 then -1
    else
      var rest := MaxLength(bank[..|bank| - 1]);
      if rest < |bank[|bank| - 1]| then |bank[|bank| - 1]| else rest
  }

  /** `MaxLength` is -1 exactly for the empty bank, bounds every pattern's
      length, and is the length of some pattern. */
  lemma {:induction false} MaxLengthSpec(bank: seq<string>)
    ensures bank == [] <==> MaxLength(bank) == -1
    ensures forall k :: 0 <= k < |bank| ==> |bank[k]| <= MaxLength(bank)
    ensures bank != [] ==> exists k :: 0 <= k < |bank| && |bank[k]| == MaxLength(bank)
  {
    if |bank| > 0 {
      var front := bank[..|bank| - 1];
      MaxLengthSpec(front);
      if front != [] {
        var k :| 0 <= k < |front| && |front[k]| == MaxLength(front);
        assert bank[k] == front[k];
      }
    }
  }

  /** `longestWord`. */
  method LongestWord(bank: seq<string>) returns (longest: int)
    ensures longest == MaxLength(bank)
  {
    longest := -1;
    for k := 0 to |bank|
      invariant longest == MaxLength(bank[..k])
    {
      assert bank[..k + 1][..k] == bank[..k];
      longest := max(longest, |bank[k]|);
    }
    assert bank[..|bank|] == bank;
  }

  function max(a: int, b: int): int
  {
    if a < b then b else a
  }

  predicate IsLetter(c: char)
  {
    'a' <= c <= 'z' || 'A' <= c <= 'Z'
  }

  predicate AllLetters(s: string)
  {
    forall i :: 0 <= i < |s| ==> IsLetter(s[i])
  }

  /** The number of letters `s` starts with. */
  function LeadingLetters(s: string): (k: nat)
    ensures k <= |s| && AllLetters(s[..k]) && (k < |s| ==> !IsLetter(s[k]))
  {
    if |s| == 0 || !IsLetter(s[0]) then 0
    else
      var k := 1 + LeadingLetters(s[1..]);
      assert s[..k] == [s[0]] + s[1..][..k - 1];
      k
  }

  /** The matches of the pattern `([a-zA-Z]+)`, left to right: the maximal
      runs of letters. */
  function Runs(s: string): seq<string>
    decreases |s|
  {
    if |s| == 0 then []
    else if !IsLetter(s[0]) then Runs(s[1..])
    else
      var k := LeadingLetters(s);
      [s[..k]] + Runs(s[k..])
  }

  /** The letters of `s`, in order. */
  function Letters(s: string): string
  {
    if |s| == 0 then "" else (if IsLetter(s[0]) then [s[0]] else "") + Letters(s[1..])
  }

  function Concat(ss: seq<string>): string
  {
    if |ss| == 0 then "" else ss[0] + Concat(ss[1..])
  }

  lemma {:induction false} LettersAppend(a: string, b: string)
    ensures Letters(a + b) == Letters(a) + Letters(b)
  {
    if |a| > 0 {
      assert (a + b)[1..] == a[1..] + b;
      LettersAppend(a[1..], b);
    } else {
      assert a + b == b;
    }
  }

  lemma {:induction false} LettersOfLetters(s: string)
    requires AllLetters(s)
    ensures Letters(s) == s
  {
    if |s| > 0 {
      LettersOfLetters(s[1..]);
    }
  }

  /** Every match is a non-empty run of letters, and together the matches
      hold every letter of the line, in order. */
  lemma {:induction false} RunsSpec(s: string)
    ensures forall i :: 0 <= i < |Runs(s)| ==> |Runs(s)[i]| > 0 && AllLetters(Runs(s)[i])
    ensures Concat(Runs(s)) == Letters(s)
    decreases |s|
  {
    if |s| > 0 {
      if !IsLetter(s[0]) {
        RunsSpec(s[1..]);
      } else {
        var k := LeadingLetters(s);
        RunsSpec(s[k..]);
        LettersOfLetters(s[..k]);
        assert s == s[..k] + s[k..];
        LettersAppend(s[..k], s[k..]);
        assert Runs(s)[1..] == Runs(s[k..]);
      }
    }
  }

  /** A run of letters is one match. */
  lemma RunsOfWord(s: string)
    requires |s| > 0 && AllLetters(s)
    ensures Runs(s) == [s]
  {
    var k := LeadingLetters(s);
    assert k == |s|;
    assert s[..k] == s && s[k..] == [];
  }

  /** A non-letter separates matches: the matches of `a + [c] + b` are
      those of `a` followed by those of `b`. */
  lemma {:induction false} RunsSplit(a: string, c: char, b: string)
    requires !IsLetter(c)
    ensures Runs(a + [c] + b) == Runs(a) + Runs(b)
    decreases |a|
  {
    var s := a + [c] + b;
    if |a| == 0 {
      assert s[1..] == b;
    } else if !IsLetter(a[0]) {
      assert s[1..] == a[1..] + [c] + b;
      RunsSplit(a[1..], c, b);
    } else {
      var k := LeadingLetters(a);
      LeadingInside(a, c, b);
      assert s[k..] == a[k..] + [c] + b;
      if k < |a| {
        RunsSplit(a[k..], c, b);
      } else {
        assert a[k..] == [] && s[k..] == [c] + b;
        assert (s[k..])[1..] == b;
      }
      assert s[..k] == a[..k];
    }
  }

  /** The letters a line starts with are not changed by what follows a
      non-letter. */
  lemma {:induction false} LeadingInside(a: string, c: char, b: string)
    requires !IsLetter(c)
    ensures LeadingLetters(a + [c] + b) == LeadingLetters(a)
    decreases |a|
  {
    var s := a + [c] + b;
    if |a| > 0 && IsLetter(a[0]) {
      assert s[1..] == a[1..] + [c] + b;
      LeadingInside(a[1..], c, b);
    }
  }

  /** `createWordBank`: the matches of the first line. Indexing the first
      line of an empty input panics, which is None here. */
  method CreateWordBank(strings: seq<string>) returns (bank: Option<seq<string>>)
    ensures bank.None? <==> strings == []
    ensures bank.Some? ==> bank.value == Runs(strings[0])
  {
    if |strings| == 0 {
      return None;
    }
    var matches := Runs(strings[0]);
    var toReturn := [];
    for i := 0 to |matches|
      invariant toReturn == matches[..i]
    {
      toReturn := toReturn + [matches[i]];
    }
    return Some(toReturn);
  }

  // ---------------------------------------------------------------------
  // Part 1: can a design be made?

  /** The lower bound of the inner loop of `wordBreak`. */
  function From(i: int, longest: int): int
  {
    if i - longest > 0 then i - longest else 0
  }

  /** `dp[i]` of `wordBreak`: the first i letters of the design are made of
      patterns, looking back at most `longest` letters for the last one. */
  predicate Reach(word: string, bank: seq<string>, longest: int, i: nat)
    requires i <= |word|
    decreases i, 1
  {
    i == 0 || exists j: nat :: From(i, longest) <= j < i && Link(word, bank, longest, j, i)
  }

  /** The first j letters are reached and letters j to i are a pattern. */
  predicate Link(word: string, bank: seq<string>, longest: int, j: nat, i: nat)
    requires j <= i <= |word|
    decreases j, 2
  {
    Reach(word, bank, longest, j) && word[j..i] in bank
  }

  /** `wordBreak`: 1 when the whole design is reached, else 0. */
  method WordBreak(word: string, bank: seq<string>, longestWord: int) returns (r: int)
    ensures r == (if Reach(word, bank, longestWord, |word|) then 1 else 0)
  {
    var dp := new bool[|word| + 1];
    dp[0] := true;
    for i := 1 to |word| + 1
      invariant forall k :: 0 <= k < i ==> dp[k] == Reach(word, bank, longestWord, k)
    {
      dp[i] := false;
      var j := From(i, longestWord);
      while j < i
        invariant From(i, longestWord) <= j
        invariant forall k :: 0 <= k < i ==> dp[k] == Reach(word, bank, longestWord, k)
        invariant !dp[i] && forall t :: From(i, longestWord) <= t < j && t < i ==> !Link(word, bank, longestWord, t, i)
      {
        if dp[j] && word[j..i] in bank {
          assert Link(word, bank, longestWord, j, i);
          dp[i] := true;
          break;
        }
        j := j + 1;
      }
      assert dp[i] == Reach(word, bank, longestWord, i);
    }
    r := if dp[|word|] then 1 else 0;
  }

  // ---------------------------------------------------------------------
  // Part 2: in how many ways?

  /** `dp[i]` of `combinations`: 1 for the empty prefix, else the running
      sum over the whole bank. */
  function Ways(word: string, bank: seq<string>, i: nat): int
    requires i <= |word|
    decreases i, |bank| + 1
  {
    if i == 0 then 1 else Sum(word, bank, i, |bank|)
  }

  /** Bank pattern w ends the first i letters of the design. */
  predicate Ends(word: string, w: string, i: nat)
    requires i <= |word|
  {
    |w| <= i && word[i - |w|..i] == w
  }

  /** `dp[i]` after the first k patterns of the bank: each pattern ending
      at i adds `dp[i - len(w)]`, which for an empty pattern is the running
      `dp[i]` itself. */
  function Sum(word: string, bank: seq<string>, i: nat, k: nat): int
    requires 0 < i <= |word| && k <= |bank|
    decreases i, k
  {
    if k == 0 then 0
    else
      var s := Sum(word, bank, i, k - 1);
      var w := bank[k - 1];
      if Ends(word, w, i) then s + (if |w| == 0 then s else Ways(word, bank, i - |w|)) else s
  }

  /** `combinations`. */
  method Combinations(word: string, bank: seq<string>) returns (count: int)
    ensures count == Ways(word, bank, |word|)
  {
    var dp := new int[|word| + 1];
    dp[0] := 1;
    for i := 1 to |word| + 1
      invariant forall k :: 0 <= k < i ==> dp[k] == Ways(word, bank, k)
    {
      dp[i] := 0;
      for b := 0 to |bank|
        invariant forall k :: 0 <= k < i ==> dp[k] == Ways(word, bank, k)
        invariant dp[i] == Sum(word, bank, i, b)
      {
        var w := bank[b];
        var wordLen := |w|;
        if i >= wordLen && word[i - wordLen..i] == w {
          dp[i] := dp[i] + dp[i - wordLen];
        }
      }
    }
    count := dp[|word|];
  }

  /** No pattern of the bank is empty. */
  predicate NonEmpty(bank: seq<string>)
  {
    forall k :: 0 <= k < |bank| ==> |bank[k]| > 0
  }

  /** The counts are never negative, and with non-empty patterns a count is
      positive exactly when some pattern ends there after a positive
      count. */
  lemma {:induction false} SumPositive(word: string, bank: seq<string>, i: nat, k: nat)
    requires 0 < i <= |word| && k <= |bank| && NonEmpty(bank)
    requires forall j :: 0 <= j < i ==> Ways(word, bank, j) >= 0
    ensures Sum(word, bank, i, k) >= 0
    ensures Sum(word, bank, i, k) >= 1 <==>
              exists t :: 0 <= t < k && Ends(word, bank[t], i) && Ways(word, bank, i - |bank[t]|) >= 1
    decreases k
  {
    if k > 0 {
      SumPositive(word, bank, i, k - 1);
    }
  }

  lemma {:induction false} WaysNonNegative(word: string, bank: seq<string>, i: nat)
    requires i <= |word| && NonEmpty(bank)
    ensures forall j :: 0 <= j <= i ==> Ways(word, bank, j) >= 0
    decreases i
  {
    if i > 0 {
      WaysNonNegative(word, bank, i - 1);
      SumPositive(word, bank, i, |bank|);
    }
  }

  /** A reached non-empty prefix ends with a pattern after a reached
      prefix. */
  lemma LastLink(word: string, bank: seq<string>, longest: int, i: nat) returns (j: nat)
    requires 0 < i <= |word| && Reach(word, bank, longest, i)
    ensures From(i, longest) <= j < i && Link(word, bank, longest, j, i)
  {
    j :| From(i, longest) <= j < i && Link(word, bank, longest, j, i);
  }

  /** With non-empty patterns and `longest` at least every pattern's
      length, `wordBreak` reaches a prefix exactly when `combinations`
      counts at least one way to make it. */
  lemma {:induction false} BreakIffWays(word: string, bank: seq<string>, longest: int, i: nat)
    requires i <= |word| && NonEmpty(bank)
    requires forall k :: 0 <= k < |bank| ==> |bank[k]| <= longest
    ensures Reach(word, bank, longest, i) <==> Ways(word, bank, i) >= 1
    decreases i
  {
    if i > 0 {
      WaysNonNegative(word, bank, i - 1);
      SumPositive(word, bank, i, |bank|);
      if Reach(word, bank, longest, i) {
        var j := LastLink(word, bank, longest, i);
        var t :| 0 <= t < |bank| && bank[t] == word[j..i];
        BreakIffWays(word, bank, longest, j);
        assert Ends(word, bank[t], i) && i - |bank[t]| == j;
      }
      if Ways(word, bank, i) >= 1 {
        var t :| 0 <= t < |bank| && Ends(word, bank[t], i) && Ways(word, bank, i - |bank[t]|) >= 1;
        var j := i - |bank[t]|;
        BreakIffWays(word, bank, longest, j);
        assert word[j..i] == bank[t];
        assert From(i, longest) <= j < i && Link(word, bank, longest, j, i);
      }
    }
  }

  /** `parts` are bank patterns that, laid end to end, make `design`. */
  ghost predicate Splits(design: string, bank: seq<string>, parts: seq<string>)
  {
    (forall k :: 0 <= k < |parts| ==> parts[k] in bank) && Concat(parts) == design
  }

  lemma {:induction false} ConcatSnoc(parts: seq<string>, p: string)
    ensures Concat(parts + [p]) == Concat(parts) + p
  {
    if |parts| > 0 {
      assert (parts + [p])[1..] == parts[1..] + [p];
      ConcatSnoc(parts[1..], p);
    }
  }

  /** A prefix `wordBreak` reaches is made of bank patterns. */
  lemma {:induction false} ReachSplits(word: string, bank: seq<string>, longest: int, i: nat)
    requires i <= |word| && Reach(word, bank, longest, i)
    ensures exists parts :: Splits(word[..i], bank, parts)
    decreases i
  {
    if i == 0 {
      assert Splits(word[..0], bank, []);
    } else {
      var j := LastLink(word, bank, longest, i);
      ReachSplits(word, bank, longest, j);
      var front :| Splits(word[..j], bank, front);
      var parts := front + [word[j..i]];
      ConcatSnoc(front, word[j..i]);
      assert word[..j] + word[j..i] == word[..i];
      assert Splits(word[..i], bank, parts);
    }
  }

  /** With non-empty patterns and `longest` at least every pattern's
      length, a prefix made of bank patterns is reached. */
  lemma {:induction false} SplitsReach(word: string, bank: seq<string>, longest: int, i: nat, parts: seq<string>)
    requires i <= |word| && NonEmpty(bank)
    requires forall k :: 0 <= k < |bank| ==> |bank[k]| <= longest
    requires Splits(word[..i], bank, parts)
    ensures Reach(word, bank, longest, i)
    decreases i
  {
    if i > 0 {
      assert |parts| > 0;
      var front, p := parts[..|parts| - 1], parts[|parts| - 1];
      assert parts == front + [p];
      ConcatSnoc(front, p);
      var j := i - |p|;
      assert Concat(front) == word[..j] && p == word[j..i] by {
        assert Concat(front) + p == word[..i];
        assert word[..i][..j] == word[..j] && word[..i][j..] == word[j..i];
      }
      var t :| 0 <= t < |bank| && bank[t] == p;
      assert |p| > 0 && |p| <= longest;
      assert forall k :: 0 <= k < |front| ==> front[k] == parts[k];
      SplitsReach(word, bank, longest, j, front);
      assert Link(word, bank, longest, j, i);
    }
  }

  /** With non-empty patterns, part 1 counts a design exactly when part 2
      finds at least one way to make it. */
  lemma PartsAgree(word: string, bank: seq<string>)
    requires NonEmpty(bank)
    ensures var longest := MaxLength(bank);
            Reach(word, bank, longest, |word|) <==> Ways(word, bank, |word|) >= 1
    ensures var longest := MaxLength(bank);
            Reach(word, bank, longest, |word|) <==> exists parts :: Splits(word, bank, parts)
  {
    MaxLengthSpec(bank);
    BreakIffWays(word, bank, MaxLength(bank), |word|);
    assert word[..|word|] == word;
    if Reach(word, bank, MaxLength(bank), |word|) {
      ReachSplits(word, bank, MaxLength(bank), |word|);
    }
    if exists parts :: Splits(word, bank, parts) {
      var parts :| Splits(word, bank, parts);
      SplitsReach(word, bank, MaxLength(bank), |word|, parts);
    }
  }

  // ---------------------------------------------------------------------
  // The ways, one by one

  /** The patterns of the bank that `choice` picks, laid end to end. */
  function Join(bank: seq<string>, choice: seq<nat>): string
    requires forall j :: 0 <= j < |choice| ==> choice[j] < |bank|
  {
    if |choice| == 0 then "" else Join(bank, choice[..|choice| - 1]) + bank[choice[|choice| - 1]]
  }

  /** `choice` picks patterns of the bank, by index, that make the first
      `i` letters of the design; a pattern listed twice in the bank is two
      choices. */
  predicate Makes(word: string, bank: seq<string>, i: nat, choice: seq<nat>)
    requires i <= |word|
  {
    (forall j :: 0 <= j < |choice| ==> choice[j] < |bank|) && Join(bank, choice) == word[..i]
  }

  /** Every way to make the first `i` letters, listed by its last pattern. */
  function Choices(word: string, bank: seq<string>, i: nat): seq<seq<nat>>
    requires i <= |word| && NonEmpty(bank)
    decreases i, |bank| + 1
  {
    if i == 0 then [[]] else Closing(word, bank, i, |bank|)
  }

  /** The ways to make the first `i` letters whose last pattern is one of
      the first `k` of the bank. */
  function Closing(word: string, bank: seq<string>, i: nat, k: nat): seq<seq<nat>>
    requires 0 < i <= |word| && k <= |bank| && NonEmpty(bank)
    decreases i, k
  {
    if k == 0 then []
    else
      Closing(word, bank, i, k - 1) +
      (if Ends(word, bank[k - 1], i) then Extended(Choices(word, bank, i - |bank[k - 1]|), k - 1) else [])
  }

  /** Each choice followed by pattern `t`. */
  function Extended(choices: seq<seq<nat>>, t: nat): (r: seq<seq<nat>>)
    ensures |r| == |choices| && forall j :: 0 <= j < |r| ==> r[j] == choices[j] + [t]
  {
    seq(|choices|, j requires 0 <= j < |choices| => choices[j] + [t])
  }

  predicate Distinct(choices: seq<seq<nat>>)
  {
    forall a, b :: 0 <= a < b < |choices| ==> choices[a] != choices[b]
  }

  /** The table of `combinations` holds the number of listed ways. */
  lemma {:induction false} WaysCounted(word: string, bank: seq<string>, i: nat)
    requires i <= |word| && NonEmpty(bank)
    ensures Ways(word, bank, i) == |Choices(word, bank, i)|
    decreases i, |bank| + 1
  {
    if i > 0 {
      SumCounted(word, bank, i, |bank|);
    }
  }

  lemma {:induction false} SumCounted(word: string, bank: seq<string>, i: nat, k: nat)
    requires 0 < i <= |word| && k <= |bank| && NonEmpty(bank)
    ensures Sum(word, bank, i, k) == |Closing(word, bank, i, k)|
    decreases i, k
  {
    if k > 0 {
      SumCounted(word, bank, i, k - 1);
      if Ends(word, bank[k - 1], i) {
        WaysCounted(word, bank, i - |bank[k - 1]|);
      }
    }
  }

  /** Every listed way makes the prefix. */
  lemma {:induction false} ChoicesMake(word: string, bank: seq<string>, i: nat)
    requires i <= |word| && NonEmpty(bank)
    ensures forall c :: c in Choices(word, bank, i) ==> Makes(word, bank, i, c)
    decreases i, |bank| + 1
  {
    if i > 0 {
      ClosingMake(word, bank, i, |bank|);
    }
  }

  /** Every way listed by `Closing` makes the prefix and ends with one of
      the first `k` patterns. */
  lemma {:induction false} ClosingMake(word: string, bank: seq<string>, i: nat, k: nat)
    requires 0 < i <= |word| && k <= |bank| && NonEmpty(bank)
    ensures forall c :: c in Closing(word, bank, i, k) ==> Makes(word, bank, i, c) && |c| > 0 && c[|c| - 1] < k
    decreases i, k
  {
    if k > 0 {
      ClosingMake(word, bank, i, k - 1);
      var w := bank[k - 1];
      if Ends(word, w, i) {
        var j := i - |w|;
        ChoicesMake(word, bank, j);
        forall c | c in Extended(Choices(word, bank, j), k - 1)
          ensures Makes(word, bank, i, c) && |c| > 0 && c[|c| - 1] < k
        {
          var a :| 0 <= a < |Choices(word, bank, j)| && c == Choices(word, bank, j)[a] + [k - 1];
          assert Choices(word, bank, j)[a] in Choices(word, bank, j);
          ExtendMakes(word, bank, i, Choices(word, bank, j)[a], k - 1);
        }
      }
    }
  }

  /** A way to make the letters before pattern `t`, followed by `t`, makes
      the letters up to its end. */
  lemma ExtendMakes(word: string, bank: seq<string>, i: nat, x: seq<nat>, t: nat)
    requires i <= |word| && t < |bank| && Ends(word, bank[t], i) && Makes(word, bank, i - |bank[t]|, x)
    ensures Makes(word, bank, i, x + [t])
  {
    var c := x + [t];
    assert c[..|c| - 1] == x;
    assert word[..i - |bank[t]|] + word[i - |bank[t]|..i] == word[..i];
  }

  /** The ways that end with pattern `t` are listed once `t` is among the
      first `k` patterns. */
  lemma {:induction false} InClosing(word: string, bank: seq<string>, i: nat, k: nat, x: seq<nat>, t: nat)
    requires 0 < i <= |word| && t < k <= |bank| && NonEmpty(bank)
    requires Ends(word, bank[t], i) && x in Choices(word, bank, i - |bank[t]|)
    ensures x + [t] in Closing(word, bank, i, k)
    decreases k
  {
    if t < k - 1 {
      InClosing(word, bank, i, k - 1, x, t);
    } else {
      var e := Extended(Choices(word, bank, i - |bank[t]|), t);
      var a :| 0 <= a < |Choices(word, bank, i - |bank[t]|)| && Choices(word, bank, i - |bank[t]|)[a] == x;
      assert e[a] == x + [t];
    }
  }

  /** Every way to make the prefix is listed. */
  lemma {:induction false} MakesChosen(word: string, bank: seq<string>, i: nat, c: seq<nat>)
    requires i <= |word| && NonEmpty(bank) && Makes(word, bank, i, c)
    ensures c in Choices(word, bank, i)
    decreases i
  {
    if |c| == 0 {
      assert |word[..i]| == 0;
    } else {
      var x, t := c[..|c| - 1], c[|c| - 1];
      assert c == x + [t];
      var w := bank[t];
      var j := i - |w|;
      assert Join(bank, x) + w == word[..i];
      assert |w| > 0 && |w| <= i;
      assert Join(bank, x) == word[..i][..j] == word[..j];
      assert w == word[..i][j..] == word[j..i];
      MakesChosen(word, bank, j, x);
      InClosing(word, bank, i, |bank|, x, t);
    }
  }

  /** No way is listed twice. */
  lemma {:induction false} ChoicesDistinct(word: string, bank: seq<string>, i: nat)
    requires i <= |word| && NonEmpty(bank)
    ensures Distinct(Choices(word, bank, i))
    decreases i, |bank| + 1
  {
    if i > 0 {
      ClosingDistinct(word, bank, i, |bank|);
    }
  }

  lemma {:induction false} ClosingDistinct(word: string, bank: seq<string>, i: nat, k: nat)
    requires 0 < i <= |word| && k <= |bank| && NonEmpty(bank)
    ensures Distinct(Closing(word, bank, i, k))
    decreases i, k
  {
    if k > 0 {
      ClosingDistinct(word, bank, i, k - 1);
      ClosingMake(word, bank, i, k - 1);
      var w := bank[k - 1];
      if Ends(word, w, i) {
        var front, inner := Closing(word, bank, i, k - 1), Choices(word, bank, i - |w|);
        var back := Extended(inner, k - 1);
        ChoicesDistinct(word, bank, i - |w|);
        forall a, b | 0 <= a < b < |back|
          ensures back[a] != back[b]
        {
          assert back[a][..|inner[a]|] == inner[a] && back[b][..|inner[b]|] == inner[b];
        }
        forall a, b | 0 <= a < |front| && 0 <= b < |back|
          ensures front[a] != back[b]
        {
          assert front[a] in front;
          assert back[b][|back[b]| - 1] == k - 1;
        }
      }
    }
  }

  /** `combinations` answers the number of ordered ways to make the design
      from bank patterns: with non-empty patterns, the ways it counts are
      listed once each, each makes the design, and every way that makes
      it is listed. */
  lemma CombinationsCount(word: string, bank: seq<string>)
    requires NonEmpty(bank)
    ensures Ways(word, bank, |word|) == |Choices(word, bank, |word|)|
    ensures Distinct(Choices(word, bank, |word|))
    ensures forall c :: c in Choices(word, bank, |word|) <==> Makes(word, bank, |word|, c)
  {
    WaysCounted(word, bank, |word|);
    ChoicesDistinct(word, bank, |word|);
    ChoicesMake(word, bank, |word|);
    forall c | Makes(word, bank, |word|, c)
      ensures c in Choices(word, bank, |word|)
    {
      MakesChosen(word, bank, |word|, c);
    }
  }
}
