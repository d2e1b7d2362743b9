/** Day 1: two columns of location IDs. Part 1 pairs the columns in
    ascending order and sums the distances of the pairs; part 2 weighs each
    left value by how often it occurs in the right column. */
module Day1 {
  import opened Wrappers
  import opened GoInt
  import opened Text
  import opened Sorting

  // ---------------------------------------------------------------------
  // convertInputData

  /** A line's two values: its first two fields read with `strconv.Atoi`,
      whose error is ignored (a field that is not a number reads as 0);
      None when the line has fewer than two fields, where Go indexes past
      them and panics. */
  function Row(line: string): Option<(int, int)>
  {
    var fields := Fields(line);
    if |fields| < 2 then None else Some((AtoiOrZero(fields[0]), AtoiOrZero(fields[1])))
  }

  /** The two columns of the input, line by line; None when some line has
      fewer than two fields. */
  function Columns(input: seq<string>): (r: Option<(seq<int>, seq<int>)>)
    ensures r.Some? <==> forall k :: 0 <= k < |input| ==> Row(input[k]).Some?
    ensures r.Some? ==> |r.value.0| == |input| && |r.value.1| == |input| &&
                        forall k :: 0 <= k < |input| ==> Row(input[k]) == Some((r.value.0[k], r.value.1[k]))
  {
    if |input| == 0 then Some(([], []))
    else
      match (Columns(input[..|input| - 1]), Row(input[|input| - 1]))
      case (Some((left, right)), Some((a, b))) => Some((left + [a], right + [b]))
      case _ => None
  }

  /** `convertInputData`: the first two fields of every line appended to
      the two columns in order. */
  method ConvertInputData(inputData: seq<string>) returns (columns: Option<(seq<int>, seq<int>)>)
    ensures columns == Columns(inputData)
  {
    var leftValues: seq<int> := [];
    var rightValues: seq<int> := [];
    for k := 0 to |inputData|
      invariant Columns(inputData[..k]) == Some((leftValues, rightValues))
    {
      assert inputData[..k + 1][..k] == inputData[..k] && inputData[..k + 1][k] == inputData[k];
      var fields := Fields(inputData[k]);
      if |fields| < 2 {
        return None;
      }
      var left := AtoiOrZero(fields[0]);
      var right := AtoiOrZero(fields[1]);
      leftValues := leftValues + [left];
      rightValues := rightValues + [right];
    }
    assert inputData[..|inputData|] == inputData;
    return Some((leftValues, rightValues));
  }

  /** The line of the puzzle's input holding `a` and `b`. */
  function Line(a: int, b: int): string
  {
    Join([Itoa(a), Itoa(b)], ' ')
  }

  /** A numeral is a non-empty word without white space. */
  lemma NumeralWord(n: int)
    ensures |Itoa(n)| > 0 && forall i :: 0 <= i < |Itoa(n)| ==> !IsSpace(Itoa(n)[i])
  {
    ItoaChars(n);
    assert forall i :: 0 <= i < |Itoa(n)| ==> Itoa(n)[i] in Itoa(n);
    NatDigitsBounds(if n < 0 then -n else n);
  }

  /** A printed line reads back as its two values. */
  lemma RowOfLine(a: int, b: int)
    ensures Row(Line(a, b)) == Some((a, b))
  {
    NumeralWord(a);
    NumeralWord(b);
    FieldsJoin([Itoa(a), Itoa(b)]);
    AtoiItoa(a);
    AtoiItoa(b);
  }

  /** Two columns of equal length printed line by line read back as the
      same columns. */
  lemma ColumnsRoundTrip(left: seq<int>, right: seq<int>)
    requires |left| == |right|
    ensures Columns(seq(|left|, k requires 0 <= k < |left| => Line(left[k], right[k]))) == Some((left, right))
  {
    var input := seq(|left|, k requires 0 <= k < |left| => Line(left[k], right[k]));
    forall k | 0 <= k < |input| ensures Row(input[k]) == Some((left[k], right[k])) {
      RowOfLine(left[k], right[k]);
    }
    var r := Columns(input).value;
    assert r.0 == left by {
      assert forall k :: 0 <= k < |left| ==> Row(input[k]) == Some((r.0[k], r.1[k]));
    }
    assert r.1 == right;
  }

  // ---------------------------------------------------------------------
  // part1

  /** The sum of the distances between the values at equal positions, over
      the positions of `left`. */
  function TotalDistance(left: seq<int>, right: seq<int>): int
    requires |left| <= |right|
  {
    if |left| == 0 then 0
    else TotalDistance(left[..|left| - 1], right) + Abs(left[|left| - 1] - right[|left| - 1])
  }

  /** `part1`: both columns sorted ascending, then the distances of the
      values at equal positions summed; None when the right column is the
      shorter one (Go indexes past it and panics). Go sorts the caller's
      slices in place; the sorted columns are `SortInts` of the given
      ones. */
  method Part1(leftValues: seq<int>, rightValues: seq<int>) returns (answer: Option<int>)
    ensures answer.None? <==> |rightValues| < |leftValues|
    ensures answer.Some? ==> answer.value == TotalDistance(SortInts(leftValues), SortInts(rightValues))
  {
    var left := SortInts(leftValues);
    var right := SortInts(rightValues);
    var total := 0;
    for index := 0 to |left|
      invariant index <= |right| ==> total == TotalDistance(left[..index], right)
    {
      if index >= |right| {
        return None;
      }
      assert left[..index + 1][..index] == left[..index];
      total := total + Abs(left[index] - right[index]);
    }
    if |right| < |left| {
      return None;
    }
    assert left[..|left|] == left;
    return Some(total);
  }

  /** The distances are never negative. */
  lemma {:induction false} TotalDistanceNonNegative(left: seq<int>, right: seq<int>)
    requires |left| <= |right|
    ensures TotalDistance(left, right) >= 0
  {
    if |left| > 0 {
      TotalDistanceNonNegative(left[..|left| - 1], right);
    }
  }

  /** The total is 0 exactly when every value equals its partner. */
  lemma {:induction false} TotalDistanceZero(left: seq<int>, right: seq<int>)
    requires |left| <= |right|
    ensures TotalDistance(left, right) == 0 <==> left == right[..|left|]
  {
    if |left| > 0 {
      var n := |left| - 1;
      TotalDistanceZero(left[..n], right);
      TotalDistanceNonNegative(left[..n], right);
      assert left == left[..n] + [left[n]];
      assert right[..n + 1] == right[..n] + [right[n]];
    }
  }

  /** A sorted permutation is unique: two sorted lists with the same
      elements are equal. */
  lemma {:induction false} SortedUnique(a: seq<int>, b: seq<int>)
    requires SortedInts(a) && SortedInts(b) && multiset(a) == multiset(b)
    ensures a == b
    decreases |a|
  {
    assert |a| == |multiset(a)| == |multiset(b)| == |b|;
    if |a| > 0 {
      HeadLeast(a, b[0]);
      HeadLeast(b, a[0]);
      var a', b' := a[1..], b[1..];
      assert a == [a[0]] + a' && b == [b[0]] + b';
      assert a[0] == b[0];
      assert multiset(a') == multiset(a) - multiset{a[0]} by {
        assert multiset(a) == multiset{a[0]} + multiset(a');
      }
      assert multiset(b') == multiset(b) - multiset{b[0]} by {
        assert multiset(b) == multiset{b[0]} + multiset(b');
      }
      SortedTail(a);
      SortedTail(b);
      SortedUnique(a', b');
    }
  }

  lemma SortedTail(a: seq<int>)
    requires SortedInts(a) && |a| > 0
    ensures SortedInts(a[1..])
  {
    forall i, j | 0 <= i < j < |a| - 1
      ensures a[1..][i] <= a[1..][j]
    {
      assert a[1..][i] == a[i + 1] && a[1..][j] == a[j + 1];
    }
  }

  /** The head of a sorted list is its least element. */
  lemma HeadLeast(a: seq<int>, x: int)
    requires SortedInts(a) && x in multiset(a)
    ensures a[0] <= x
  {
    var j :| 0 <= j < |a| && a[j] == x;
    assert j == 0 || a[0] <= a[j];
  }

  /** Part 1 depends only on which values each column holds, not on their
      order. */
  lemma Part1Reordered(left: seq<int>, right: seq<int>, left': seq<int>, right': seq<int>)
    requires multiset(left) == multiset(left') && multiset(right) == multiset(right')
    ensures SortInts(left) == SortInts(left') && SortInts(right) == SortInts(right')
  {
    SortedUnique(SortInts(left), SortInts(left'));
    SortedUnique(SortInts(right), SortInts(right'));
  }

  /** For columns of equal length part 1 answers 0 exactly when they hold
      the same values, each as often. */
  lemma Part1Zero(left: seq<int>, right: seq<int>)
    requires |left| == |right|
    ensures TotalDistance(SortInts(left), SortInts(right)) == 0 <==> multiset(left) == multiset(right)
  {
    var l, r := SortInts(left), SortInts(right);
    TotalDistanceZero(l, r);
    assert r[..|l|] == r;
    if multiset(left) == multiset(right) {
      SortedUnique(l, r);
    }
  }

  // ---------------------------------------------------------------------
  // populateFrequencyMap and part2

  /** Go's map read: the zero value for a missing key. */
  function Get(m: map<int, int>, v: int): int
  {
    if v in m then m[v] else 0
  }

  /** `populateFrequencyMap`: `frequencyMap[value]++` for every value, in
      order. Go updates the caller's map; the model returns the updated
      map. */
  method PopulateFrequencyMap(frequencyMap: map<int, int>, values: seq<int>) returns (counts: map<int, int>)
    ensures forall v :: v in counts <==> v in frequencyMap || v in values
    ensures forall v :: Get(counts, v) == Get(frequencyMap, v) + multiset(values)[v]
  {
    counts := frequencyMap;
    for k := 0 to |values|
      invariant forall v :: v in counts <==> v in frequencyMap || v in values[..k]
      invariant forall v :: Get(counts, v) == Get(frequencyMap, v) + multiset(values[..k])[v]
    {
      var value := values[k];
      assert values[..k + 1] == values[..k] + [value];
      counts := counts[value := Get(counts, value) + 1];
    }
    assert values[..|values|] == values;
  }

  /** The similarity score: each left value times the number of times it
      occurs in the right column. */
  function Similarity(left: seq<int>, right: seq<int>): int
  {
    if |left| == 0 then 0
    else Similarity(left[..|left| - 1], right) + left[|left| - 1] * multiset(right)[left[|left| - 1]]
  }

  /** `part2`: the frequencies of the right column, then each left value
      times its frequency, 0 for a value absent from the map. */
  method Part2(leftValues: seq<int>, rightValues: seq<int>) returns (answer: int)
    ensures answer == Similarity(leftValues, rightValues)
  {
    var frequencyMap := PopulateFrequencyMap(map[], rightValues);
    answer := 0;
    for k := 0 to |leftValues|
      invariant answer == Similarity(leftValues[..k], rightValues)
    {
      var value := leftValues[k];
      assert leftValues[..k + 1][..k] == leftValues[..k];
      var toAdd := 0;
      if value in frequencyMap {
        toAdd := value * frequencyMap[value];
      }
      answer := answer + toAdd;
    }
    assert leftValues[..|leftValues|] == leftValues;
  }

  /** The sum of `x` over the entries of `s` equal to `x`. */
  function Matches(x: int, s: seq<int>): int
  {
    if |s| == 0 then 0 else Matches(x, s[..|s| - 1]) + (if s[|s| - 1] == x then x else 0)
  }

  /** The sum over all pairs (i, j) with left[i] == right[j] of that
      value. */
  function PairSum(left: seq<int>, right: seq<int>): int
  {
    if |left| == 0 then 0 else PairSum(left[..|left| - 1], right) + Matches(left[|left| - 1], right)
  }

  lemma {:induction false} MatchesCount(x: int, s: seq<int>)
    ensures Matches(x, s) == x * multiset(s)[x]
  {
    if |s| > 0 {
      var n := |s| - 1;
      MatchesCount(x, s[..n]);
      assert s == s[..n] + [s[n]];
    }
  }

  lemma {:induction false} SimilarityPairs(left: seq<int>, right: seq<int>)
    ensures Similarity(left, right) == PairSum(left, right)
  {
    if |left| > 0 {
      SimilarityPairs(left[..|left| - 1], right);
      MatchesCount(left[|left| - 1], right);
    }
  }

  /** One more right value adds the left values equal to it. */
  lemma {:induction false} PairSumSnoc(left: seq<int>, right: seq<int>, y: int)
    ensures PairSum(left, right + [y]) == PairSum(left, right) + Matches(y, left)
  {
    if |left| > 0 {
      var n := |left| - 1;
      PairSumSnoc(left[..n], right, y);
      assert (right + [y])[..|right|] == right;
    }
  }

  lemma {:induction false} PairSumEmpty(left: seq<int>)
    ensures PairSum(left, []) == 0
  {
    if |left| > 0 {
      PairSumEmpty(left[..|left| - 1]);
    }
  }

  lemma {:induction false} PairSumSymmetric(left: seq<int>, right: seq<int>)
    ensures PairSum(left, right) == PairSum(right, left)
  {
    if |right| == 0 {
      PairSumEmpty(left);
    } else {
      var n := |right| - 1;
      PairSumSymmetric(left, right[..n]);
      assert right == right[..n] + [right[n]];
      PairSumSnoc(left, right[..n], right[n]);
    }
  }

  /** The score is symmetric: swapping the columns gives the same score,
      since both count each pair of equal values once. */
  lemma SimilaritySymmetric(left: seq<int>, right: seq<int>)
    ensures Similarity(left, right) == Similarity(right, left)
  {
    SimilarityPairs(left, right);
    SimilarityPairs(right, left);
    PairSumSymmetric(left, right);
  }

  /** The score depends only on which values each column holds, so part 2
      gives the same answer on the columns part 1 has sorted in place. */
  lemma SimilarityReordered(left: seq<int>, right: seq<int>, left': seq<int>, right': seq<int>)
    requires multiset(left) == multiset(left') && multiset(right) == multiset(right')
    ensures Similarity(left', right') == Similarity(left, right)
  {
    SimilaritySymmetric(left, right');
    SimilaritySymmetric(left', right');
    SimilarityOfMultiset(right', left, left');
  }

  /** The right column enters only through its counts. */
  lemma {:induction false} SimilarityOfMultiset(left: seq<int>, right: seq<int>, right': seq<int>)
    requires multiset(right) == multiset(right')
    ensures Similarity(left, right) == Similarity(left, right')
  {
    if |left| > 0 {
      SimilarityOfMultiset(left[..|left| - 1], right, right');
    }
  }

  /** The example of the `part2` comment: 1 * 2 + 2 * 1 + 3 * 0, which is
      4. */
  lemma SimilarityExample()
    ensures Similarity([1, 2, 3], [1, 1, 2]) == 4
  {
    assert [1, 2, 3][..2] == [1, 2] && [1, 2][..1] == [1] && [1][..0] == [];
    assert multiset([1, 1, 2])[1] == 2 && multiset([1, 1, 2])[2] == 1 && multiset([1, 1, 2])[3] == 0;
  }

  /** The example of the `part1` comment: [1, 2, 3] and [2, 3, 4] are 3
      apart. */
  lemma DistanceExample()
    ensures TotalDistance([1, 2, 3], [2, 3, 4]) == 3
  {
    assert [1, 2, 3][..2] == [1, 2] && [1, 2][..1] == [1] && [1][..0] == [];
  }

  // ---------------------------------------------------------------------
  // main

  /** `main`: both parts on the columns of the input, part 2 on the
      columns as part 1 left them, sorted; None when a line has fewer than
      two fields. */
  method Solve(input: seq<string>) returns (answers: Option<(int, int)>)
    ensures answers.None? <==> Columns(input).None?
    ensures answers.Some? ==>
              var (left, right) := Columns(input).value;
              answers.value == (TotalDistance(SortInts(left), SortInts(right)), Similarity(left, right))
  {
    var columns := ConvertInputData(input);
    if columns.None? {
      return None;
    }
    var (leftValues, rightValues) := columns.value;
    var part1 := Part1(leftValues, rightValues);
    var part2 := Part2(SortInts(leftValues), SortInts(rightValues));
    SimilarityReordered(leftValues, rightValues, SortInts(leftValues), SortInts(rightValues));
    return Some((part1.value, part2));
  }
}
