/** Day 2: reports of levels, safe when they climb or fall steadily by
    one to three at every step; part 2 tolerates one removed level. */
module Day2 {
  import opened Text

  // ---------------------------------------------------------------------
  // convertData

  /** The fields read in turn with `strconv.Atoi`, whose error is
      ignored: a field that is not a number reads as 0. */
  function ReadAll(fields: seq<string>): (numbers: seq<int>)
    ensures |numbers| == |fields|
    ensures forall k :: 0 <= k < |fields| ==> numbers[k] == AtoiOrZero(fields[k])
  {
    if |fields| == 0 then [] else ReadAll(fields[..|fields| - 1]) + [AtoiOrZero(fields[|fields| - 1])]
  }

  /** One report: the numbers of a line's white-space separated fields. */
  function Levels(line: string): seq<int>
  {
    ReadAll(Fields(line))
  }

  /** `convertData`: one report per line, in order. */
  method ConvertData(rawData: seq<string>) returns (reports: seq<seq<int>>)
    ensures |reports| == |rawData|
    ensures forall i :: 0 <= i < |rawData| ==> reports[i] == Levels(rawData[i])
  {
    reports := [];
    for i := 0 to |rawData|
      invariant |reports| == i
      invariant forall j :: 0 <= j < i ==> reports[j] == Levels(rawData[j])
    {
      var fields := Fields(rawData[i]);
      var row := [];
      for k := 0 to |fields|
        invariant row == ReadAll(fields[..k])
      {
        assert fields[..k + 1][..k] == fields[..k];
        row := row + [AtoiOrZero(fields[k])];
      }
      assert fields[..|fields|] == fields;
      reports := reports + [row];
    }
  }

  /** Reading back the numbers of the printed levels. */
  lemma ReadNumerals(values: seq<int>)
    ensures ReadAll(Numerals(values)) == values
  {
    forall k | 0 <= k < |values|
      ensures AtoiOrZero(Itoa(values[k])) == values[k]
    {
      AtoiItoa(values[k]);
    }
  }

  /** A report printed as the puzzle prints it, the levels separated by
      single spaces, reads back as the same levels. */
  lemma LevelsRoundTrip(values: seq<int>)
    ensures Levels(Join(Numerals(values), ' ')) == values
  {
    var words := Numerals(values);
    forall k | 0 <= k < |words|
      ensures |words[k]| > 0 && forall i :: 0 <= i < |words[k]| ==> !IsSpace(words[k][i])
    {
      ItoaChars(values[k]);
      assert forall i :: 0 <= i < |words[k]| ==> words[k][i] in Itoa(values[k]);
      NatDigitsBounds(if values[k] < 0 then -values[k] else values[k]);
    }
    FieldsJoin(words);
    ReadNumerals(values);
  }

  // ---------------------------------------------------------------------
  // checkSafetyLevels

  /** The puzzle's rule: every step between neighbouring levels rises by
      one to three, or every step falls by one to three. A report of
      fewer than two levels has no step and is safe. */
  predicate Safe(levels: seq<int>)
  {
    (forall i :: 0 < i < |levels| ==> 1 <= levels[i] - levels[i - 1] <= 3) ||
    (forall i :: 0 < i < |levels| ==> 1 <= levels[i - 1] - levels[i] <= 3)
  }

  /** The step into level `i` is one to three in the direction `ascending`. */
  predicate StepOk(levels: seq<int>, i: nat, ascending: bool)
    requires 0 < i < |levels|
  {
    if ascending then 1 <= levels[i] - levels[i - 1] <= 3
    else 1 <= levels[i - 1] - levels[i] <= 3
  }

  /** `checkSafetyLevels`: the direction is set by the first two levels;
      each step must keep it and differ by one to three. */
  method CheckSafetyLevels(line: seq<int>) returns (safe: bool)
    ensures safe == Safe(line)
  {
    if |line| < 2 {
      return true;
    }
    var trailer := line[0];
    var ascending := trailer < line[1];
    for i := 1 to |line|
      invariant trailer == line[i - 1]
      invariant ascending == (line[0] < line[1])
      invariant forall j :: 0 < j < i ==> StepOk(line, j, ascending)
    {
      var diff := trailer - line[i];
      if diff < 0 {
        diff := -diff;
      }
      var stillAscending := trailer < line[i];
      if diff < 1 || diff > 3 || ascending != stillAscending {
        assert !StepOk(line, i, ascending);
        UnsafeStep(line, i);
        return false;
      }
      trailer := line[i];
      ascending := stillAscending;
    }
    SafeSteps(line, ascending);
    return true;
  }

  /** A step that breaks the first step's direction or size makes the
      report unsafe. */
  lemma UnsafeStep(levels: seq<int>, i: nat)
    requires 0 < i < |levels| && !StepOk(levels, i, levels[0] < levels[1])
    ensures !Safe(levels)
  {
    if levels[0] < levels[1] {
      assert !(1 <= levels[1 - 1] - levels[1]);
      assert !(1 <= levels[i] - levels[i - 1] <= 3);
    } else {
      assert !(1 <= levels[1] - levels[1 - 1]);
      assert !(1 <= levels[i - 1] - levels[i] <= 3);
    }
  }

  /** Steps all of one direction and size make the report safe. */
  lemma SafeSteps(levels: seq<int>, ascending: bool)
    requires forall j :: 0 < j < |levels| ==> StepOk(levels, j, ascending)
    ensures Safe(levels)
  {
    if ascending {
      assert forall j :: 0 < j < |levels| ==> 1 <= levels[j] - levels[j - 1] <= 3 by {
        forall j | 0 < j < |levels| ensures 1 <= levels[j] - levels[j - 1] <= 3 {
          assert StepOk(levels, j, ascending);
        }
      }
    } else {
      assert forall j :: 0 < j < |levels| ==> 1 <= levels[j - 1] - levels[j] <= 3 by {
        forall j | 0 < j < |levels| ensures 1 <= levels[j - 1] - levels[j] <= 3 {
          assert StepOk(levels, j, ascending);
        }
      }
    }
  }

  /** Two equal neighbouring levels make a report unsafe. */
  lemma EqualUnsafe(levels: seq<int>, i: nat)
    requires 0 < i < |levels| && levels[i - 1] == levels[i]
    ensures !Safe(levels)
  {
    assert !(1 <= levels[i] - levels[i - 1]);
  }

  // ---------------------------------------------------------------------
  // remove and the dampener

  /** `remove`: a copy of the report without the level at `index`. */
  function Remove(slice: seq<int>, index: nat): (r: seq<int>)
    requires index < |slice|
    ensures |r| == |slice| - 1
    ensures forall j :: 0 <= j < |r| ==> r[j] == if j < index then slice[j] else slice[j + 1]
    ensures multiset(r) + multiset{slice[index]} == multiset(slice)
  {
    assert slice == slice[..index] + [slice[index]] + slice[index + 1..];
    slice[..index] + slice[index + 1..]
  }

  /** `part2`'s rule: safe as it is, or after removing one level. */
  predicate Tolerable(levels: seq<int>)
  {
    Safe(levels) || exists i :: 0 <= i < |levels| && Safe(Remove(levels, i))
  }

  /** The goroutine of `part2`: the report as it is, then with each
      level removed in turn, until one is safe. */
  method CheckDampened(line: seq<int>) returns (safe: bool)
    ensures safe == Tolerable(line)
  {
    safe := CheckSafetyLevels(line);
    if safe {
      return;
    }
    for index := 0 to |line|
      invariant forall j :: 0 <= j < index ==> !Safe(Remove(line, j))
    {
      var result := CheckSafetyLevels(Remove(line, index));
      if result {
        return true;
      }
    }
    return false;
  }

  /** A safe report stays safe when its first or last level is removed. */
  lemma SafeDropEnds(levels: seq<int>)
    requires Safe(levels) && |levels| >= 1
    ensures Safe(Remove(levels, 0)) && Safe(Remove(levels, |levels| - 1))
  {
    SafeInside(levels, Remove(levels, 0), 1);
    SafeInside(levels, Remove(levels, |levels| - 1), 0);
  }

  /** The levels of a safe report from `offset` on, in a row, are safe. */
  lemma SafeInside(levels: seq<int>, part: seq<int>, offset: nat)
    requires Safe(levels) && offset + |part| <= |levels|
    requires forall j :: 0 <= j < |part| ==> part[j] == levels[offset + j]
    ensures Safe(part)
  {
    if forall j :: 0 < j < |levels| ==> 1 <= levels[j] - levels[j - 1] <= 3 {
      forall j | 0 < j < |part|
        ensures 1 <= part[j] - part[j - 1] <= 3
      {
        assert part[j - 1] == levels[offset + j - 1];
      }
    } else {
      forall j | 0 < j < |part|
        ensures 1 <= part[j - 1] - part[j] <= 3
      {
        assert part[j - 1] == levels[offset + j - 1];
      }
    }
  }

  /** When two neighbouring levels are equal, only removing one of them
      can make the report safe. */
  lemma DuplicateForcesRemoval(levels: seq<int>, i: nat, j: nat)
    requires 0 < i < |levels| && levels[i - 1] == levels[i]
    requires j < |levels| && Safe(Remove(levels, j))
    ensures j == i - 1 || j == i
  {
    var r := Remove(levels, j);
    if j < i - 1 {
      EqualUnsafe(r, i - 1);
    } else if j > i {
      EqualUnsafe(r, i);
    }
  }

  // ---------------------------------------------------------------------
  // part1 and part2

  /** How many reports are safe (part 1) or tolerable (part 2). */
  function CountSafe(reports: seq<seq<int>>, dampened: bool): nat
  {
    if |reports| == 0 then 0
    else
      var last := reports[|reports| - 1];
      CountSafe(reports[..|reports| - 1], dampened) +
      if (if dampened then Tolerable(last) else Safe(last)) then 1 else 0
  }

  /** `part1`: one check per report, the safe ones counted. */
  method Part1(reports: seq<seq<int>>) returns (safeReports: nat)
    ensures safeReports == CountSafe(reports, false)
  {
    safeReports := 0;
    for i := 0 to |reports|
      invariant safeReports == CountSafe(reports[..i], false)
    {
      assert reports[..i + 1][..i] == reports[..i];
      var safe := CheckSafetyLevels(reports[i]);
      if safe {
        safeReports := safeReports + 1;
      }
    }
    assert reports[..|reports|] == reports;
  }

  /** `part2`: one dampened check per report, the safe ones counted. */
  method Part2(reports: seq<seq<int>>) returns (safeReports: nat)
    ensures safeReports == CountSafe(reports, true)
  {
    safeReports := 0;
    for i := 0 to |reports|
      invariant safeReports == CountSafe(reports[..i], true)
    {
      assert reports[..i + 1][..i] == reports[..i];
      var safe := CheckDampened(reports[i]);
      if safe {
        safeReports := safeReports + 1;
      }
    }
    assert reports[..|reports|] == reports;
  }

  /** The dampener only adds safe reports, and no count exceeds the
      number of reports. */
  lemma {:induction false} DampenerCountsMore(reports: seq<seq<int>>)
    ensures CountSafe(reports, false) <= CountSafe(reports, true) <= |reports|
  {
    if |reports| > 0 {
      DampenerCountsMore(reports[..|reports| - 1]);
    }
  }
}
