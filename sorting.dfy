/** Stand-ins for the library sorts the solvers call (`sort.Ints`,
    `slices.Sort`, `sort.Strings` and `sort.Slice` with `<`): an insertion
    sort whose contract is what the library promises, an ascending
    permutation of the input. */
module Sorting {

  predicate SortedInts(s: seq<int>)
  {
    forall i, j :: 0 <= i < j < |s| ==> s[i] <= s[j]
  }

  function InsertInt(x: int, s: seq<int>): seq<int>
  {
    if |s| == 0 then [x]
    else if x <= s[0] then [x] + s
    else [s[0]] + InsertInt(x, s[1..])
  }

  /** Inserting adds exactly `x` to the elements. */
  lemma {:induction false} InsertIntElements(x: int, s: seq<int>)
    ensures multiset(InsertInt(x, s)) == multiset(s) + multiset{x}
  {
    if |s| > 0 && x > s[0] {
      InsertIntElements(x, s[1..]);
      assert s == [s[0]] + s[1..];
    }
  }

  /** Inserting into a sorted list keeps it sorted. */
  lemma {:induction false} InsertIntSorted(x: int, s: seq<int>)
    requires SortedInts(s)
    ensures SortedInts(InsertInt(x, s))
  {
    if |s| > 0 && x > s[0] {
      var t := InsertInt(x, s[1..]);
      InsertIntSorted(x, s[1..]);
      InsertIntElements(x, s[1..]);
      forall j | 0 <= j < |t|
        ensures s[0] <= t[j]
      {
        assert t[j] in multiset(t);
        if t[j] != x {
          assert t[j] in multiset(s[1..]);
          var k :| 0 <= k < |s[1..]| && s[1..][k] == t[j];
          assert s[k + 1] == t[j];
        }
      }
      assert InsertInt(x, s) == [s[0]] + t;
    }
  }

  /** `sort.Ints` / `slices.Sort` on a slice of ints. */
  function SortInts(s: seq<int>): (r: seq<int>)
    ensures SortedInts(r)
    ensures multiset(r) == multiset(s)
    ensures |r| == |s|
  {
    if |s| == 0 then []
    else
      var t := SortInts(s[1..]);
      InsertIntSorted(s[0], t);
      InsertIntElements(s[0], t);
      assert s == [s[0]] + s[1..];
      assert |InsertInt(s[0], t)| == |multiset(InsertInt(s[0], t))|;
      InsertInt(s[0], t)
  }

  /** The first element of a sorted permutation is the minimum. */
  lemma SortIntsHeadIsMin(s: seq<int>)
    requires |s| > 0
    ensures SortInts(s)[0] in s
    ensures forall x :: x in s ==> SortInts(s)[0] <= x
  {
    var r := SortInts(s);
    assert r[0] in multiset(r);
    forall x | x in s
      ensures r[0] <= x
    {
      assert x in multiset(s);
      assert x in multiset(r);
      var k :| 0 <= k < |r| && r[k] == x;
      assert k == 0 || r[0] <= r[k];
    }
  }

  // ---------------------------------------------------------------------
  // Strings, compared as Go compares them: lexicographically by character.

  predicate StrLe(a: string, b: string)
  {
    |a| == 0 || (|b| > 0 && (a[0] < b[0] || (a[0] == b[0] && StrLe(a[1..], b[1..]))))
  }

  lemma {:induction false} StrLeTotal(a: string, b: string)
    ensures StrLe(a, b) || StrLe(b, a)
  {
    if |a| > 0 && |b| > 0 && a[0] == b[0] {
      StrLeTotal(a[1..], b[1..]);
    }
  }

  lemma {:induction false} StrLeReflexive(a: string)
    ensures StrLe(a, a)
  {
    if |a| > 0 {
      StrLeReflexive(a[1..]);
    }
  }

  lemma {:induction false} StrLeTransitive(a: string, b: string, c: string)
    requires StrLe(a, b) && StrLe(b, c)
    ensures StrLe(a, c)
  {
    if |a| > 0 && a[0] == b[0] && b[0] == c[0] {
      StrLeTransitive(a[1..], b[1..], c[1..]);
    }
  }

  lemma {:induction false} StrLeAntisymmetric(a: string, b: string)
    requires StrLe(a, b) && StrLe(b, a)
    ensures a == b
  {
    if |a| > 0 {
      StrLeAntisymmetric(a[1..], b[1..]);
      assert a == [a[0]] + a[1..] && b == [b[0]] + b[1..];
    }
  }

  predicate SortedStrings(s: seq<string>)
  {
    forall i, j :: 0 <= i < j < |s| ==> StrLe(s[i], s[j])
  }

  function InsertString(x: string, s: seq<string>): seq<string>
  {
    if |s| == 0 then [x]
    else if StrLe(x, s[0]) then [x] + s
    else [s[0]] + InsertString(x, s[1..])
  }

  /** Inserting adds exactly `x` to the elements. */
  lemma {:induction false} InsertStringElements(x: string, s: seq<string>)
    ensures multiset(InsertString(x, s)) == multiset(s) + multiset{x}
  {
    if |s| > 0 && !StrLe(x, s[0]) {
      InsertStringElements(x, s[1..]);
      assert s == [s[0]] + s[1..];
    }
  }

  /** A value no greater than any element of a sorted list may go in
      front of it. */
  lemma PrependSorted(x: string, s: seq<string>)
    requires SortedStrings(s)
    requires forall j :: 0 <= j < |s| ==> StrLe(x, s[j])
    ensures SortedStrings([x] + s)
  {
    var r := [x] + s;
    forall i, j | 0 <= i < j < |r|
      ensures StrLe(r[i], r[j])
    {
      if i > 0 { assert r[i] == s[i - 1] && r[j] == s[j - 1]; }
    }
  }

  /** Inserting into a sorted list keeps it sorted. */
  lemma {:induction false} InsertStringSorted(x: string, s: seq<string>)
    requires SortedStrings(s)
    ensures SortedStrings(InsertString(x, s))
  {
    if |s| == 0 {
    } else if StrLe(x, s[0]) {
      forall j | 0 <= j < |s|
        ensures StrLe(x, s[j])
      {
        if j > 0 { StrLeTransitive(x, s[0], s[j]); }
      }
      PrependSorted(x, s);
    } else {
      StrLeTotal(x, s[0]);
      var t := InsertString(x, s[1..]);
      assert SortedStrings(s[1..]);
      InsertStringSorted(x, s[1..]);
      InsertStringElements(x, s[1..]);
      forall j | 0 <= j < |t|
        ensures StrLe(s[0], t[j])
      {
        assert t[j] in multiset(t);
        if t[j] != x {
          assert t[j] in multiset(s[1..]);
          var k :| 0 <= k < |s[1..]| && s[1..][k] == t[j];
          assert s[k + 1] == t[j];
        }
      }
      PrependSorted(s[0], t);
    }
  }

  /** `sort.Strings` / `slices.Sort` on a slice of strings (insertion
      sort); `SortStringsSpec` states what it computes. */
  function SortStrings(s: seq<string>): (r: seq<string>)
    ensures |r| == |s|
  {
    if |s| == 0 then []
    else
      var t := SortStrings(s[1..]);
      InsertStringElements(s[0], t);
      assert |InsertString(s[0], t)| == |multiset(InsertString(s[0], t))|;
      InsertString(s[0], t)
  }

  /** Sorting gives a sorted permutation of its input. */
  lemma {:induction false} SortStringsSpec(s: seq<string>)
    ensures SortedStrings(SortStrings(s))
    ensures multiset(SortStrings(s)) == multiset(s)
  {
    if |s| > 0 {
      var t := SortStrings(s[1..]);
      SortStringsSpec(s[1..]);
      InsertStringSorted(s[0], t);
      InsertStringElements(s[0], t);
      MultisetTail(s);
      assert s[0] in multiset(s);
    }
  }

  lemma SortedStringsHeadLe(s: seq<string>, x: string)
    requires SortedStrings(s) && x in multiset(s)
    ensures StrLe(s[0], x)
  {
    var i :| 0 <= i < |s| && s[i] == x;
    if i == 0 {
      StrLeReflexive(x);
    }
  }

  lemma MultisetTail(s: seq<string>)
    requires |s| > 0
    ensures multiset(s[1..]) == multiset(s) - multiset{s[0]}
  {
    assert s == [s[0]] + s[1..];
  }

  lemma SortedTail(s: seq<string>)
    requires SortedStrings(s) && |s| > 0
    ensures SortedStrings(s[1..])
  {
    forall i, j | 0 <= i < j < |s| - 1
      ensures StrLe(s[1..][i], s[1..][j])
    {
      assert s[1..][i] == s[i + 1] && s[1..][j] == s[j + 1];
    }
  }

  /** Two sorted lists of strings with the same elements are equal, so the
      sorted order of a collection does not depend on the order it was
      listed in. */
  lemma {:induction false} SortedStringsUnique(s: seq<string>, t: seq<string>)
    requires SortedStrings(s) && SortedStrings(t)
    requires multiset(s) == multiset(t)
    ensures s == t
    decreases |s|
  {
    assert |t| == |multiset(t)| == |multiset(s)| == |s|;
    if |s| > 0 {
      assert s[0] in multiset(s) && t[0] in multiset(t);
      SortedStringsHeadLe(t, s[0]);
      SortedStringsHeadLe(s, t[0]);
      StrLeAntisymmetric(s[0], t[0]);
      MultisetTail(s);
      MultisetTail(t);
      SortedTail(s);
      SortedTail(t);
      assert multiset(s[1..]) == multiset(t[1..]);
      SortedStringsUnique(s[1..], t[1..]);
      SameHeadTail(s, t);
    }
  }

  lemma SameHeadTail(s: seq<string>, t: seq<string>)
    requires |s| == |t| > 0 && s[0] == t[0] && s[1..] == t[1..]
    ensures s == t
  {
    forall i | 1 <= i < |s|
      ensures s[i] == t[i]
    {
      assert s[i] == s[1..][i - 1] && t[i] == t[1..][i - 1];
    }
  }
}
