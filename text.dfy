/** The parts of Go's `strings` and `strconv` packages the solvers use:
    `strings.Split` with a one-character separator, `strings.Fields`,
    `strconv.Atoi` and `strconv.Itoa`. Strings are sequences of characters;
    the solvers only ever see ASCII input. */
module Text {
  import opened Wrappers
  import opened GoInt

  predicate IsDigit(c: char)
  {
    '0' <= c <= '9'
  }

  predicate AllDigits(s: string)
  {
    forall i :: 0 <= i < |s| ==> IsDigit(s[i])
  }

  function DigitValue(c: char): nat
    requires IsDigit(c)
  {
    (c - '0') as nat
  }

  function DigitChar(d: nat): char
    requires d < 10
  {
    ('0' as int + d) as char
  }

  /** The value of a run of decimal digits, most significant first. */
  function ParseDigits(s: string): nat
    requires AllDigits(s)
  {
    if |s| == 0 then 0 else 10 * ParseDigits(s[..|s| - 1]) + DigitValue(s[|s| - 1])
  }

  /** Decimal digits of a non-negative integer, without leading zeros. */
  function NatDigits(n: nat): (s: string)
    ensures |s| >= 1 && AllDigits(s)
  {
    if n < 10 then [DigitChar(n)] else NatDigits(n / 10) + [DigitChar(n % 10)]
  }

  /** `strconv.Itoa`. */
  function Itoa(n: int): string
  {
    if n < 0 then "-" + NatDigits(-n) else NatDigits(n)
  }

  /** One or more decimal digits and their value; None otherwise. */
  function Unsigned(s: string): Option<nat>
  {
    if |s| > 0 && AllDigits(s) then Some(ParseDigits(s)) else None
  }

  /** `strconv.Atoi`: an optional sign followed by at least one decimal
      digit; anything else is a syntax error. */
  function Atoi(s: string): Option<int>
  {
    if |s| > 0 && (s[0] == '-' || s[0] == '+') then
      match Unsigned(s[1..])
      case None => None
      case Some(v) => Some(if s[0] == '-' then -(v as int) else v as int)
    else
      match Unsigned(s)
      case None => None
      case Some(v) => Some(v as int)
  }

  /** A one-character string parses as a number exactly when it is a digit. */
  lemma AtoiOneChar(c: char)
    ensures Atoi([c]) == if IsDigit(c) then Some(DigitValue(c) as int) else None
  {
    assert [c][0] == c;
    assert [c][1..] == [];
    if IsDigit(c) {
      assert AllDigits([c]);
      assert [c][..0] == [];
      assert ParseDigits([c]) == 10 * ParseDigits([]) + DigitValue(c);
    } else {
      assert !AllDigits([c]);
    }
  }

  /** A run of digits, not empty, reads as its value with `Atoi`. */
  lemma AtoiDigits(s: string)
    requires |s| > 0 && AllDigits(s)
    ensures Atoi(s) == Some(ParseDigits(s))
  {
    assert IsDigit(s[0]);
  }

  /** `v, _ := strconv.Atoi(s)`: for a string that is not a number Go's
      Atoi returns 0 along with its error, and the solvers that ignore the
      error use that 0. A numeral beyond 64 bits, for which Atoi returns
      the nearest 64-bit value along with its error, reads here as its
      unbounded value. */
  function AtoiOrZero(s: string): int
  {
    match Atoi(s)
    case Some(v) => v
    case None => 0
  }

  /** `util.ParseInt` applied to every string in turn (`StringToIntSlice`),
      or None as soon as one is not a number: the helper exits the program
      then. */
  function AtoiAll(tokens: seq<string>): (r: Option<seq<int>>)
    ensures r.Some? <==> forall k :: 0 <= k < |tokens| ==> Atoi(tokens[k]).Some?
    ensures r.Some? ==> |r.value| == |tokens| &&
                        forall k :: 0 <= k < |tokens| ==> Atoi(tokens[k]) == Some(r.value[k])
  {
    if |tokens| == 0 then Some([])
    else
      match AtoiAll(tokens[..|tokens| - 1])
      case None => None
      case Some(front) =>
        match Atoi(tokens[|tokens| - 1])
        case None => None
        case Some(v) => Some(front + [v])
  }

  /** `strconv.Itoa` of every number. */
  function Numerals(values: seq<int>): (r: seq<string>)
    ensures |r| == |values| && forall k :: 0 <= k < |values| ==> r[k] == Itoa(values[k])
  {
    seq(|values|, k requires 0 <= k < |values| => Itoa(values[k]))
  }

  /** Parsing the printed numbers gives the numbers back. */
  lemma AtoiAllNumerals(values: seq<int>)
    ensures AtoiAll(Numerals(values)) == Some(values)
  {
    forall k | 0 <= k < |values|
      ensures Atoi(Numerals(values)[k]) == Some(values[k])
    {
      AtoiItoa(values[k]);
    }
    var vs := AtoiAll(Numerals(values)).value;
    assert vs == values;
  }

  /** Parsing the printed digits of `n` gives `n` back. */
  lemma {:induction false} ParseNatDigits(n: nat)
    ensures ParseDigits(NatDigits(n)) == n
  {
    if n >= 10 {
      ParseNatDigits(n / 10);
      var s := NatDigits(n);
      assert s[..|s| - 1] == NatDigits(n / 10);
    }
  }

  /** Itoa and Atoi are inverse: every integer round-trips. */
  lemma AtoiItoa(n: int)
    ensures Atoi(Itoa(n)) == Some(n)
  {
    if n < 0 {
      var d := NatDigits(-n);
      UnsignedNatDigits(-n);
      assert Itoa(n)[1..] == d;
    } else {
      var d := NatDigits(n);
      UnsignedNatDigits(n);
      assert IsDigit(d[0]);
    }
  }

  lemma UnsignedNatDigits(n: nat)
    ensures Unsigned(NatDigits(n)) == Some(n)
  {
    ParseNatDigits(n);
  }

  /** Digits of a concatenation: the left part is shifted by the length of
      the right part. */
  lemma {:induction false} ParseDigitsAppend(a: string, b: string)
    requires AllDigits(a) && AllDigits(b)
    ensures AllDigits(a + b)
    ensures ParseDigits(a + b) == ParseDigits(a) * Pow10(|b|) + ParseDigits(b)
    decreases |b|
  {
    var ab := a + b;
    assert AllDigits(ab) by {
      forall i | 0 <= i < |ab|
        ensures IsDigit(ab[i])
      {
        if i < |a| { assert ab[i] == a[i]; } else { assert ab[i] == b[i - |a|]; }
      }
    }
    if |b| == 0 {
      assert ab == a;
    } else {
      var b' := b[..|b| - 1];
      assert AllDigits(b');
      assert ab[..|ab| - 1] == a + b';
      assert ab[|ab| - 1] == b[|b| - 1];
      ParseDigitsAppend(a, b');
      var p, q, d, t := ParseDigits(a), ParseDigits(b'), DigitValue(b[|b| - 1]), Pow10(|b'|);
      assert ParseDigits(ab) == 10 * ParseDigits(a + b') + d;
      assert ParseDigits(a + b') == p * t + q;
      assert Pow10(|b|) == 10 * t;
      ShiftByTen(p, t);
      assert ParseDigits(b) == 10 * q + d;
    }
  }

  lemma ShiftByTen(p: int, t: int)
    ensures 10 * (p * t) == p * (10 * t)
  {
  }

  /** A run of k digits denotes a value below 10^k. */
  lemma {:induction false} ParseDigitsBound(s: string)
    requires AllDigits(s)
    ensures ParseDigits(s) < Pow10(|s|)
    decreases |s|
  {
    if |s| > 0 {
      ParseDigitsBound(s[..|s| - 1]);
    }
  }

  /** A number printed with k digits is at least 10^(k-1): Itoa writes no
      leading zeros. */
  lemma {:induction false} NatDigitsBounds(n: nat)
    ensures Pow10(|NatDigits(n)| - 1) <= n || n == 0
    ensures n < Pow10(|NatDigits(n)|)
  {
    ParseNatDigits(n);
    ParseDigitsBound(NatDigits(n));
    if n >= 10 {
      NatDigitsBounds(n / 10);
    }
  }

  // ---------------------------------------------------------------------
  // strings.Split and strings.Fields

  /** `strings.Split(s, string(sep))`: the pieces between separators, with
      an empty piece wherever two separators touch or at either end. */
  function Split(s: string, sep: char): (parts: seq<string>)
    ensures |parts| >= 1
  {
    if |s| == 0 then [""]
    else
      var rest := Split(s[1..], sep);
      if s[0] == sep then [""] + rest
      else [[s[0]] + rest[0]] + rest[1..]
  }

  /** `strings.Join(parts, string(sep))`. */
  function Join(parts: seq<string>, sep: char): string
  {
    if |parts| == 0 then ""
    else if |parts| == 1 then parts[0]
    else parts[0] + [sep] + Join(parts[1..], sep)
  }

  /** Split pieces never contain the separator, and joining them with the
      separator gives back the original string. */
  lemma {:induction false} SplitJoin(s: string, sep: char)
    ensures Join(Split(s, sep), sep) == s
    ensures forall p :: p in Split(s, sep) ==> sep !in p
    decreases |s|
  {
    if |s| > 0 {
      SplitJoin(s[1..], sep);
      var rest := Split(s[1..], sep);
      if s[0] == sep {
        assert ([""] + rest)[1..] == rest;
      } else {
        var parts := Split(s, sep);
        assert parts[0] == [s[0]] + rest[0];
        if |rest| == 1 {
          assert parts == [[s[0]] + rest[0]];
        } else {
          assert parts[1..] == rest[1..];
          assert Join(rest, sep) == rest[0] + [sep] + Join(rest[1..], sep);
        }
        assert s == [s[0]] + s[1..];
      }
    }
  }

  /** A string without the separator splits into itself alone. */
  lemma {:induction false} SplitNoSep(s: string, sep: char)
    requires sep !in s
    ensures Split(s, sep) == [s]
    decreases |s|
  {
    if |s| > 0 {
      SplitNoSep(s[1..], sep);
      assert s == [s[0]] + s[1..];
    }
  }

  /** A separator right after a separator-free prefix splits that prefix
      off. */
  lemma {:induction false} SplitAfter(x: string, sep: char, t: string)
    requires sep !in x
    ensures Split(x + [sep] + t, sep) == [x] + Split(t, sep)
    decreases |x|
  {
    var s := x + [sep] + t;
    if |x| == 0 {
      assert s[0] == sep && s[1..] == t;
    } else {
      assert s[0] == x[0] && s[1..] == x[1..] + [sep] + t;
      SplitAfter(x[1..], sep, t);
      assert x == [x[0]] + x[1..];
    }
  }

  /** Splitting undoes joining when no piece holds the separator. */
  lemma {:induction false} JoinSplit(parts: seq<string>, sep: char)
    requires |parts| >= 1 && forall p :: p in parts ==> sep !in p
    ensures Split(Join(parts, sep), sep) == parts
    decreases |parts|
  {
    if |parts| == 1 {
      SplitNoSep(parts[0], sep);
    } else {
      assert forall p :: p in parts[1..] ==> p in parts;
      JoinSplit(parts[1..], sep);
      SplitAfter(parts[0], sep, Join(parts[1..], sep));
      assert parts == [parts[0]] + parts[1..];
    }
  }

  /** Itoa writes only digits and an optional leading minus sign. */
  lemma ItoaChars(n: int)
    ensures forall c :: c in Itoa(n) ==> IsDigit(c) || c == '-'
  {
    if n < 0 {
      assert AllDigits(NatDigits(-n));
      assert forall c :: c in Itoa(n) ==> c == '-' || c in NatDigits(-n);
    } else {
      assert AllDigits(NatDigits(n));
    }
  }

  /** Go's `unicode.IsSpace`, which `strings.Fields` splits on: the ASCII
      spaces tab, line feed, vertical tab, form feed, carriage return and
      space, then U+0085 and U+00A0, and beyond Latin-1 the rest of
      Unicode's White_Space property (U+1680, U+2000 to U+200A, U+2028,
      U+2029, U+202F, U+205F and U+3000). */
  predicate IsSpace(c: char)
  {
    c == ' ' || c == '\t' || c == '\n' || c == '\r' || c == '\U{000B}' || c == '\U{000C}' ||
    c == '\U{0085}' || c == '\U{00A0}' || c == '\U{1680}' ||
    ('\U{2000}' <= c <= '\U{200A}') || c == '\U{2028}' || c == '\U{2029}' ||
    c == '\U{202F}' || c == '\U{205F}' || c == '\U{3000}'
  }

  /** The no-break space between two numerals separates them, as it does
      for `strings.Fields`. */
  lemma NoBreakSpaceSplits()
    ensures Fields("3\U{00A0}4") == ["3", "4"]
  {
    var line := "3\U{00A0}4";
    assert !IsSpace(line[0]) && IsSpace(line[1]);
    assert WordLength(line[1..]) == 0;
    assert WordLength(line) == 1;
    assert line[..1] == "3" && line[1..] == "\U{00A0}4" && line[2..] == "4";
    assert WordLength("4") == 1 && "4"[..1] == "4" && "4"[1..] == "";
    assert Fields("4") == ["4"];
    assert Fields(line[1..]) == Fields(line[2..]);
  }

  /** Length of the leading run of non-space characters. */
  function WordLength(s: string): (k: nat)
    ensures k <= |s|
    ensures forall i :: 0 <= i < k ==> !IsSpace(s[i])
    ensures k == |s| || IsSpace(s[k])
  {
    if |s| == 0 || IsSpace(s[0]) then 0 else 1 + WordLength(s[1..])
  }

  /** `strings.Fields`: the maximal runs of non-space characters. */
  function Fields(s: string): (words: seq<string>)
    decreases |s|
  {
    if |s| == 0 then []
    else if IsSpace(s[0]) then Fields(s[1..])
    else
      var k := WordLength(s);
      [s[..k]] + Fields(s[k..])
  }

  /** Concatenation of a list of strings. */
  function Concat(words: seq<string>): string
  {
    if |words| == 0 then "" else words[0] + Concat(words[1..])
  }

  /** `s` with its white space removed. */
  function NonSpace(s: string): string
  {
    if |s| == 0 then ""
    else if IsSpace(s[0]) then NonSpace(s[1..])
    else [s[0]] + NonSpace(s[1..])
  }

  lemma {:induction false} NonSpaceOfWord(s: string, k: nat)
    requires k <= |s|
    requires forall i :: 0 <= i < k ==> !IsSpace(s[i])
    ensures NonSpace(s) == s[..k] + NonSpace(s[k..])
    decreases k
  {
    if k > 0 {
      NonSpaceOfWord(s[1..], k - 1);
      assert s[1..][k - 1..] == s[k..];
      assert s[..k] == [s[0]] + s[1..][..k - 1];
    }
  }

  /** Fields are non-empty, free of white space, and together hold every
      non-space character of the input in order. */
  lemma {:induction false} FieldsSpec(s: string)
    ensures forall w :: w in Fields(s) ==> |w| > 0 && forall i :: 0 <= i < |w| ==> !IsSpace(w[i])
    ensures Concat(Fields(s)) == NonSpace(s)
    decreases |s|
  {
    if |s| > 0 {
      if IsSpace(s[0]) {
        FieldsSpec(s[1..]);
      } else {
        var k := WordLength(s);
        FieldsSpec(s[k..]);
        NonSpaceOfWord(s, k);
        assert ([s[..k]] + Fields(s[k..]))[1..] == Fields(s[k..]);
      }
    }
  }

  lemma {:induction false} WordLengthOf(w: string, rest: string)
    requires forall i :: 0 <= i < |w| ==> !IsSpace(w[i])
    requires rest == "" || IsSpace(rest[0])
    ensures WordLength(w + rest) == |w|
  {
    if |w| > 0 {
      assert (w + rest)[0] == w[0];
      assert (w + rest)[1..] == w[1..] + rest;
      WordLengthOf(w[1..], rest);
    } else {
      assert w + rest == rest;
    }
  }

  /** A word with no white space, followed by nothing or by white space,
      is the first field. */
  lemma FieldsWord(w: string, rest: string)
    requires |w| > 0 && forall i :: 0 <= i < |w| ==> !IsSpace(w[i])
    requires rest == "" || IsSpace(rest[0])
    ensures Fields(w + rest) == [w] + Fields(rest)
  {
    var s := w + rest;
    WordLengthOf(w, rest);
    assert !IsSpace(s[0]);
    assert s[..|w|] == w && s[|w|..] == rest;
  }

  /** Words with no white space, joined by single spaces, split back into
      the same words. */
  lemma {:induction false} FieldsJoin(words: seq<string>)
    requires forall k :: 0 <= k < |words| ==> |words[k]| > 0 && forall i :: 0 <= i < |words[k]| ==> !IsSpace(words[k][i])
    ensures Fields(Join(words, ' ')) == words
  {
    if |words| == 1 {
      FieldsWord(words[0], "");
      assert words[0] + "" == words[0];
    } else if |words| > 1 {
      var tail := Join(words[1..], ' ');
      FieldsJoin(words[1..]);
      FieldsWord(words[0], [' '] + tail);
      assert words[0] + [' '] + tail == words[0] + ([' '] + tail);
      assert ([' '] + tail)[1..] == tail;
      assert words == [words[0]] + words[1..];
    }
  }

  // ---------------------------------------------------------------------
  // regexp `-?\d+`

  /** Length of the leading run of decimal digits. */
  function DigitRun(s: string): (k: nat)
    ensures k <= |s|
    ensures forall i :: 0 <= i < k ==> IsDigit(s[i])
    ensures k == |s| || !IsDigit(s[k])
  {
    if |s| == 0 || !IsDigit(s[0]) then 0 else 1 + DigitRun(s[1..])
  }

  /** Length of the match of `-?\d+` that starts `s`: a minus sign is
      taken only when a digit follows; 0 when no match starts here. */
  function MatchLength(s: string): (k: nat)
    ensures k <= |s|
  {
    if |s| > 0 && IsDigit(s[0]) then DigitRun(s)
    else if |s| > 1 && s[0] == '-' && IsDigit(s[1]) then 1 + DigitRun(s[1..])
    else 0
  }

  /** `FindAllString(s, -1)` of the pattern `-?\d+`: the leftmost match,
      then the matches of what follows it. */
  function SignedNumerals(s: string): seq<string>
    decreases |s|
  {
    if |s| == 0 then []
    else
      var k := MatchLength(s);
      if k == 0 then SignedNumerals(s[1..]) else [s[..k]] + SignedNumerals(s[k..])
  }

  /** Every match reads as a number with `strconv.Atoi`. */
  lemma {:induction false} SignedNumeralsParse(s: string)
    ensures forall m :: m in SignedNumerals(s) ==> Atoi(m).Some?
    decreases |s|
  {
    if |s| > 0 {
      var k := MatchLength(s);
      if k == 0 {
        SignedNumeralsParse(s[1..]);
      } else {
        SignedNumeralsParse(s[k..]);
        var m := s[..k];
        if IsDigit(s[0]) {
          assert Unsigned(m).Some?;
        } else {
          assert m[1..] == s[1..][..k - 1];
          assert Unsigned(m[1..]).Some?;
        }
      }
    }
  }

  lemma {:induction false} DigitRunOf(d: string, rest: string)
    requires AllDigits(d)
    requires rest == "" || !IsDigit(rest[0])
    ensures DigitRun(d + rest) == |d|
  {
    if |d| > 0 {
      assert (d + rest)[1..] == d[1..] + rest;
      DigitRunOf(d[1..], rest);
    } else {
      assert d + rest == rest;
    }
  }

  /** A printed number followed by a non-digit is the next match. */
  lemma SignedNumeralsItoa(v: int, rest: string)
    requires rest == "" || !IsDigit(rest[0])
    ensures SignedNumerals(Itoa(v) + rest) == [Itoa(v)] + SignedNumerals(rest)
  {
    var s := Itoa(v) + rest;
    var k := |Itoa(v)|;
    MatchLengthItoa(v, rest);
    assert s[..k] == Itoa(v) && s[k..] == rest;
  }

  /** The match that starts a printed number is the whole number. */
  lemma MatchLengthItoa(v: int, rest: string)
    requires rest == "" || !IsDigit(rest[0])
    ensures MatchLength(Itoa(v) + rest) == |Itoa(v)|
  {
    var s := Itoa(v) + rest;
    if v < 0 {
      var d := NatDigits(-v);
      assert s[1..] == d + rest;
      DigitRunOf(d, rest);
      assert IsDigit(s[1]) && !IsDigit(s[0]);
    } else {
      DigitRunOf(Itoa(v), rest);
      assert IsDigit(s[0]);
    }
  }

  /** Characters that are neither digits nor minus signs match nothing. */
  lemma {:induction false} SignedNumeralsSkip(p: string, rest: string)
    requires forall i :: 0 <= i < |p| ==> !IsDigit(p[i]) && p[i] != '-'
    ensures SignedNumerals(p + rest) == SignedNumerals(rest)
  {
    if |p| > 0 {
      assert (p + rest)[1..] == p[1..] + rest;
      SignedNumeralsSkip(p[1..], rest);
    } else {
      assert p + rest == rest;
    }
  }
}
