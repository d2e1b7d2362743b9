/** Day 23: a network of computers given as links `a-b`. Part 1 counts the
    triangles of mutually linked computers that hold a computer whose name
    starts with `t`; part 2 grows a clique greedily from every computer and
    prints the largest one's names, sorted and joined with commas. */
module Day23 {
  import opened Wrappers
  import opened Text
  import opened Sorting
  import HashSetUtil

  /** `map[string][]string`: each computer's links in the order they were
      read. */
  type Graph = map<string, seq<string>>

  /** `graph[k]`, which is an empty slice for a missing key. */
  function Lookup(g: Graph, k: string): seq<string>
  {
    if k in g then g[k] else []
  }

  // ---------------------------------------------------------------------
  // makeGraph

  /** The two computers of a line: the first two pieces between dashes;
      None when the line has no dash (Go indexes past the pieces and
      panics). */
  function Ends(line: string): Option<(string, string)>
  {
    var computers := Split(line, '-');
    if |computers| < 2 then None else Some((computers[0], computers[1]))
  }

  /** One line's two appends: b to a's links, then a to b's. */
  function Connect(g: Graph, a: string, b: string): Graph
  {
    var g1 := g[a := Lookup(g, a) + [b]];
    g1[b := Lookup(g1, b) + [a]]
  }

  function GraphOf(input: seq<string>): Option<Graph>
  {
    if |input| == 0 then Some(map[])
    else
      var front := GraphOf(input[..|input| - 1]);
      var ends := Ends(input[|input| - 1]);
      if front.Some? && ends.Some? then Some(Connect(front.value, ends.value.0, ends.value.1)) else None
  }

  /** `makeGraph`. */
  method MakeGraph(input: seq<string>) returns (graph: Option<Graph>)
    ensures graph == GraphOf(input)
  {
    var g: Graph := map[];
    for k := 0 to |input|
      invariant GraphOf(input[..k]) == Some(g)
    {
      assert input[..k + 1][..k] == input[..k] && input[..k + 1][k] == input[k];
      var computers := Split(input[k], '-');
      if |computers| < 2 {
        GraphStops(input, k + 1);
        return None;
      }
      var computerOne := computers[0];
      var computerTwo := computers[1];
      g := g[computerOne := Lookup(g, computerOne) + [computerTwo]];
      g := g[computerTwo := Lookup(g, computerTwo) + [computerOne]];
    }
    assert input[..|input|] == input;
    return Some(g);
  }

  /** A line without a dash stops the program, whatever follows. */
  lemma {:induction false} GraphStops(input: seq<string>, n: nat)
    requires n <= |input| && GraphOf(input[..n]).None?
    ensures GraphOf(input).None?
    decreases |input| - n
  {
    if n < |input| {
      assert input[..n + 1][..n] == input[..n];
      GraphStops(input, n + 1);
    } else {
      assert input[..n] == input;
    }
  }

  /** How many lines link a to b, written in that order. */
  function Occurrences(input: seq<string>, a: string, b: string): nat
  {
    if |input| == 0 then 0
    else Occurrences(input[..|input| - 1], a, b) + (if Ends(input[|input| - 1]) == Some((a, b)) then 1 else 0)
  }

  /** A line adds b to a's links once for each way round it names them. */
  lemma ConnectCounts(g: Graph, x: string, y: string, a: string, b: string)
    ensures multiset(Lookup(Connect(g, x, y), a))[b] ==
            multiset(Lookup(g, a))[b] + (if a == x && b == y then 1 else 0) + (if a == y && b == x then 1 else 0)
  {
    var g1 := g[x := Lookup(g, x) + [y]];
    assert multiset(Lookup(g1, a))[b] == multiset(Lookup(g, a))[b] + (if a == x && b == y then 1 else 0);
  }

  /** b appears among a's links once for every line `a-b` and once for
      every line `b-a`. */
  lemma {:induction false} GraphCounts(input: seq<string>, a: string, b: string)
    requires GraphOf(input).Some?
    ensures multiset(Lookup(GraphOf(input).value, a))[b] == Occurrences(input, a, b) + Occurrences(input, b, a)
  {
    if |input| > 0 {
      var n := |input| - 1;
      GraphCounts(input[..n], a, b);
      var (x, y) := Ends(input[n]).value;
      ConnectCounts(GraphOf(input[..n]).value, x, y, a, b);
    }
  }

  /** The graph is symmetric: b is linked from a exactly as often as a from
      b, so b is among a's links exactly when a is among b's. */
  lemma GraphSymmetric(input: seq<string>, a: string, b: string)
    requires GraphOf(input).Some?
    ensures multiset(Lookup(GraphOf(input).value, a))[b] == multiset(Lookup(GraphOf(input).value, b))[a]
    ensures b in Lookup(GraphOf(input).value, a) <==> a in Lookup(GraphOf(input).value, b)
  {
    GraphCounts(input, a, b);
    GraphCounts(input, b, a);
  }

  // ---------------------------------------------------------------------
  // triangleKey

  /** A triangle's key: its names sorted and joined with commas. */
  function Key(t: seq<string>): string
  {
    Join(SortStrings(t), ',')
  }

  /** `triangleKey`: sorts its argument in place (`slices.Sort`) and joins
      it with commas. */
  method TriangleKey(key: array<string>) returns (joined: string)
    modifies key
    ensures key[..] == SortStrings(old(key[..]))
    ensures joined == Key(old(key[..]))
  {
    var sorted := SortStrings(key[..]);
    for i := 0 to key.Length
      invariant key[..i] == sorted[..i]
      invariant forall j :: i <= j < key.Length ==> key[j] == old(key[j])
    {
      key[i] := sorted[i];
    }
    assert key[..] == sorted[..key.Length];
    joined := Join(key[..], ',');
  }

  /** Any order of the same names gives the same key. */
  lemma KeyPermutation(a: seq<string>, b: seq<string>)
    requires multiset(a) == multiset(b)
    ensures Key(a) == Key(b)
  {
    SortStringsSpec(a);
    SortStringsSpec(b);
    SortedStringsUnique(SortStrings(a), SortStrings(b));
  }

  /** Names without commas: a key names its triangle's computers, so equal
      keys mean the same names. */
  lemma KeyNames(a: seq<string>, b: seq<string>)
    requires |a| >= 1 && |b| >= 1
    requires forall s :: s in a ==> ',' !in s
    requires forall s :: s in b ==> ',' !in s
    requires Key(a) == Key(b)
    ensures multiset(a) == multiset(b)
  {
    var sa, sb := SortStrings(a), SortStrings(b);
    SortStringsSpec(a);
    SortStringsSpec(b);
    forall s | s in sa ensures ',' !in s {
      assert s in multiset(sa);
    }
    forall s | s in sb ensures ',' !in s {
      assert s in multiset(sb);
    }
    JoinSplit(sa, ',');
    JoinSplit(sb, ',');
  }

  // ---------------------------------------------------------------------
  // part1: the triangles

  /** `slices.Contains(graph[a], b)`: b is among a's links (a computer with
      no entry has none). */
  predicate Linked(g: Graph, a: string, b: string)
  {
    a in g && b in g[a]
  }

  /** The innermost test of `part1`: `neighbor` and `n` are both linked
      from `computer`, differ, and `n` is linked from `neighbor`. */
  predicate Found(g: Graph, computer: string, neighbor: string, n: string)
  {
    Linked(g, computer, neighbor) && Linked(g, computer, n) && n != neighbor && Linked(g, neighbor, n)
  }

  /** Every triangle the loops find, in the order they find its names. */
  function Triangles(g: Graph): set<seq<string>>
  {
    set c, nb, n | c in g && nb in g[c] && n in g[c] && Found(g, c, nb, n) :: [c, nb, n]
  }

  /** The keys of every triangle the loops find. */
  function TriangleKeys(g: Graph): set<string>
  {
    KeySet(Triangles(g))
  }

  /** One entry of the triangle map: three names the loops found, in the
      order they found them, under their key. */
  predicate StoredAt(g: Graph, k: string, t: seq<string>)
  {
    |t| == 3 && Found(g, t[0], t[1], t[2]) && Key(t) == k
  }

  predicate Stored(g: Graph, triangles: map<string, seq<string>>)
  {
    forall k :: k in triangles ==> StoredAt(g, k, triangles[k])
  }

  /** The keys of a set of triangles. */
  function KeySet(ts: set<seq<string>>): set<string>
  {
    set t | t in ts :: Key(t)
  }

  lemma UnionAssoc<T>(a: set<T>, b: set<T>, c: set<T>)
    ensures a + b + c == a + (b + c)
  {
  }

  lemma UnionSubset<T>(a: set<T>, b: set<T>, c: set<T>)
    requires a <= c && b <= c
    ensures a + b <= c
  {
  }

  lemma KeySetUnion(a: set<seq<string>>, b: set<seq<string>>)
    ensures KeySet(a + b) == KeySet(a) + KeySet(b)
  {
  }

  /** `triangleKey([]string{...})`: the key of a fresh slice holding the
      names. */
  method KeyOf(t: seq<string>) returns (k: string)
    ensures k == Key(t)
  {
    var key := new string[|t|](i requires 0 <= i < |t| => t[i]);
    assert key[..] == t;
    k := TriangleKey(key);
  }

  lemma StoreKeeps(g: Graph, triangles: map<string, seq<string>>, k: string, t: seq<string>)
    requires Stored(g, triangles) && StoredAt(g, k, t)
    ensures Stored(g, triangles[k := t])
  {
  }

  /** `triangles[triangleKey(...)] = []string{computer, neighbor, n}`. */
  method Store(g: Graph, triangles: map<string, seq<string>>, computer: string, neighbor: string, n: string)
    returns (result: map<string, seq<string>>)
    requires Found(g, computer, neighbor, n) && Stored(g, triangles)
    ensures Stored(g, result) && result.Keys == triangles.Keys + KeySet({[computer, neighbor, n]})
  {
    var t := [computer, neighbor, n];
    var k := KeyOf(t);
    StoreKeeps(g, triangles, k, t);
    result := triangles[k := t];
    assert KeySet({t}) == {k};
  }

  /** The triangles the innermost loop finds for `computer` and `neighbor`
      in the first `j` third names `ns`. */
  function Thirds(g: Graph, computer: string, neighbor: string, ns: seq<string>, j: nat): set<seq<string>>
    requires j <= |ns|
  {
    if j == 0 then {}
    else Thirds(g, computer, neighbor, ns, j - 1) + (if Found(g, computer, neighbor, ns[j - 1]) then {[computer, neighbor, ns[j - 1]]} else {})
  }

  /** The triangles the middle loop finds for `computer` in its first `j`
      neighbours. */
  function Neighbours(g: Graph, computer: string, j: nat): set<seq<string>>
    requires j <= |Lookup(g, computer)|
  {
    if j == 0 then {}
    else
      var links := Lookup(g, computer);
      Neighbours(g, computer, j - 1) + Thirds(g, computer, links[j - 1], links, |links|)
  }

  /** The triangles the outer loop finds at the first `i` computers of
      `cs`. */
  function AllTriangles(g: Graph, cs: seq<string>, i: nat): set<seq<string>>
    requires i <= |cs|
  {
    if i == 0 then {}
    else AllTriangles(g, cs, i - 1) + Neighbours(g, cs[i - 1], |Lookup(g, cs[i - 1])|)
  }

  /** The innermost loop of `part1`, over the links of `computer` for one
      neighbour. */
  method AddThirds(g: Graph, triangles: map<string, seq<string>>, computer: string, neighbor: string)
    returns (result: map<string, seq<string>>)
    requires Linked(g, computer, neighbor) && Stored(g, triangles)
    ensures Stored(g, result) && result.Keys == triangles.Keys + KeySet(Thirds(g, computer, neighbor, g[computer], |g[computer]|))
  {
    result := triangles;
    var links := g[computer];
    for j := 0 to |links|
      invariant Stored(g, result) && result.Keys == triangles.Keys + KeySet(Thirds(g, computer, neighbor, links, j))
    {
      ghost var found := if Found(g, computer, neighbor, links[j]) then {[computer, neighbor, links[j]]} else {};
      assert Thirds(g, computer, neighbor, links, j + 1) == Thirds(g, computer, neighbor, links, j) + found;
      result := AddThird(g, result, computer, neighbor, links[j]);
      KeySetUnion(Thirds(g, computer, neighbor, links, j), found);
      UnionAssoc(triangles.Keys, KeySet(Thirds(g, computer, neighbor, links, j)), KeySet(found));
    }
  }

  /** The body of the innermost loop: stores the triangle when the test
      passes. */
  method AddThird(g: Graph, triangles: map<string, seq<string>>, computer: string, neighbor: string, n: string)
    returns (result: map<string, seq<string>>)
    requires Linked(g, computer, neighbor) && Linked(g, computer, n) && Stored(g, triangles)
    ensures Stored(g, result)
    ensures result.Keys == triangles.Keys + KeySet(if Found(g, computer, neighbor, n) then {[computer, neighbor, n]} else {})
  {
    result := triangles;
    if n != neighbor && n in Lookup(g, neighbor) {
      result := Store(g, result, computer, neighbor, n);
    }
  }

  /** The middle loop of `part1`, over the neighbours of `computer`. */
  method AddNeighbours(g: Graph, triangles: map<string, seq<string>>, computer: string)
    returns (result: map<string, seq<string>>)
    requires computer in g && Stored(g, triangles)
    ensures Stored(g, result) && result.Keys == triangles.Keys + KeySet(Neighbours(g, computer, |g[computer]|))
  {
    result := triangles;
    var neighbors := g[computer];
    for j := 0 to |neighbors|
      invariant Stored(g, result) && result.Keys == triangles.Keys + KeySet(Neighbours(g, computer, j))
    {
      ghost var found := Thirds(g, computer, neighbors[j], neighbors, |neighbors|);
      assert Neighbours(g, computer, j + 1) == Neighbours(g, computer, j) + found;
      result := AddThirds(g, result, computer, neighbors[j]);
      KeySetUnion(Neighbours(g, computer, j), found);
      UnionAssoc(triangles.Keys, KeySet(Neighbours(g, computer, j)), KeySet(found));
    }
  }

  /** The outer loop of `part1`, over the computers in the order Go's map
      iteration gives: the triangles found, each under its key. */
  method FindTriangles(g: Graph) returns (triangles: map<string, seq<string>>)
    ensures Stored(g, triangles) && triangles.Keys == TriangleKeys(g)
  {
    triangles := map[];
    var computers := HashSetUtil.Elements(g.Keys);
    for i := 0 to |computers|
      invariant Stored(g, triangles) && triangles.Keys == KeySet(AllTriangles(g, computers, i))
    {
      ghost var found := Neighbours(g, computers[i], |g[computers[i]]|);
      assert AllTriangles(g, computers, i + 1) == AllTriangles(g, computers, i) + found;
      triangles := AddNeighbours(g, triangles, computers[i]);
      KeySetUnion(AllTriangles(g, computers, i), found);
    }
    AllTrianglesSpec(g, computers);
  }

  /** Every triangle the innermost loop finds passes the test, and every
      one that passes with a third name it visits is found. */
  lemma {:induction false} ThirdsSpec(g: Graph, computer: string, neighbor: string, ns: seq<string>, j: nat)
    requires j <= |ns|
    ensures Thirds(g, computer, neighbor, ns, j) <= Triangles(g)
    ensures forall i :: 0 <= i < j && Found(g, computer, neighbor, ns[i]) ==> [computer, neighbor, ns[i]] in Thirds(g, computer, neighbor, ns, j)
  {
    if j > 0 {
      ThirdsSpec(g, computer, neighbor, ns, j - 1);
    }
  }

  /** The same for the middle loop. */
  lemma {:induction false} NeighboursSpec(g: Graph, computer: string, j: nat)
    requires j <= |Lookup(g, computer)|
    ensures Neighbours(g, computer, j) <= Triangles(g)
    ensures forall i, n :: 0 <= i < j && Found(g, computer, Lookup(g, computer)[i], n) ==>
              [computer, Lookup(g, computer)[i], n] in Neighbours(g, computer, j)
  {
    if j > 0 {
      var links := Lookup(g, computer);
      var found := Thirds(g, computer, links[j - 1], links, |links|);
      NeighboursSpec(g, computer, j - 1);
      ThirdsSpec(g, computer, links[j - 1], links, |links|);
      assert Neighbours(g, computer, j) == Neighbours(g, computer, j - 1) + found;
      UnionSubset(Neighbours(g, computer, j - 1), found, Triangles(g));
      forall i, n | 0 <= i < j && Found(g, computer, links[i], n)
        ensures [computer, links[i], n] in Neighbours(g, computer, j)
      {
        if i == j - 1 {
          var k :| 0 <= k < |links| && links[k] == n;
          assert [computer, links[i], links[k]] in found;
        } else {
          assert [computer, links[i], n] in Neighbours(g, computer, j - 1);
        }
      }
    }
  }

  /** The same for the outer loop. */
  lemma {:induction false} AllTrianglesFound(g: Graph, cs: seq<string>, i: nat)
    requires i <= |cs|
    ensures AllTriangles(g, cs, i) <= Triangles(g)
    ensures forall j, nb, n :: 0 <= j < i && Found(g, cs[j], nb, n) ==> [cs[j], nb, n] in AllTriangles(g, cs, i)
  {
    if i > 0 {
      var c := cs[i - 1];
      AllTrianglesFound(g, cs, i - 1);
      NeighboursSpec(g, c, |Lookup(g, c)|);
      forall nb, n | Found(g, c, nb, n)
        ensures [c, nb, n] in Neighbours(g, c, |Lookup(g, c)|)
      {
        var k :| 0 <= k < |g[c]| && g[c][k] == nb;
      }
    }
  }

  /** Run over every computer of the graph, the loops find exactly its
      triangles. */
  lemma AllTrianglesSpec(g: Graph, cs: seq<string>)
    requires forall c :: c in cs <==> c in g
    ensures AllTriangles(g, cs, |cs|) == Triangles(g)
  {
    AllTrianglesFound(g, cs, |cs|);
    forall t | t in Triangles(g)
      ensures t in AllTriangles(g, cs, |cs|)
    {
      var c, nb, n :| c in g && nb in g[c] && n in g[c] && Found(g, c, nb, n) && t == [c, nb, n];
      var j :| 0 <= j < |cs| && cs[j] == c;
    }
  }

  // ---------------------------------------------------------------------
  // part1: the count

  predicate StartsWithT(name: string)
  {
    |name| > 0 && name[0] == 't'
  }

  /** The scan of one triangle's names: true at the first name starting
      with `t`; None when an empty name is reached first (`computer[0]`
      panics). */
  function Scan(t: seq<string>): Option<bool>
  {
    if |t| == 0 then Some(false)
    else if |t[0]| == 0 then None
    else if t[0][0] == 't' then Some(true)
    else Scan(t[1..])
  }

  /** With no empty name, the scan finds a `t` exactly when some name
      starts with one; it panics only on an empty name. */
  lemma {:induction false} ScanMeaning(t: seq<string>)
    ensures Scan(t).None? ==> exists i :: 0 <= i < |t| && |t[i]| == 0
    ensures (forall i :: 0 <= i < |t| ==> |t[i]| > 0) ==>
              Scan(t) == Some(exists i :: 0 <= i < |t| && StartsWithT(t[i]))
  {
    if |t| > 0 && |t[0]| > 0 && t[0][0] != 't' {
      ScanMeaning(t[1..]);
      assert forall i :: 1 <= i < |t| ==> t[1..][i - 1] == t[i];
      if Scan(t).None? {
        var i :| 0 <= i < |t[1..]| && |t[1..][i]| == 0;
        assert |t[i + 1]| == 0;
      }
    }
  }

  /** `for _, computer := range t`, with its `break`. */
  method ScanTriangle(t: seq<string>) returns (hit: Option<bool>)
    ensures hit == Scan(t)
  {
    for i := 0 to |t|
      invariant Scan(t) == Scan(t[i..])
    {
      assert t[i..][1..] == t[i + 1..];
      if |t[i]| == 0 {
        return None;
      }
      if t[i][0] == 't' {
        return Some(true);
      }
    }
    return Some(false);
  }

  /** The keys among `keys` of the stored triangles that hold a `t` name. */
  function WithT(triangles: map<string, seq<string>>, keys: set<string>): set<string>
  {
    set k | k in keys && k in triangles && Scan(triangles[k]) == Some(true)
  }

  /** Visiting one more triangle adds its key exactly when its scan hits. */
  lemma WithTAdd(triangles: map<string, seq<string>>, seen: set<string>, k: string)
    requires k in triangles && k !in seen
    ensures |WithT(triangles, seen + {k})| == |WithT(triangles, seen)| + (if Scan(triangles[k]) == Some(true) then 1 else 0)
  {
    if Scan(triangles[k]) == Some(true) {
      assert WithT(triangles, seen + {k}) == WithT(triangles, seen) + {k};
    } else {
      assert WithT(triangles, seen + {k}) == WithT(triangles, seen);
    }
  }

  /** The counting loop of `part1`, over the triangles in map order. */
  method CountWithT(triangles: map<string, seq<string>>) returns (count: Option<nat>)
    ensures count.None? <==> exists k :: k in triangles && Scan(triangles[k]).None?
    ensures count.Some? ==> count.value == |WithT(triangles, triangles.Keys)|
  {
    var keys := HashSetUtil.Elements(triangles.Keys);
    var total := 0;
    ghost var seen: set<string> := {};
    for i := 0 to |keys|
      invariant forall k :: k in seen <==> k in keys[..i]
      invariant forall k :: k in seen ==> k in triangles && Scan(triangles[k]).Some?
      invariant total == |WithT(triangles, seen)|
    {
      var hit := ScanTriangle(triangles[keys[i]]);
      if hit.None? {
        return None;
      }
      assert keys[i] !in keys[..i];
      WithTAdd(triangles, seen, keys[i]);
      if hit.value {
        total := total + 1;
      }
      seen := seen + {keys[i]};
      assert keys[..i + 1] == keys[..i] + [keys[i]];
    }
    assert keys[..|keys|] == keys;
    assert seen == triangles.Keys;
    return Some(total);
  }

  /** Every name in the graph, as a key or a link, is non-empty and free of
      commas. */
  predicate Plain(g: Graph)
  {
    forall c :: c in g ==> PlainName(c) && forall j :: 0 <= j < |g[c]| ==> PlainName(g[c][j])
  }

  predicate PlainName(s: string)
  {
    |s| > 0 && ',' !in s
  }

  /** In a plain graph every linked name is plain. */
  lemma LinkedPlain(g: Graph, a: string, b: string)
    requires Plain(g) && Linked(g, a, b)
    ensures PlainName(a) && PlainName(b)
  {
    var i :| 0 <= i < |g[a]| && g[a][i] == b;
  }

  /** A found triangle's names come from the graph, so in a plain graph
      they are plain. */
  lemma FoundPlain(g: Graph, t: seq<string>)
    requires |t| == 3 && Found(g, t[0], t[1], t[2])
    ensures Plain(g) ==> forall i :: 0 <= i < 3 ==> PlainName(t[i])
    ensures (exists i :: 0 <= i < 3 && |t[i]| == 0) ==> !Plain(g)
  {
    if Plain(g) {
      LinkedPlain(g, t[0], t[1]);
      LinkedPlain(g, t[0], t[2]);
    }
  }

  /** The keys of the triangles that hold a name starting with `t`. */
  function TKeys(g: Graph): set<string>
  {
    set c, nb, n | c in g && nb in g[c] && n in g[c] && Found(g, c, nb, n) &&
                   (StartsWithT(c) || StartsWithT(nb) || StartsWithT(n)) :: Key([c, nb, n])
  }

  /** A stored triangle of a plain graph is counted exactly when its key
      is that of a found triangle with a `t` name. */
  lemma WithTKey(g: Graph, triangles: map<string, seq<string>>, k: string)
    requires Plain(g) && k in triangles && StoredAt(g, k, triangles[k])
    ensures Scan(triangles[k]) == Some(true) ==> k in TKeys(g)
  {
    var t := triangles[k];
    FoundPlain(g, t);
    ScanMeaning(t);
    if Scan(t) == Some(true) {
      assert t == [t[0], t[1], t[2]];
      assert StartsWithT(t[0]) || StartsWithT(t[1]) || StartsWithT(t[2]);
    }
  }

  /** The names of a found triangle with a `t` name, stored under its key
      in a plain graph, scan to a hit. */
  lemma TKeyScans(g: Graph, t: seq<string>, c: string, nb: string, n: string)
    requires Plain(g) && |t| == 3 && Found(g, t[0], t[1], t[2]) && Found(g, c, nb, n)
    requires StartsWithT(c) || StartsWithT(nb) || StartsWithT(n)
    requires Key(t) == Key([c, nb, n])
    ensures Scan(t) == Some(true)
  {
    FoundPlain(g, t);
    FoundPlain(g, [c, nb, n]);
    KeyNames(t, [c, nb, n]);
    ScanMeaning(t);
    var w := if StartsWithT(c) then c else if StartsWithT(nb) then nb else n;
    assert w in multiset([c, nb, n]);
    assert w in multiset(t);
    var i :| 0 <= i < |t| && t[i] == w;
  }

  /** In a plain graph the stored triangles that hold a `t` name are
      exactly the found triangles that do, each distinct triangle once. */
  lemma WithTKeys(g: Graph, triangles: map<string, seq<string>>)
    requires Plain(g) && Stored(g, triangles) && triangles.Keys == TriangleKeys(g)
    ensures WithT(triangles, triangles.Keys) == TKeys(g)
  {
    forall k | k in WithT(triangles, triangles.Keys)
      ensures k in TKeys(g)
    {
      WithTKey(g, triangles, k);
    }
    forall k | k in TKeys(g)
      ensures k in WithT(triangles, triangles.Keys)
    {
      var c, nb, n :| c in g && nb in g[c] && n in g[c] && Found(g, c, nb, n) &&
                      (StartsWithT(c) || StartsWithT(nb) || StartsWithT(n)) && k == Key([c, nb, n]);
      assert k in TriangleKeys(g);
      assert StoredAt(g, k, triangles[k]);
      TKeyScans(g, triangles[k], c, nb, n);
    }
  }

  /** `part1`: the number of distinct triangles holding a `t` name; None
      when a stored triangle has an empty name before any `t` name. */
  method Part1(g: Graph) returns (answer: Option<nat>)
    ensures answer.None? ==> !Plain(g)
    ensures Plain(g) ==> answer == Some(|TKeys(g)|)
    ensures answer.Some? ==> answer.value <= |TriangleKeys(g)|
  {
    var triangles := FindTriangles(g);
    answer := CountWithT(triangles);
    if answer.None? {
      var k :| k in triangles && Scan(triangles[k]).None?;
      assert StoredAt(g, k, triangles[k]);
      ScanMeaning(triangles[k]);
      FoundPlain(g, triangles[k]);
    } else {
      assert WithT(triangles, triangles.Keys) <= TriangleKeys(g);
      CardinalityMono(WithT(triangles, triangles.Keys), TriangleKeys(g));
      if Plain(g) {
        WithTKeys(g, triangles);
      }
    }
  }

  /** Two triangles stored under different keys never hold the same
      names: each distinct triangle is counted at most once. */
  lemma StoredDistinct(g: Graph, triangles: map<string, seq<string>>, k1: string, k2: string)
    requires Stored(g, triangles) && k1 in triangles && k2 in triangles
    requires multiset(triangles[k1]) == multiset(triangles[k2])
    ensures k1 == k2
  {
    assert StoredAt(g, k1, triangles[k1]) && StoredAt(g, k2, triangles[k2]);
    KeyPermutation(triangles[k1], triangles[k2]);
  }

  lemma CardinalityMono(a: set<string>, b: set<string>)
    requires a <= b
    ensures |a| <= |b|
  {
    assert b == a + (b - a);
  }

  // ---------------------------------------------------------------------
  // part2

  /** `candidate` is linked from every member of the clique. */
  predicate FullyConnected(g: Graph, clique: seq<string>, candidate: string)
  {
    forall i :: 0 <= i < |clique| ==> Linked(g, clique[i], candidate)
  }

  /** `isFullyConnected`; true for an empty clique. */
  method IsFullyConnected(g: Graph, clique: seq<string>, candidate: string) returns (connected: bool)
    ensures connected <==> FullyConnected(g, clique, candidate)
  {
    for i := 0 to |clique|
      invariant forall j :: 0 <= j < i ==> Linked(g, clique[j], candidate)
    {
      if candidate !in Lookup(g, clique[i]) {
        return false;
      }
    }
    return true;
  }

  /** The clique grown from `computer` after its first `k` links: it
      starts with the computer. */
  function GreedyUpTo(g: Graph, computer: string, k: nat): (q: seq<string>)
    requires k <= |Lookup(g, computer)|
    ensures |q| >= 1 && q[0] == computer
  {
    if k == 0 then [computer]
    else
      var clique := GreedyUpTo(g, computer, k - 1);
      var neighbor := Lookup(g, computer)[k - 1];
      if FullyConnected(g, clique, neighbor) then clique + [neighbor] else clique
  }

  function Greedy(g: Graph, computer: string): seq<string>
  {
    GreedyUpTo(g, computer, |Lookup(g, computer)|)
  }

  /** The body of the outer `part2` loop: the clique grown from one
      computer. */
  method GrowClique(g: Graph, computer: string) returns (clique: seq<string>)
    requires computer in g
    ensures clique == Greedy(g, computer)
  {
    clique := [computer];
    var neighbors := g[computer];
    for j := 0 to |neighbors|
      invariant clique == GreedyUpTo(g, computer, j)
    {
      var connected := IsFullyConnected(g, clique, neighbors[j]);
      if connected {
        clique := clique + [neighbors[j]];
      }
    }
  }

  /** Every later member is linked from every earlier one. */
  predicate Pairwise(g: Graph, q: seq<string>)
  {
    forall i, j :: 0 <= i < j < |q| ==> Linked(g, q[i], q[j])
  }

  /** Every later member of a greedy clique is linked from every earlier
      one. */
  lemma {:induction false} GreedyPairwise(g: Graph, computer: string, k: nat)
    requires k <= |Lookup(g, computer)|
    ensures Pairwise(g, GreedyUpTo(g, computer, k))
  {
    if k > 0 {
      GreedyPairwise(g, computer, k - 1);
      var prev := GreedyUpTo(g, computer, k - 1);
      var x := Lookup(g, computer)[k - 1];
      if FullyConnected(g, prev, x) {
        var q := prev + [x];
        assert GreedyUpTo(g, computer, k) == q;
        forall i, j | 0 <= i < j < |q|
          ensures Linked(g, q[i], q[j])
        {
          if j < |prev| {
            assert q[i] == prev[i] && q[j] == prev[j];
          } else {
            assert q[i] == prev[i] && q[j] == x;
          }
        }
      }
    }
  }

  /** `x` cannot join the clique `q`: it is already in it, or some member
      does not list it. */
  predicate Blocked(g: Graph, q: seq<string>, x: string)
  {
    x in q || !FullyConnected(g, q, x)
  }

  /** A name blocked from a clique stays blocked when the clique grows by
      one member. */
  lemma BlockedGrows(g: Graph, prev: seq<string>, y: string, x: string)
    requires Blocked(g, prev, x)
    ensures Blocked(g, prev + [y], x)
  {
    var q := prev + [y];
    if x in prev {
      var m :| 0 <= m < |prev| && prev[m] == x;
      assert q[m] == x;
    } else {
      var m :| 0 <= m < |prev| && !Linked(g, prev[m], x);
      assert q[m] == prev[m];
    }
  }

  /** Every link of the computer that the greedy clique left out misses
      some member: the clique cannot grow by a link it already visited. */
  lemma {:induction false} GreedyMaximal(g: Graph, computer: string, k: nat)
    requires k <= |Lookup(g, computer)|
    ensures forall i :: 0 <= i < k ==> Blocked(g, GreedyUpTo(g, computer, k), Lookup(g, computer)[i])
  {
    if k > 0 {
      var links := Lookup(g, computer);
      GreedyMaximal(g, computer, k - 1);
      var prev := GreedyUpTo(g, computer, k - 1);
      var x := links[k - 1];
      if FullyConnected(g, prev, x) {
        var q := prev + [x];
        assert GreedyUpTo(g, computer, k) == q;
        forall i | 0 <= i < k
          ensures Blocked(g, q, links[i])
        {
          if i < k - 1 {
            BlockedGrows(g, prev, x, links[i]);
          } else {
            assert q[|prev|] == x;
          }
        }
      } else {
        assert GreedyUpTo(g, computer, k) == prev;
        assert forall i :: 0 <= i < k - 1 ==> Blocked(g, prev, links[i]);
        assert Blocked(g, prev, links[k - 1]);
      }
    }
  }

  /** The members of a greedy clique after the computer are its links. */
  lemma {:induction false} GreedyLinks(g: Graph, computer: string, k: nat)
    requires k <= |Lookup(g, computer)|
    ensures forall i :: 1 <= i < |GreedyUpTo(g, computer, k)| ==> Linked(g, computer, GreedyUpTo(g, computer, k)[i])
  {
    if k > 0 {
      GreedyLinks(g, computer, k - 1);
      var prev := GreedyUpTo(g, computer, k - 1);
      var x := Lookup(g, computer)[k - 1];
      assert Linked(g, computer, x);
      var q := GreedyUpTo(g, computer, k);
      assert q == prev || q == prev + [x];
      forall i | 1 <= i < |q|
        ensures Linked(g, computer, q[i])
      {
        if i < |prev| {
          assert q[i] == prev[i];
        }
      }
    }
  }

  /** The clique `part2` keeps after visiting the first `n` computers of
      `order`: replaced only by a strictly larger one. */
  function Largest(g: Graph, order: seq<string>, n: nat): seq<string>
    requires n <= |order|
  {
    if n == 0 then []
    else
      var best := Largest(g, order, n - 1);
      var clique := Greedy(g, order[n - 1]);
      if |clique| > |best| then clique else best
  }

  /** The kept clique is the one of the `i`-th computer, and every
      computer before it grew a strictly smaller one. */
  predicate FirstLargest(g: Graph, order: seq<string>, n: nat, i: nat)
    requires n <= |order|
  {
    i < n && Largest(g, order, n) == Greedy(g, order[i]) &&
    forall j :: 0 <= j < i ==> |Greedy(g, order[j])| < |Greedy(g, order[i])|
  }

  /** The kept clique is at least as large as every visited computer's;
      it is empty only before any visit, and otherwise it is the first
      largest. */
  lemma {:induction false} LargestSpec(g: Graph, order: seq<string>, n: nat)
    requires n <= |order|
    ensures forall i :: 0 <= i < n ==> |Greedy(g, order[i])| <= |Largest(g, order, n)|
    ensures n == 0 <==> Largest(g, order, n) == []
    ensures n > 0 ==> exists i :: FirstLargest(g, order, n, i)
  {
    if n > 0 {
      LargestSpec(g, order, n - 1);
      var best := Largest(g, order, n - 1);
      var clique := Greedy(g, order[n - 1]);
      if |clique| > |best| {
        assert FirstLargest(g, order, n, n - 1);
      } else {
        var i :| FirstLargest(g, order, n - 1, i);
        assert FirstLargest(g, order, n, i);
      }
    }
  }

  /** The outer `part2` loop over the computers in `order`. */
  method LargestClique(g: Graph, order: seq<string>) returns (largestClique: seq<string>)
    requires forall i :: 0 <= i < |order| ==> order[i] in g
    ensures largestClique == Largest(g, order, |order|)
  {
    largestClique := [];
    for i := 0 to |order|
      invariant largestClique == Largest(g, order, i)
    {
      var clique := GrowClique(g, order[i]);
      if |clique| > |largestClique| {
        largestClique := clique;
      }
    }
  }

  /** `part2`: the largest greedy clique over the computers in map order,
      sorted and joined with commas. */
  method Part2(g: Graph) returns (password: string)
    ensures exists order :: Enumerates(order, g) && password == Join(SortStrings(Largest(g, order, |order|)), ',')
  {
    var computers := HashSetUtil.Elements(g.Keys);
    var largestClique := LargestClique(g, computers);
    password := Join(SortStrings(largestClique), ',');
    assert Enumerates(computers, g);
  }

  /** `order` lists every computer of the graph once: an order Go's map
      iteration may give. */
  ghost predicate Enumerates(order: seq<string>, g: Graph)
  {
    (forall c :: c in order <==> c in g) && |order| == |g.Keys|
  }

  /** Every two distinct members are linked both ways. */
  predicate Clique(g: Graph, q: seq<string>)
  {
    forall i, j :: 0 <= i < |q| && 0 <= j < |q| && i != j ==> Linked(g, q[i], q[j])
  }

  /** In a graph built from links, the largest greedy clique is a clique:
      every two of its members are linked both ways. */
  lemma LargestIsClique(input: seq<string>, order: seq<string>)
    requires GraphOf(input).Some?
    ensures Clique(GraphOf(input).value, Largest(GraphOf(input).value, order, |order|))
  {
    var g := GraphOf(input).value;
    LargestSpec(g, order, |order|);
    var q := Largest(g, order, |order|);
    if |order| > 0 {
      var k: nat :| FirstLargest(g, order, |order|, k);
      GreedyPairwise(g, order[k], |Lookup(g, order[k])|);
      forall i, j | 0 <= i < |q| && 0 <= j < |q| && i != j
        ensures Linked(g, q[i], q[j])
      {
        if j < i {
          GraphSymmetric(input, q[j], q[i]);
        }
      }
    }
  }

  // ---------------------------------------------------------------------
  // main

  /** `main`: build the graph, then both parts; None when a line has no
      dash or part 1 meets an empty name. */
  method Solve(input: seq<string>) returns (answers: Option<(nat, string)>)
    ensures answers.None? ==> GraphOf(input).None? || !Plain(GraphOf(input).value)
    ensures answers.Some? ==> GraphOf(input).Some?
    ensures answers.Some? && Plain(GraphOf(input).value) ==> answers.value.0 == |TKeys(GraphOf(input).value)|
  {
    var graph := MakeGraph(input);
    if graph.None? {
      return None;
    }
    var part1 := Part1(graph.value);
    if part1.None? {
      return None;
    }
    var part2 := Part2(graph.value);
    return Some((part1.value, part2));
  }
}
