/** Day 5: page-ordering rules "a|b" say page a must come before page b.
    Each update is checked against a topological sort (Kahn's algorithm) of
    its own pages under the rules; part 1 sums the middle pages of the
    updates the sort confirms, part 2 the middle pages of the sorts of the
    others. */
module Day5 {
  import opened Wrappers
  import Text

  /** `makeGraph`'s map from a page to the pages its rules put after it. */
  type Graph = map<int, seq<int>>

  function Elems(s: seq<int>): set<int>
  {
    set x | x in s
  }

  predicate Distinct(s: seq<int>)
  {
    forall i, j :: 0 <= i < j < |s| ==> s[i] != s[j]
  }

  // ---------------------------------------------------------------------
  // Input

  /** `separateData`: the leading run of lines holding '|' are the rules;
      the line after them is the separator and the rest are the updates.
      When every line holds '|' the Go slice `rawInput[index+1:]` is out of
      range. */
  method SeparateData(raw: seq<string>) returns (res: Option<(seq<string>, seq<string>)>)
    ensures res.None? <==> forall i :: 0 <= i < |raw| ==> '|' in raw[i]
    ensures res.Some? ==>
              var order, updates := res.value.0, res.value.1;
              |order| < |raw| &&
              (forall i :: 0 <= i < |order| ==> '|' in order[i]) &&
              '|' !in raw[|order|] &&
              raw == order + [raw[|order|]] + updates
  {
    var index := 0;
    var order := [];
    while index < |raw|
      invariant 0 <= index <= |raw| && order == raw[..index]
      invariant forall i :: 0 <= i < index ==> '|' in raw[i]
    {
      if '|' in raw[index] {
        order := order + [raw[index]];
      } else {
        break;
      }
      index := index + 1;
    }
    if index == |raw| {
      return None;
    }
    assert raw == raw[..index] + [raw[index]] + raw[index + 1..];
    return Some((order, raw[index + 1..]));
  }

  /** One rule line: split on '|' and parse the first two pieces. A line
      with one piece would index past the split, and a piece that is not a
      number makes `ParseInt` exit. */
  function ParseRule(line: string): Option<(int, int)>
  {
    var parts := Text.Split(line, '|');
    if |parts| < 2 then None
    else match (Text.Atoi(parts[0]), Text.Atoi(parts[1]))
      case (Some(a), Some(b)) => Some((a, b))
      case _ => None
  }

  /** A printed rule parses back to itself. */
  lemma RuleRoundTrip(a: int, b: int)
    ensures ParseRule(Text.Itoa(a) + "|" + Text.Itoa(b)) == Some((a, b))
  {
    Text.ItoaChars(a);
    Text.ItoaChars(b);
    var parts := [Text.Itoa(a), Text.Itoa(b)];
    assert Text.Join(parts, '|') == Text.Itoa(a) + "|" + Text.Itoa(b);
    Text.JoinSplit(parts, '|');
    Text.AtoiItoa(a);
    Text.AtoiItoa(b);
  }

  /** All rule lines parsed, or None if one fails. */
  function ParseRules(order: seq<string>): (r: Option<seq<(int, int)>>)
    ensures r.None? <==> exists i :: 0 <= i < |order| && ParseRule(order[i]).None?
    ensures r.Some? ==> (|r.value| == |order| &&
              forall i :: 0 <= i < |order| ==> ParseRule(order[i]) == Some(r.value[i]))
  {
    if |order| == 0 then Some([])
    else
      var last := |order| - 1;
      assert forall i :: 0 <= i < last ==> order[..last][i] == order[i];
      match (ParseRules(order[..last]), ParseRule(order[last]))
      case (Some(rs), Some(r)) => Some(rs + [r])
      case _ => None
  }

  /** The pages the rules put after `a`, in rule order. */
  function Targets(rules: seq<(int, int)>, a: int): seq<int>
  {
    if |rules| == 0 then []
    else
      var r := rules[|rules| - 1];
      Targets(rules[..|rules| - 1], a) + (if r.0 == a then [r.1] else [])
  }

  /** A page is a target of `a` exactly when some rule says a|b. */
  lemma {:induction false} TargetsHas(rules: seq<(int, int)>, a: int, b: int)
    ensures b in Targets(rules, a) <==> (a, b) in rules
  {
    if |rules| > 0 {
      var last := |rules| - 1;
      TargetsHas(rules[..last], a, b);
      assert rules == rules[..last] + [rules[last]];
    }
  }

  /** `graph[a]`, which Go reads as an empty slice when `a` has no rules. */
  function Succ(graph: Graph, a: int): seq<int>
  {
    if a in graph then graph[a] else []
  }

  lemma TargetsSnoc(rules: seq<(int, int)>, r: (int, int), a: int)
    ensures Targets(rules + [r], a) == Targets(rules, a) + (if r.0 == a then [r.1] else [])
  {
    assert (rules + [r])[..|rules|] == rules;
  }

  /** `makeGraph`: for every rule a|b append b to `graph[a]`. A page has an
      entry exactly when some rule starts at it. */
  method MakeGraph(order: seq<string>) returns (res: Option<Graph>)
    ensures res.None? <==> ParseRules(order).None?
    ensures res.Some? ==>
              var rules := ParseRules(order).value;
              forall a :: (a in res.value <==> Targets(rules, a) != []) &&
                          Succ(res.value, a) == Targets(rules, a)
  {
    var graph: Graph := map[];
    ghost var rules: seq<(int, int)> := [];
    for i := 0 to |order|
      invariant ParseRules(order[..i]) == Some(rules)
      invariant forall a :: a in graph <==> Targets(rules, a) != []
      invariant forall a :: Succ(graph, a) == Targets(rules, a)
    {
      var rule := ParseRule(order[i]);
      if rule.None? {
        ParseRulesFails(order, i);
        return None;
      }
      var from, to := rule.value.0, rule.value.1;
      ghost var prevGraph, prevRules := graph, rules;
      graph := graph[from := Succ(graph, from) + [to]];
      ParseRulesSnoc(order, i, rules);
      rules := rules + [(from, to)];
      forall a
        ensures (a in graph <==> Targets(rules, a) != []) && Succ(graph, a) == Targets(rules, a)
      {
        TargetsSnoc(prevRules, (from, to), a);
        if a != from {
          assert Succ(graph, a) == Succ(prevGraph, a);
        }
      }
    }
    assert order[..|order|] == order;
    return Some(graph);
  }

  lemma ParseRulesFails(order: seq<string>, i: int)
    requires 0 <= i < |order| && ParseRule(order[i]).None?
    ensures ParseRules(order).None?
  {
  }

  lemma ParseRulesSnoc(order: seq<string>, i: int, rules: seq<(int, int)>)
    requires 0 <= i < |order| && ParseRules(order[..i]) == Some(rules) && ParseRule(order[i]).Some?
    ensures ParseRules(order[..i + 1]) == Some(rules + [ParseRule(order[i]).value])
  {
    assert order[..i + 1][..i] == order[..i];
  }

  /** One update line: split on ',' and parse every piece. */
  function ParseFields(fields: seq<string>): (r: Option<seq<int>>)
    ensures r.None? <==> exists k :: 0 <= k < |fields| && Text.Atoi(fields[k]).None?
    ensures r.Some? ==> (|r.value| == |fields| &&
              forall k :: 0 <= k < |fields| ==> Text.Atoi(fields[k]) == Some(r.value[k]))
  {
    if |fields| == 0 then Some([])
    else
      var last := |fields| - 1;
      assert forall k :: 0 <= k < last ==> fields[..last][k] == fields[k];
      match (ParseFields(fields[..last]), Text.Atoi(fields[last]))
      case (Some(xs), Some(x)) => Some(xs + [x])
      case _ => None
  }

  function ParseUpdate(line: string): Option<seq<int>>
  {
    ParseFields(Text.Split(line, ','))
  }

  /** The pages printed with ',' between them parse back to themselves. */
  lemma UpdateRoundTrip(pages: seq<int>)
    requires |pages| >= 1
    ensures ParseUpdate(Text.Join(seq(|pages|, i requires 0 <= i < |pages| => Text.Itoa(pages[i])), ',')) == Some(pages)
  {
    var parts := seq(|pages|, i requires 0 <= i < |pages| => Text.Itoa(pages[i]));
    forall p | p in parts
      ensures ',' !in p
    {
      var i :| 0 <= i < |parts| && parts[i] == p;
      Text.ItoaChars(pages[i]);
    }
    Text.JoinSplit(parts, ',');
    forall k | 0 <= k < |pages|
      ensures Text.Atoi(parts[k]) == Some(pages[k])
    {
      Text.AtoiItoa(pages[k]);
    }
    var r := ParseFields(parts);
    assert r.Some? && r.value == pages;
  }

  /** `convertUpdates`: every line split on ',' into numbers. */
  method ConvertUpdates(lines: seq<string>) returns (res: Option<seq<seq<int>>>)
    ensures res.None? <==> exists i :: 0 <= i < |lines| && ParseUpdate(lines[i]).None?
    ensures res.Some? ==> (|res.value| == |lines| &&
              forall i :: 0 <= i < |lines| ==> ParseUpdate(lines[i]) == Some(res.value[i]))
  {
    var toReturn: seq<seq<int>> := [];
    for i := 0 to |lines|
      invariant |toReturn| == i
      invariant forall k :: 0 <= k < i ==> ParseUpdate(lines[k]) == Some(toReturn[k])
    {
      var split := Text.Split(lines[i], ',');
      var converted: seq<int> := [];
      for j := 0 to |split|
        invariant ParseFields(split[..j]) == Some(converted)
      {
        assert split[..j + 1][..j] == split[..j];
        var value := Text.Atoi(split[j]);
        if value.None? {
          assert Text.Atoi(split[..j + 1][j]).None?;
          ParseFieldsFails(split, j);
          return None;
        }
        converted := converted + [value.value];
      }
      assert split[..|split|] == split;
      toReturn := toReturn + [converted];
    }
    return Some(toReturn);
  }

  lemma ParseFieldsFails(fields: seq<string>, j: int)
    requires 0 <= j < |fields| && Text.Atoi(fields[j]).None?
    ensures ParseFields(fields).None?
  {
  }

  // ---------------------------------------------------------------------
  // Kahn's algorithm

  /** `order` lists the distinct pages of `update` once each: the order in
      which Go happens to range over the maps keyed by those pages. */
  predicate Enumerates(order: seq<int>, update: seq<int>)
  {
    Distinct(order) && Elems(order) == Elems(update)
  }

  /** The neighbours of `s` that are pages of the update, in order. */
  function Keep(s: seq<int>, nodes: set<int>): seq<int>
  {
    if |s| == 0 then []
    else Keep(s[..|s| - 1], nodes) + (if s[|s| - 1] in nodes then [s[|s| - 1]] else [])
  }

  /** Keep filters: what it keeps is exactly what is in both. */
  lemma {:induction false} KeepHas(s: seq<int>, nodes: set<int>, x: int)
    ensures x in Keep(s, nodes) <==> x in s && x in nodes
  {
    if |s| > 0 {
      KeepHas(s[..|s| - 1], nodes, x);
      assert s == s[..|s| - 1] + [s[|s| - 1]];
    }
  }

  /** The edges into `b` from the pages of `ns` not in `done`, counted with
      multiplicity: the in-degree the algorithm keeps for `b`. */
  function Indeg(sub: map<int, seq<int>>, ns: seq<int>, done: set<int>, b: int): nat
  {
    if |ns| == 0 then 0
    else
      var a := ns[|ns| - 1];
      Indeg(sub, ns[..|ns| - 1], done, b) +
      (if a !in done && a in sub then multiset(sub[a])[b] else 0)
  }

  /** Changing the edges of a page outside `ns` changes no count. */
  lemma {:induction false} IndegFrame(sub: map<int, seq<int>>, ns: seq<int>, done: set<int>, b: int,
                                      x: int, v: seq<int>)
    requires x !in ns
    ensures Indeg(sub[x := v], ns, done, b) == Indeg(sub, ns, done, b)
  {
    if |ns| > 0 {
      IndegFrame(sub, ns[..|ns| - 1], done, b, x, v);
    }
  }

  /** Marking page `e` done removes exactly its edges into `b`. */
  lemma {:induction false} IndegDone(sub: map<int, seq<int>>, ns: seq<int>, done: set<int>, e: int, b: int)
    requires Distinct(ns) && e in ns && e !in done && e in sub
    ensures Indeg(sub, ns, done, b) == Indeg(sub, ns, done + {e}, b) + multiset(sub[e])[b]
  {
    var last := |ns| - 1;
    var init := ns[..last];
    assert forall i, j :: 0 <= i < j < |init| ==> init[i] == ns[i] && init[j] == ns[j];
    if ns[last] == e {
      assert e !in init;
      IndegSame(sub, init, done, e, b);
    } else {
      assert e in init by {
        var i :| 0 <= i < |ns| && ns[i] == e;
        assert i < last && init[i] == e;
      }
      IndegDone(sub, init, done, e, b);
    }
  }

  /** Marking a page outside `ns` done changes no count. */
  lemma {:induction false} IndegSame(sub: map<int, seq<int>>, ns: seq<int>, done: set<int>, e: int, b: int)
    requires e !in ns
    ensures Indeg(sub, ns, done, b) == Indeg(sub, ns, done + {e}, b)
  {
    if |ns| > 0 {
      IndegSame(sub, ns[..|ns| - 1], done, e, b);
    }
  }

  /** With no edges left into `b`, no page of `ns` still to be done has an
      edge to `b`. */
  lemma {:induction false} IndegZero(sub: map<int, seq<int>>, ns: seq<int>, done: set<int>, b: int, a: int)
    requires Indeg(sub, ns, done, b) == 0 && a in ns && a !in done && a in sub
    ensures b !in sub[a]
  {
    var last := |ns| - 1;
    if ns[last] != a {
      assert a in ns[..last] by {
        var i :| 0 <= i < |ns| && ns[i] == a;
        assert i < last && ns[..last][i] == a;
      }
      IndegZero(sub, ns[..last], done, b, a);
    }
  }

  /** The result of `topologicalSort`: distinct pages of the update, each
      placed before every page its rules put after it. */
  predicate TopoSorted(t: seq<int>, update: seq<int>, graph: Graph)
  {
    Distinct(t) && Elems(t) <= Elems(update) &&
    forall i, j :: 0 <= i < |t| && 0 <= j < |t| && t[j] in Succ(graph, t[i]) ==> i < j
  }

  /** Every edge of `sub` between pages of `t` goes forward in `t`. */
  predicate Ordered(sub: map<int, seq<int>>, t: seq<int>)
  {
    forall i, j :: 0 <= i < |t| && 0 <= j < |t| && t[i] in sub && t[j] in sub[t[i]] ==> i < j
  }

  /** Every page with an edge into a page of `t` is itself in `t`. */
  predicate DownClosed(sub: map<int, seq<int>>, t: seq<int>)
  {
    forall j, a :: 0 <= j < |t| && a in sub && t[j] in sub[a] ==> a in t
  }

  /** The subgraph of the update's pages and the in-degrees, as built by
      the first two loops of `topologicalSort`. */
  ghost predicate Built(update: seq<int>, graph: Graph, order: seq<int>, nodes: set<int>,
                        sub: map<int, seq<int>>, inDegree: map<int, int>)
  {
    nodes == Elems(update) && sub.Keys == nodes && inDegree.Keys == nodes && Closed(sub, nodes) &&
    (forall a :: a in nodes ==> sub[a] == Keep(Succ(graph, a), nodes)) &&
    (forall b :: b in nodes ==> inDegree[b] == Indeg(sub, order, {}, b))
  }

  /** Every edge of the subgraph ends at a page of the update. */
  predicate Closed(sub: map<int, seq<int>>, nodes: set<int>)
  {
    forall a, x :: a in sub && x in sub[a] ==> x in nodes
  }

  /** What does not change while the queue drains. */
  predicate Fixed(order: seq<int>, nodes: set<int>, sub: map<int, seq<int>>)
  {
    Distinct(order) && Elems(order) == nodes && sub.Keys == nodes && Closed(sub, nodes)
  }

  /** The state between two pops of the queue: the emitted and the queued
      pages are distinct pages with no edge left into them, the emitted
      ones are in order, and each count is the number of edges from pages
      not yet emitted. */
  ghost predicate Draining(order: seq<int>, nodes: set<int>, sub: map<int, seq<int>>,
                           inDegree: map<int, int>, topOrder: seq<int>, queue: seq<int>)
  {
    Fixed(order, nodes, sub) && inDegree.Keys == nodes &&
    Distinct(topOrder + queue) && (forall x :: x in topOrder + queue ==> x in nodes) &&
    (forall b :: b in nodes ==> inDegree[b] == Indeg(sub, order, Elems(topOrder), b)) &&
    (forall x :: x in topOrder + queue ==> inDegree[x] == 0) &&
    Ordered(sub, topOrder) && DownClosed(sub, topOrder)
  }

  /** What `topologicalSort` computes, step by step: the rules among the
      update's pages, each page's count of incoming rules (counted in
      `order`), the pages with none queued in `scan` order, then Kahn's
      loop. */
  function KahnSort(update: seq<int>, graph: Graph, order: seq<int>, scan: seq<int>): seq<int>
  {
    var nodes := Elems(update);
    var sub := map a | a in nodes :: Keep(Succ(graph, a), nodes);
    var inDegree := map b | b in nodes :: Indeg(sub, order, {}, b) as int;
    DrainSteps(sub, inDegree, [], Zeros(scan, inDegree), |nodes|)
  }

  /** The pages of `scan` whose count is zero, in `scan` order. */
  function Zeros(scan: seq<int>, inDegree: map<int, int>): seq<int>
  {
    if |scan| == 0 then []
    else
      var last := |scan| - 1;
      Zeros(scan[..last], inDegree) + (if scan[last] in inDegree && inDegree[scan[last]] == 0 then [scan[last]] else [])
  }

  /** The inner loop of Kahn's loop: one less for each page in `ns`, and a
      page joins the queue when its count reaches zero. */
  function RelaxSteps(inDegree: map<int, int>, queue: seq<int>, ns: seq<int>): (map<int, int>, seq<int>)
  {
    if |ns| == 0 then (inDegree, queue)
    else
      var prev := RelaxSteps(inDegree, queue, ns[..|ns| - 1]);
      var n := ns[|ns| - 1];
      var d := (if n in prev.0 then prev.0[n] else 0) - 1;
      (prev.0[n := d], if d == 0 then prev.1 + [n] else prev.1)
  }

  /** Kahn's loop, at most `fuel` pops: emit the head of the queue and relax
      its rules. */
  function DrainSteps(sub: map<int, seq<int>>, inDegree: map<int, int>, topOrder: seq<int>, queue: seq<int>, fuel: nat): seq<int>
    decreases fuel
  {
    if |queue| == 0 || fuel == 0 then topOrder
    else
      var node := queue[0];
      var next := RelaxSteps(inDegree, queue[1..], if node in sub then sub[node] else []);
      DrainSteps(sub, next.0, topOrder + [node], next.1, fuel - 1)
  }

  /** `topologicalSort`. `order` and `scan` are the orders in which Go
      ranges over the update's pages in the second and third loops; Go's
      map order is unspecified and the result may depend on it. */
  method TopologicalSort(update: seq<int>, graph: Graph, order: seq<int>, scan: seq<int>)
    returns (topOrder: seq<int>)
    requires Enumerates(order, update) && Enumerates(scan, update)
    ensures topOrder == KahnSort(update, graph, order, scan)
    ensures TopoSorted(topOrder, update, graph)
  {
    var nodes, sub, inDegree := BuildSubgraph(update, graph, order);
    var queue := InitialQueue(order, scan, nodes, sub, inDegree);
    topOrder := Drain(order, nodes, sub, inDegree, queue);
    BuiltIsKahn(update, graph, order, scan, nodes, sub, inDegree);
    forall i, j | 0 <= i < |topOrder| && 0 <= j < |topOrder| && topOrder[j] in Succ(graph, topOrder[i])
      ensures i < j
    {
      var a, b := topOrder[i], topOrder[j];
      assert a in nodes && b in nodes;
      KeepHas(Succ(graph, a), nodes, b);
    }
  }

  /** The subgraph and counts the first two loops build are the ones
      `KahnSort` starts from. */
  lemma BuiltIsKahn(update: seq<int>, graph: Graph, order: seq<int>, scan: seq<int>, nodes: set<int>,
                    sub: map<int, seq<int>>, inDegree: map<int, int>)
    requires Built(update, graph, order, nodes, sub, inDegree)
    ensures KahnSort(update, graph, order, scan) == DrainSteps(sub, inDegree, [], Zeros(scan, inDegree), |nodes|)
  {
    assert sub == map a | a in nodes :: Keep(Succ(graph, a), nodes);
    assert inDegree == map b | b in nodes :: Indeg(sub, order, {}, b) as int;
  }

  /** The rule 1|2 on the update 1,2: both pages are emitted, 1 first. */
  lemma KahnSortExample()
    ensures KahnSort([1, 2], map[1 := [2]], [1, 2], [1, 2]) == [1, 2]
  {
    var sub, inDegree := map[1 := [2], 2 := []], map[1 := 0, 2 := 1];
    ExampleBuilt();
    BuiltIsKahn([1, 2], map[1 := [2]], [1, 2], [1, 2], {1, 2}, sub, inDegree);
    ExampleZeros();
    ExampleDrain();
  }

  /** The subgraph and counts of that example. */
  lemma ExampleBuilt()
    ensures Built([1, 2], map[1 := [2]], [1, 2], {1, 2}, map[1 := [2], 2 := []], map[1 := 0, 2 := 1])
  {
    assert Elems([1, 2]) == {1, 2};
    ExampleSubgraph();
    ExampleCounts();
  }

  /** Only page 1 starts with no incoming rule. */
  lemma ExampleZeros()
    ensures Zeros([1, 2], map[1 := 0, 2 := 1]) == [1]
  {
    var inDegree := map[1 := 0, 2 := 1];
    assert [1, 2][..1] == [1] && [1][..0] == [];
    assert Zeros([1], inDegree) == [1];
  }

  lemma ExampleSubgraph()
    ensures forall a :: a in {1, 2} ==> map[1 := [2], 2 := []][a] == Keep(Succ(map[1 := [2]], a), {1, 2})
  {
    assert Keep([2], {1, 2}) == [2] by {
      assert [2][..0] == [];
    }
  }

  lemma ExampleCounts()
    ensures forall b :: b in {1, 2} ==> map[1 := 0, 2 := 1][b] == Indeg(map[1 := [2], 2 := []], [1, 2], {}, b)
  {
    var sub := map[1 := [2], 2 := []];
    assert [1, 2][..1] == [1] && [1][..0] == [];
    assert multiset(sub[1])[1] == 0 && multiset(sub[1])[2] == 1 && multiset(sub[2])[1] == 0 && multiset(sub[2])[2] == 0;
    assert Indeg(sub, [1], {}, 1) == 0 && Indeg(sub, [1], {}, 2) == 1;
    assert Indeg(sub, [1, 2], {}, 1) == 0 && Indeg(sub, [1, 2], {}, 2) == 1;
  }

  /** Emitting page 1 brings page 2 down to zero and queues it. */
  lemma ExampleRelax()
    ensures RelaxSteps(map[1 := 0, 2 := 1], [], [2]) == (map[1 := 0, 2 := 0], [2])
  {
    var ns := [2];
    assert ns[..|ns| - 1] == [];
    var prev := RelaxSteps(map[1 := 0, 2 := 1], [], []);
    assert prev == (map[1 := 0, 2 := 1], []);
    assert ns[|ns| - 1] == 2;
    assert prev.0[2] - 1 == 0;
    assert prev.0[2 := 0] == map[1 := 0, 2 := 0];
    assert prev.1 + [2] == [2];
  }

  /** Kahn's loop on that example emits 1, then 2. */
  lemma ExampleDrain()
    ensures DrainSteps(map[1 := [2], 2 := []], map[1 := 0, 2 := 1], [], [1], 2) == [1, 2]
  {
    var sub := map[1 := [2], 2 := []];
    var done := map[1 := 0, 2 := 0];
    ExampleRelax();
    assert RelaxSteps(done, [], []) == (done, []);
    assert [1][1..] == [] && [2][1..] == [];
    assert DrainSteps(sub, done, [1], [2], 1) == [1, 2];
  }

  /** The first two loops of `topologicalSort`: mark the update's pages,
      keep the rules between them and count each page's incoming rules. */
  method BuildSubgraph(update: seq<int>, graph: Graph, order: seq<int>)
    returns (nodes: set<int>, sub: map<int, seq<int>>, inDegree: map<int, int>)
    requires Enumerates(order, update)
    ensures Built(update, graph, order, nodes, sub, inDegree)
  {
    nodes, sub, inDegree := MarkNodes(update);
    sub, inDegree := CountEdges(graph, order, nodes, sub, inDegree);
    forall a | a in nodes
      ensures sub[a] == Keep(Succ(graph, a), nodes)
    {
      assert a in Elems(order);
      var k :| 0 <= k < |order| && order[k] == a;
    }
    forall a, x | a in sub && x in sub[a]
      ensures x in nodes
    {
      KeepHas(Succ(graph, a), nodes, x);
    }
  }

  /** The first loop: every page of the update gets no edges and no
      incoming rules yet. */
  method MarkNodes(update: seq<int>) returns (nodes: set<int>, sub: map<int, seq<int>>, inDegree: map<int, int>)
    ensures nodes == Elems(update) && sub.Keys == nodes && inDegree.Keys == nodes
    ensures forall a :: a in nodes ==> sub[a] == []
    ensures forall a :: a in nodes ==> inDegree[a] == 0
  {
    nodes, sub, inDegree := {}, map[], map[];
    for i := 0 to |update|
      invariant nodes == Elems(update[..i]) && sub.Keys == nodes && inDegree.Keys == nodes
      invariant forall a :: a in nodes ==> sub[a] == []
      invariant forall a :: a in nodes ==> inDegree[a] == 0
    {
      assert Elems(update[..i + 1]) == Elems(update[..i]) + {update[i]} by {
        assert update[..i + 1] == update[..i] + [update[i]];
      }
      nodes := nodes + {update[i]};
      sub := sub[update[i] := []];
      inDegree := inDegree[update[i] := 0];
    }
    assert update[..|update|] == update;
  }

  /** The second loop: for each page in `order`, its rules to pages of the
      update and the count they add. */
  method CountEdges(graph: Graph, order: seq<int>, nodes: set<int>, sub0: map<int, seq<int>>,
                    inDegree0: map<int, int>)
    returns (sub: map<int, seq<int>>, inDegree: map<int, int>)
    requires Distinct(order) && sub0.Keys == nodes && inDegree0.Keys == nodes
    requires forall k :: 0 <= k < |order| ==> order[k] in nodes
    requires forall a :: a in nodes ==> sub0[a] == []
    requires forall a :: a in nodes ==> inDegree0[a] == 0
    ensures sub.Keys == nodes && inDegree.Keys == nodes
    ensures forall k :: 0 <= k < |order| ==> sub[order[k]] == Keep(Succ(graph, order[k]), nodes)
    ensures forall b :: b in nodes ==> inDegree[b] == Indeg(sub, order, {}, b)
  {
    sub, inDegree := sub0, inDegree0;
    forall k | 0 <= k < |order|
      ensures sub[order[k]] == []
    {
      var a := order[k];
      assert a in nodes;
      assert sub0[a] == [];
    }
    for i := 0 to |order|
      invariant sub.Keys == nodes && inDegree.Keys == nodes
      invariant forall k :: 0 <= k < i ==> sub[order[k]] == Keep(Succ(graph, order[k]), nodes)
      invariant forall k :: i <= k < |order| ==> sub[order[k]] == []
      invariant forall b :: b in nodes ==> inDegree[b] == Indeg(sub, order[..i], {}, b)
    {
      var node := order[i];
      DistinctSlice(order, i);
      ghost var prev := sub;
      sub, inDegree := AddEdges(graph, order[..i], nodes, sub, inDegree, node);
      SliceSnoc(order, i);
      forall k | i < k < |order|
        ensures sub[order[k]] == []
      {
        assert order[i] != order[k] && order[k] in nodes;
        assert prev[order[k]] == [];
      }
    }
    assert order[..|order|] == order;
  }

  lemma DistinctSlice(s: seq<int>, i: int)
    requires Distinct(s) && 0 <= i < |s|
    ensures s[i] !in s[..i]
  {
  }

  lemma SliceCount(s: seq<int>, j: int)
    requires 0 <= j < |s|
    ensures multiset(s[j..]) == multiset(s[j + 1..]) + multiset{s[j]}
  {
    assert s[j..] == [s[j]] + s[j + 1..];
  }

  lemma AppendAssoc(s: seq<int>, t: seq<int>, x: int)
    ensures s + t + [x] == s + (t + [x])
  {
  }

  lemma SliceSnoc(s: seq<int>, i: int)
    requires 0 <= i < |s|
    ensures s[..i + 1] == s[..i] + [s[i]]
  {
  }

  /** One pass of the second loop: copy `node`'s rules into the subgraph
      and count them. */
  method AddEdges(graph: Graph, done: seq<int>, nodes: set<int>, sub0: map<int, seq<int>>,
                  inDegree0: map<int, int>, node: int)
    returns (sub: map<int, seq<int>>, inDegree: map<int, int>)
    requires sub0.Keys == nodes && inDegree0.Keys == nodes && node in nodes && node !in done
    requires sub0[node] == []
    requires forall b :: b in nodes ==> inDegree0[b] == Indeg(sub0, done, {}, b)
    ensures sub.Keys == nodes && inDegree.Keys == nodes && sub[node] == Keep(Succ(graph, node), nodes)
    ensures forall a :: a in nodes && a != node ==> sub[a] == sub0[a]
    ensures forall b :: b in nodes ==> inDegree[b] == Indeg(sub, done + [node], {}, b)
  {
    inDegree := inDegree0;
    var succ := Succ(graph, node);
    var kept: seq<int> := [];
    for j := 0 to |succ|
      invariant kept == Keep(succ[..j], nodes) && inDegree.Keys == nodes
      invariant forall b :: b in nodes ==> inDegree[b] == inDegree0[b] + multiset(kept)[b]
    {
      var neighbor := succ[j];
      assert succ[..j + 1][..j] == succ[..j];
      assert Keep(succ[..j + 1], nodes) == kept + (if neighbor in nodes then [neighbor] else []);
      if neighbor in nodes {
        assert multiset(kept + [neighbor]) == multiset(kept) + multiset{neighbor};
        kept := kept + [neighbor];
        inDegree := inDegree[neighbor := inDegree[neighbor] + 1];
      }
    }
    assert succ[..|succ|] == succ;
    sub := sub0[node := kept];
    forall b | b in nodes
      ensures inDegree[b] == Indeg(sub, done + [node], {}, b)
    {
      IndegFrame(sub0, done, {}, b, node, kept);
      IndegSnoc(sub, done, node, b);
    }
  }

  /** One more page counted adds its edges into `b`. */
  lemma IndegSnoc(sub: map<int, seq<int>>, ns: seq<int>, a: int, b: int)
    requires a in sub
    ensures Indeg(sub, ns + [a], {}, b) == Indeg(sub, ns, {}, b) + multiset(sub[a])[b]
  {
    assert (ns + [a])[..|ns|] == ns;
  }

  /** The third loop: queue every page with no incoming rule. */
  method InitialQueue(order: seq<int>, scan: seq<int>, nodes: set<int>, sub: map<int, seq<int>>,
                      inDegree: map<int, int>)
    returns (queue: seq<int>)
    requires Fixed(order, nodes, sub) && inDegree.Keys == nodes && Distinct(scan) && Elems(scan) == nodes
    requires forall b :: b in nodes ==> inDegree[b] == Indeg(sub, order, {}, b)
    ensures Draining(order, nodes, sub, inDegree, [], queue)
    ensures forall b :: b in nodes ==> (b in queue <==> inDegree[b] == 0)
    ensures queue == Zeros(scan, inDegree)
  {
    queue := [];
    for i := 0 to |scan|
      invariant Distinct(queue)
      invariant forall x :: x in queue <==> x in scan[..i] && inDegree[x] == 0
      invariant queue == Zeros(scan[..i], inDegree)
    {
      var node := scan[i];
      DistinctSlice(scan, i);
      SliceSnoc(scan, i);
      ZerosSnoc(scan, i, inDegree);
      if inDegree[node] == 0 {
        queue := queue + [node];
      }
    }
    assert scan[..|scan|] == scan;
    StartDraining(order, nodes, sub, inDegree, queue);
  }

  /** One more page scanned adds it to the zero-count pages when its count is zero. */
  lemma ZerosSnoc(scan: seq<int>, i: int, inDegree: map<int, int>)
    requires 0 <= i < |scan|
    ensures Zeros(scan[..i + 1], inDegree) ==
            Zeros(scan[..i], inDegree) + (if scan[i] in inDegree && inDegree[scan[i]] == 0 then [scan[i]] else [])
  {
    assert scan[..i + 1][..i] == scan[..i];
  }

  /** One more decrement of the inner loop, at index `j` of `ns`. */
  lemma RelaxUnfold(inDegree0: map<int, int>, queue0: seq<int>, ns: seq<int>, j: int,
                    inDegree: map<int, int>, queue: seq<int>, inDegree': map<int, int>, queue': seq<int>)
    requires 0 <= j < |ns| && ns[j] in inDegree
    requires RelaxSteps(inDegree0, queue0, ns[..j]) == (inDegree, queue)
    requires inDegree' == inDegree[ns[j] := inDegree[ns[j]] - 1]
    requires queue' == if inDegree'[ns[j]] == 0 then queue + [ns[j]] else queue
    ensures RelaxSteps(inDegree0, queue0, ns[..j + 1]) == (inDegree', queue')
  {
    assert ns[..j + 1][..j] == ns[..j];
  }

  /** Before any page is emitted, the queue alone makes up the state. */
  lemma StartDraining(order: seq<int>, nodes: set<int>, sub: map<int, seq<int>>, inDegree: map<int, int>,
                      queue: seq<int>)
    requires Fixed(order, nodes, sub) && inDegree.Keys == nodes && Distinct(queue)
    requires forall b :: b in nodes ==> inDegree[b] == Indeg(sub, order, {}, b)
    requires forall x :: x in queue ==> x in nodes && inDegree[x] == 0
    ensures Draining(order, nodes, sub, inDegree, [], queue)
  {
    assert [] + queue == queue;
    assert Elems([]) == {};
  }

  /** The fourth loop: pop a page, emit it, and release the pages whose
      last incoming rule it was. */
  method Drain(order: seq<int>, nodes: set<int>, sub: map<int, seq<int>>, inDegree0: map<int, int>,
               queue0: seq<int>)
    returns (topOrder: seq<int>)
    requires Draining(order, nodes, sub, inDegree0, [], queue0)
    ensures Distinct(topOrder) && (forall x :: x in topOrder ==> x in nodes) && Ordered(sub, topOrder)
    ensures topOrder == DrainSteps(sub, inDegree0, [], queue0, |nodes|)
  {
    var inDegree, queue := inDegree0, queue0;
    topOrder := [];
    while |queue| > 0
      invariant Draining(order, nodes, sub, inDegree, topOrder, queue)
      invariant |topOrder| <= |nodes|
      invariant DrainSteps(sub, inDegree0, [], queue0, |nodes|) == DrainSteps(sub, inDegree, topOrder, queue, |nodes| - |topOrder|)
      decreases |nodes - Elems(topOrder)|
    {
      var node := queue[0];
      var rest := queue[1..];
      PopReady(order, nodes, sub, inDegree, topOrder, queue);
      RoomLeft(topOrder, queue, nodes);
      topOrder := topOrder + [node];
      inDegree, queue := Relax(order, nodes, sub, inDegree, topOrder, rest, node);
    }
    assert topOrder + [] == topOrder;
  }

  /** A page still queued leaves room for one more emitted page. */
  lemma RoomLeft(topOrder: seq<int>, queue: seq<int>, nodes: set<int>)
    requires Distinct(topOrder + queue) && |queue| > 0 && forall x :: x in topOrder + queue ==> x in nodes
    ensures |topOrder| < |nodes|
  {
    var t := topOrder + [queue[0]];
    assert forall i :: 0 <= i < |t| ==> t[i] == (topOrder + queue)[i];
    assert Distinct(t);
    DistinctCard(t);
    assert Elems(t) <= nodes;
    var d := nodes - Elems(t);
    assert nodes == Elems(t) + d && Elems(t) * d == {};
  }

  /** Emitting the head of the queue keeps the emitted pages in order, and
      the edges it removes are exactly those out of the emitted page. */
  lemma PopReady(order: seq<int>, nodes: set<int>, sub: map<int, seq<int>>, inDegree: map<int, int>,
                 topOrder: seq<int>, queue: seq<int>)
    requires Draining(order, nodes, sub, inDegree, topOrder, queue) && |queue| > 0
    ensures var node, rest := queue[0], queue[1..];
            node in nodes && Distinct(topOrder + [node] + rest) &&
            (forall x :: x in topOrder + [node] + rest ==> x in nodes && inDegree[x] == 0) &&
            Ordered(sub, topOrder + [node]) && DownClosed(sub, topOrder + [node]) &&
            |nodes - Elems(topOrder + [node])| < |nodes - Elems(topOrder)| &&
            forall b :: b in nodes ==>
              inDegree[b] == Indeg(sub, order, Elems(topOrder + [node]), b) + multiset(sub[node])[b]
  {
    var node, rest := queue[0], queue[1..];
    assert queue == [node] + rest;
    PopHead(order, nodes, sub, inDegree, topOrder, node, rest);
  }

  lemma PopHead(order: seq<int>, nodes: set<int>, sub: map<int, seq<int>>, inDegree: map<int, int>,
                topOrder: seq<int>, node: int, rest: seq<int>)
    requires Draining(order, nodes, sub, inDegree, topOrder, [node] + rest)
    ensures node in nodes && node !in topOrder && topOrder + [node] + rest == topOrder + ([node] + rest)
    ensures Ordered(sub, topOrder + [node]) && DownClosed(sub, topOrder + [node])
    ensures |nodes - Elems(topOrder + [node])| < |nodes - Elems(topOrder)|
    ensures forall b :: b in nodes ==>
              inDegree[b] == Indeg(sub, order, Elems(topOrder + [node]), b) + multiset(sub[node])[b]
  {
    var all := topOrder + ([node] + rest);
    assert all[|topOrder|] == node;
    DistinctHead(topOrder, node, rest);
    assert node in all;
    assert topOrder + [node] + rest == all;
    var t := topOrder + [node];
    assert Elems(t) == Elems(topOrder) + {node};
    assert inDegree[node] == 0;
    forall a | a in sub && node in sub[a]
      ensures a in topOrder
    {
      if a !in Elems(topOrder) {
        IndegZero(sub, order, Elems(topOrder), node, a);
      }
    }
    Extend(sub, topOrder, node);
    assert nodes - Elems(t) == (nodes - Elems(topOrder)) - {node};
    forall b | b in nodes
      ensures inDegree[b] == Indeg(sub, order, Elems(t), b) + multiset(sub[node])[b]
    {
      IndegDone(sub, order, Elems(topOrder), node, b);
    }
  }

  lemma DistinctHead(s: seq<int>, x: int, rest: seq<int>)
    requires Distinct(s + ([x] + rest))
    ensures x !in s
  {
    var all := s + ([x] + rest);
    forall i | 0 <= i < |s|
      ensures s[i] != x
    {
      assert all[i] == s[i] && all[|s|] == x;
    }
  }

  /** Appending a page all of whose predecessors are emitted, and which is
      not emitted itself, keeps the emitted pages in order. */
  lemma Extend(sub: map<int, seq<int>>, t: seq<int>, node: int)
    requires Ordered(sub, t) && DownClosed(sub, t) && node !in t
    requires forall a :: a in sub && node in sub[a] ==> a in t
    ensures Ordered(sub, t + [node]) && DownClosed(sub, t + [node])
  {
    var t' := t + [node];
    forall i, j | 0 <= i < |t'| && 0 <= j < |t'| && t'[i] in sub && t'[j] in sub[t'[i]]
      ensures i < j
    {
      if i < |t| && j < |t| {
        assert t'[i] == t[i] && t'[j] == t[j];
      }
    }
    forall j, a | 0 <= j < |t'| && a in sub && t'[j] in sub[a]
      ensures a in t'
    {
      if j < |t| {
        assert t'[j] == t[j];
      }
    }
  }

  /** The inner loop of the fourth: one less incoming rule for each
      neighbour of `node`, queueing those that reach zero. */
  method Relax(order: seq<int>, nodes: set<int>, sub: map<int, seq<int>>, inDegree0: map<int, int>,
               topOrder: seq<int>, queue0: seq<int>, node: int)
    returns (inDegree: map<int, int>, queue: seq<int>)
    requires Fixed(order, nodes, sub) && inDegree0.Keys == nodes && node in nodes
    requires Distinct(topOrder + queue0) && forall x :: x in topOrder + queue0 ==> x in nodes
    requires forall b :: b in nodes ==>
               inDegree0[b] == Indeg(sub, order, Elems(topOrder), b) + multiset(sub[node])[b]
    requires forall x :: x in topOrder + queue0 ==> inDegree0[x] == 0
    requires Ordered(sub, topOrder) && DownClosed(sub, topOrder)
    ensures Draining(order, nodes, sub, inDegree, topOrder, queue)
    ensures (inDegree, queue) == RelaxSteps(inDegree0, queue0, sub[node])
  {
    inDegree, queue := inDegree0, queue0;
    var neighbours := sub[node];
    RelaxStart(order, nodes, sub, inDegree0, topOrder, queue0, node);
    assert neighbours[..0] == [];
    for j := 0 to |neighbours|
      invariant inDegree.Keys == nodes
      invariant (inDegree, queue) == RelaxSteps(inDegree0, queue0, neighbours[..j])
    {
      var neighbor := neighbours[j];
      ghost var inDegree1, queue1 := inDegree, queue;
      inDegree := inDegree[neighbor := inDegree[neighbor] - 1];
      if inDegree[neighbor] == 0 {
        queue := queue + [neighbor];
      }
      RelaxUnfold(inDegree0, queue0, neighbours, j, inDegree1, queue1, inDegree, queue);
    }
    assert neighbours[..|neighbours|] == neighbours;
    RelaxPrefix(order, nodes, sub, inDegree0, topOrder, queue0, neighbours, |neighbours|);
    assert neighbours[|neighbours|..] == [];
    RelaxDone(order, nodes, sub, inDegree, topOrder, queue);
  }

  /** After the first `k` decrements, the counts still include the rules
      from the targets from index `k` on. */
  lemma {:induction false} RelaxPrefix(order: seq<int>, nodes: set<int>, sub: map<int, seq<int>>,
                                       inDegree: map<int, int>, topOrder: seq<int>, queue: seq<int>,
                                       ns: seq<int>, k: int)
    requires Relaxing(order, nodes, sub, inDegree, topOrder, queue, ns) && 0 <= k <= |ns|
    ensures var r := RelaxSteps(inDegree, queue, ns[..k]);
            Relaxing(order, nodes, sub, r.0, topOrder, r.1, ns[k..])
    decreases k
  {
    if k == 0 {
      assert ns[..0] == [] && ns[0..] == ns;
    } else {
      RelaxPrefix(order, nodes, sub, inDegree, topOrder, queue, ns, k - 1);
      var r := RelaxSteps(inDegree, queue, ns[..k - 1]);
      assert ns[..k][..k - 1] == ns[..k - 1];
      RelaxKeeps(order, nodes, sub, r.0, topOrder, r.1, ns, k - 1);
    }
  }

  /** Before the inner loop every target of the emitted page is still counted. */
  lemma RelaxStart(order: seq<int>, nodes: set<int>, sub: map<int, seq<int>>, inDegree: map<int, int>,
                   topOrder: seq<int>, queue: seq<int>, node: int)
    requires Fixed(order, nodes, sub) && inDegree.Keys == nodes && node in nodes
    requires Distinct(topOrder + queue) && forall x :: x in topOrder + queue ==> x in nodes
    requires forall b :: b in nodes ==>
               inDegree[b] == Indeg(sub, order, Elems(topOrder), b) + multiset(sub[node])[b]
    requires forall x :: x in topOrder + queue ==> inDegree[x] == 0
    ensures Relaxing(order, nodes, sub, inDegree, topOrder, queue, sub[node])
  {
  }

  /** With no target left to visit, `Relaxing` is `Draining`. */
  lemma RelaxDone(order: seq<int>, nodes: set<int>, sub: map<int, seq<int>>, inDegree: map<int, int>,
                  topOrder: seq<int>, queue: seq<int>)
    requires Relaxing(order, nodes, sub, inDegree, topOrder, queue, [])
    requires Ordered(sub, topOrder) && DownClosed(sub, topOrder)
    ensures Draining(order, nodes, sub, inDegree, topOrder, queue)
  {
  }

  /** The state inside the inner loop: as `Draining`, except that each count
      still includes the rules from the targets `rest` not yet visited. */
  ghost predicate Relaxing(order: seq<int>, nodes: set<int>, sub: map<int, seq<int>>,
                           inDegree: map<int, int>, topOrder: seq<int>, queue: seq<int>, rest: seq<int>)
  {
    Fixed(order, nodes, sub) && inDegree.Keys == nodes &&
    Distinct(topOrder + queue) && (forall x :: x in topOrder + queue ==> x in nodes) &&
    (forall b :: b in nodes ==> inDegree[b] == Indeg(sub, order, Elems(topOrder), b) + multiset(rest)[b]) &&
    (forall x :: x in topOrder + queue ==> inDegree[x] == 0) &&
    (forall x :: x in rest ==> x in nodes)
  }

  /** One decrement of the inner loop keeps `Relaxing`: the visited target
      had a rule still counted, so it was neither emitted nor queued. */
  lemma RelaxKeeps(order: seq<int>, nodes: set<int>, sub: map<int, seq<int>>, inDegree: map<int, int>,
                   topOrder: seq<int>, queue: seq<int>, ns: seq<int>, j: int)
    requires 0 <= j < |ns| && Relaxing(order, nodes, sub, inDegree, topOrder, queue, ns[j..])
    ensures var n := ns[j];
            var d := inDegree[n] - 1;
            Relaxing(order, nodes, sub, inDegree[n := d], topOrder, if d == 0 then queue + [n] else queue, ns[j + 1..])
  {
    var n := ns[j];
    SliceCount(ns, j);
    assert n in ns[j..];
    assert n !in topOrder + queue;
    AppendAssoc(topOrder, queue, n);
    assert forall x :: x in ns[j + 1..] ==> x in ns[j..];
  }

  // ---------------------------------------------------------------------
  // Validation and answers

  /** `position[x]` after `position[page] = i` for every page of `t`: the
      last index of `x`, or Go's zero value when `x` is absent. */
  function PositionOf(t: seq<int>, x: int): nat
  {
    if |t| == 0 then 0
    else if t[|t| - 1] == x then |t| - 1
    else PositionOf(t[..|t| - 1], x)
  }

  /** In a sequence without repeats a page's position is its index. */
  lemma {:induction false} PositionSpec(t: seq<int>, k: int)
    requires Distinct(t) && 0 <= k < |t|
    ensures PositionOf(t, t[k]) == k
  {
    var last := |t| - 1;
    if k < last {
      assert t[last] != t[k];
      assert forall i, j :: 0 <= i < j < last ==> t[..last][i] == t[i] && t[..last][j] == t[j];
      PositionSpec(t[..last], k);
    }
  }

  /** The check `validateUpdate` makes: the same length, and the positions
      of consecutive pages never decrease. */
  predicate InOrder(update: seq<int>, t: seq<int>)
  {
    |t| == |update| &&
    forall i :: 0 <= i < |update| - 1 ==> PositionOf(t, update[i]) <= PositionOf(t, update[i + 1])
  }

  /** `validateUpdate`. */
  method ValidateUpdate(update: seq<int>, topOrder: seq<int>) returns (valid: bool)
    ensures valid == InOrder(update, topOrder)
  {
    if |topOrder| != |update| {
      return false;
    }
    var position: map<int, nat> := map[];
    for i := 0 to |topOrder|
      invariant forall x :: (if x in position then position[x] else 0) == PositionOf(topOrder[..i], x)
    {
      SliceSnoc(topOrder, i);
      position := position[topOrder[i] := i];
    }
    assert topOrder[..|topOrder|] == topOrder;
    var i := 0;
    while i < |update| - 1
      invariant 0 <= i && (i <= |update| - 1 || i == 0)
      invariant forall k :: 0 <= k < i ==> PositionOf(topOrder, update[k]) <= PositionOf(topOrder, update[k + 1])
    {
      var here := if update[i] in position then position[update[i]] else 0;
      var next := if update[i + 1] in position then position[update[i + 1]] else 0;
      if here > next {
        return false;
      }
      i := i + 1;
    }
    return true;
  }

  /** A sort that keeps distinct pages of the update confirms the update
      exactly when it is the update itself. */
  lemma ValidIffSame(update: seq<int>, t: seq<int>)
    requires Distinct(t) && Elems(t) <= Elems(update)
    ensures InOrder(update, t) <==> t == update
  {
    if t == update {
      forall i | 0 <= i < |update| - 1
        ensures PositionOf(t, update[i]) <= PositionOf(t, update[i + 1])
      {
        PositionSpec(t, i);
        PositionSpec(t, i + 1);
      }
    }
    if InOrder(update, t) {
      var n := |t|;
      DistinctCard(t);
      ElemsCard(update);
      SubsetCard(Elems(t), Elems(update));
      assert Elems(t) == Elems(update);
      var ps := seq(n, i requires 0 <= i < n => PositionOf(t, update[i]));
      forall i | 0 <= i < n
        ensures ps[i] < n && t[ps[i]] == update[i]
      {
        assert update[i] in Elems(t);
        var k :| 0 <= k < n && t[k] == update[i];
        PositionSpec(t, k);
      }
      forall i | 0 <= i < n - 1
        ensures ps[i] < ps[i + 1]
      {
        if ps[i] == ps[i + 1] {
          assert update[i] == update[i + 1];
          UpdateDistinct(update, t, i);
        }
      }
      Increasing(ps, n);
      assert t == update;
    }
  }

  /** With as many entries as distinct pages, an update has no repeats. */
  lemma UpdateDistinct(update: seq<int>, t: seq<int>, i: int)
    requires Distinct(t) && Elems(t) == Elems(update) && |t| == |update| && 0 <= i < |update| - 1
    ensures update[i] != update[i + 1]
  {
    DistinctCard(t);
    if update[i] == update[i + 1] {
      var shorter := update[..i + 1] + update[i + 2..];
      assert Elems(shorter) == Elems(update) by {
        assert update == update[..i + 1] + [update[i + 1]] + update[i + 2..];
      }
      ElemsCard(shorter);
    }
  }

  /** A strictly increasing sequence of `n` numbers below `n` counts up
      from zero. */
  lemma Increasing(ps: seq<int>, n: int)
    requires |ps| == n && forall i :: 0 <= i < n ==> 0 <= ps[i] < n
    requires forall i :: 0 <= i < n - 1 ==> ps[i] < ps[i + 1]
    ensures forall i :: 0 <= i < n ==> ps[i] == i
  {
    forall i | 0 <= i < n
      ensures ps[i] == i
    {
      AtLeast(ps, n, i);
      AtMost(ps, n, i);
    }
  }

  lemma {:induction false} AtLeast(ps: seq<int>, n: int, i: int)
    requires |ps| == n && forall k :: 0 <= k < n ==> 0 <= ps[k] < n
    requires forall k :: 0 <= k < n - 1 ==> ps[k] < ps[k + 1]
    requires 0 <= i < n
    ensures ps[i] >= i
  {
    if i > 0 {
      AtLeast(ps, n, i - 1);
    }
  }

  lemma {:induction false} AtMost(ps: seq<int>, n: int, i: int)
    requires |ps| == n && forall k :: 0 <= k < n ==> 0 <= ps[k] < n
    requires forall k :: 0 <= k < n - 1 ==> ps[k] < ps[k + 1]
    requires 0 <= i < n
    ensures ps[i] <= i
    decreases n - i
  {
    if i < n - 1 {
      AtMost(ps, n, i + 1);
    }
  }

  /** A sequence without repeats has as many elements as entries. */
  lemma {:induction false} DistinctCard(s: seq<int>)
    requires Distinct(s)
    ensures |Elems(s)| == |s|
  {
    if |s| > 0 {
      var last := |s| - 1;
      assert forall i, j :: 0 <= i < j < last ==> s[..last][i] == s[i] && s[..last][j] == s[j];
      DistinctCard(s[..last]);
      assert s == s[..last] + [s[last]];
      assert s[last] !in s[..last];
      assert Elems(s) == Elems(s[..last]) + {s[last]};
    }
  }

  /** No sequence has more elements than entries. */
  lemma {:induction false} ElemsCard(s: seq<int>)
    ensures |Elems(s)| <= |s|
  {
    if |s| > 0 {
      var last := |s| - 1;
      ElemsCard(s[..last]);
      assert s == s[..last] + [s[last]];
      assert Elems(s) == Elems(s[..last]) + {s[last]};
    }
  }

  lemma SubsetCard(a: set<int>, b: set<int>)
    requires a <= b && |a| >= |b|
    ensures a == b
  {
    var d := b - a;
    assert b == a + d && a * d == {};
    assert |b| == |a| + |d|;
    assert d == {};
  }

  /** `result[len(result)/2]`, which panics on an empty row. */
  function Middle(row: seq<int>): (r: Option<int>)
    ensures r.None? <==> |row| == 0
    ensures r.Some? ==> r.value in row
  {
    if |row| == 0 then None else Some(row[|row| / 2])
  }

  /** The sum of the middle pages, or None if some row is empty. */
  function SumMiddles(rows: seq<seq<int>>): (r: Option<int>)
    ensures r.None? <==> exists i :: 0 <= i < |rows| && |rows[i]| == 0
  {
    if |rows| == 0 then Some(0)
    else
      var last := |rows| - 1;
      assert forall i :: 0 <= i < last ==> rows[..last][i] == rows[i];
      match (SumMiddles(rows[..last]), Middle(rows[last]))
      case (Some(a), Some(b)) => Some(a + b)
      case _ => None
  }

  /** The updates whose sort reproduces them. */
  function Confirmed(updates: seq<seq<int>>, sorts: seq<seq<int>>): seq<seq<int>>
    requires |sorts| == |updates|
  {
    if |updates| == 0 then []
    else
      var last := |updates| - 1;
      Confirmed(updates[..last], sorts[..last]) + (if sorts[last] == updates[last] then [updates[last]] else [])
  }

  /** The sorts of the updates they do not reproduce. */
  function Reordered(updates: seq<seq<int>>, sorts: seq<seq<int>>): seq<seq<int>>
    requires |sorts| == |updates|
  {
    if |updates| == 0 then []
    else
      var last := |updates| - 1;
      Reordered(updates[..last], sorts[..last]) + (if sorts[last] != updates[last] then [sorts[last]] else [])
  }

  /** The pages of an update sort and the two range orders Go uses for it. */
  predicate Orders(updates: seq<seq<int>>, orders: seq<(seq<int>, seq<int>)>)
  {
    |orders| == |updates| &&
    forall i :: 0 <= i < |updates| ==> Enumerates(orders[i].0, updates[i]) && Enumerates(orders[i].1, updates[i])
  }

  /** `sorts` are the results of `topologicalSort` on the first updates,
      in the map orders `orders` gives them. */
  ghost predicate SortedBy(updates: seq<seq<int>>, graph: Graph, orders: seq<(seq<int>, seq<int>)>, sorts: seq<seq<int>>)
  {
    |sorts| <= |updates| && |sorts| <= |orders| &&
    forall k :: 0 <= k < |sorts| ==>
      sorts[k] == KahnSort(updates[k], graph, orders[k].0, orders[k].1) && TopoSorted(sorts[k], updates[k], graph)
  }

  lemma SortedBySnoc(updates: seq<seq<int>>, graph: Graph, orders: seq<(seq<int>, seq<int>)>, sorts: seq<seq<int>>,
                     t: seq<int>)
    requires SortedBy(updates, graph, orders, sorts) && |sorts| < |updates| && |sorts| < |orders|
    requires t == KahnSort(updates[|sorts|], graph, orders[|sorts|].0, orders[|sorts|].1)
    requires TopoSorted(t, updates[|sorts|], graph)
    ensures SortedBy(updates, graph, orders, sorts + [t])
  {
  }

  /** Sorting and validating every update, keeping what `keep` selects. */
  method SortAll(updates: seq<seq<int>>, graph: Graph, orders: seq<(seq<int>, seq<int>)>, confirmed: bool)
    returns (rows: seq<seq<int>>, ghost sorts: seq<seq<int>>)
    requires Orders(updates, orders)
    ensures |sorts| == |updates| && forall i :: 0 <= i < |updates| ==> TopoSorted(sorts[i], updates[i], graph)
    ensures forall i :: 0 <= i < |updates| ==> sorts[i] == KahnSort(updates[i], graph, orders[i].0, orders[i].1)
    ensures rows == if confirmed then Confirmed(updates, sorts) else Reordered(updates, sorts)
  {
    rows, sorts := [], [];
    for i := 0 to |updates|
      invariant |sorts| == i && SortedBy(updates, graph, orders, sorts)
      invariant rows == if confirmed then Confirmed(updates[..i], sorts) else Reordered(updates[..i], sorts)
    {
      var update := updates[i];
      var topSort := TopologicalSort(update, graph, orders[i].0, orders[i].1);
      var valid := ValidateUpdate(update, topSort);
      ValidIffSame(update, topSort);
      ghost var prev := sorts;
      SortedBySnoc(updates, graph, orders, sorts, topSort);
      sorts := sorts + [topSort];
      SelectSnoc(updates, prev, i, topSort);
      if confirmed && valid {
        rows := rows + [update];
      } else if !confirmed && !valid {
        rows := rows + [topSort];
      }
    }
    assert updates[..|updates|] == updates;
  }

  lemma SelectSnoc(updates: seq<seq<int>>, sorts: seq<seq<int>>, i: int, t: seq<int>)
    requires 0 <= i < |updates| && |sorts| == i
    ensures Confirmed(updates[..i + 1], sorts + [t]) ==
            Confirmed(updates[..i], sorts) + (if t == updates[i] then [updates[i]] else [])
    ensures Reordered(updates[..i + 1], sorts + [t]) ==
            Reordered(updates[..i], sorts) + (if t != updates[i] then [t] else [])
  {
    assert updates[..i + 1][..i] == updates[..i];
    assert (sorts + [t])[..i] == sorts;
  }

  /** The summing loop over the rows sent to the channel. */
  method AddMiddles(rows: seq<seq<int>>) returns (res: Option<int>)
    ensures res == SumMiddles(rows)
  {
    var sum := 0;
    for i := 0 to |rows|
      invariant SumMiddles(rows[..i]) == Some(sum)
    {
      assert rows[..i + 1][..i] == rows[..i];
      if |rows[i]| == 0 {
        assert |rows[..i + 1][i]| == 0;
        MiddlesFail(rows, i);
        return None;
      }
      sum := sum + rows[i][|rows[i]| / 2];
    }
    assert rows[..|rows|] == rows;
    return Some(sum);
  }

  lemma MiddlesFail(rows: seq<seq<int>>, i: int)
    requires 0 <= i < |rows| && |rows[i]| == 0
    ensures SumMiddles(rows).None?
  {
  }

  /** `part1`: the middle pages of the updates the rules already order. */
  method Part1(graph: Graph, updates: seq<seq<int>>, orders: seq<(seq<int>, seq<int>)>)
    returns (res: Option<int>, ghost sorts: seq<seq<int>>)
    requires Orders(updates, orders)
    ensures |sorts| == |updates| && forall i :: 0 <= i < |updates| ==> TopoSorted(sorts[i], updates[i], graph)
    ensures forall i :: 0 <= i < |updates| ==> sorts[i] == KahnSort(updates[i], graph, orders[i].0, orders[i].1)
    ensures res == SumMiddles(Confirmed(updates, sorts))
  {
    var rows;
    rows, sorts := SortAll(updates, graph, orders, true);
    res := AddMiddles(rows);
  }

  /** `part2`: the middle pages of the sorts of the other updates. */
  method Part2(graph: Graph, updates: seq<seq<int>>, orders: seq<(seq<int>, seq<int>)>)
    returns (res: Option<int>, ghost sorts: seq<seq<int>>)
    requires Orders(updates, orders)
    ensures |sorts| == |updates| && forall i :: 0 <= i < |updates| ==> TopoSorted(sorts[i], updates[i], graph)
    ensures forall i :: 0 <= i < |updates| ==> sorts[i] == KahnSort(updates[i], graph, orders[i].0, orders[i].1)
    ensures res == SumMiddles(Reordered(updates, sorts))
  {
    var rows;
    rows, sorts := SortAll(updates, graph, orders, false);
    res := AddMiddles(rows);
  }

  /** Each confirmed update obeys every rule between its pages. */
  lemma {:induction false} ConfirmedObeys(updates: seq<seq<int>>, sorts: seq<seq<int>>, graph: Graph)
    requires |sorts| == |updates| && forall i :: 0 <= i < |updates| ==> TopoSorted(sorts[i], updates[i], graph)
    ensures forall u :: u in Confirmed(updates, sorts) ==>
              forall i, j :: 0 <= i < |u| && 0 <= j < |u| && u[j] in Succ(graph, u[i]) ==> i < j
  {
    if |updates| > 0 {
      var last := |updates| - 1;
      ConfirmedObeys(updates[..last], sorts[..last], graph);
    }
  }
}
