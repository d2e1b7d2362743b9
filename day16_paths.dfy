/** Day 16, part 2: `findAllMinPathsAndSpaces` searches the maze again,
    now without a visited set: each state keeps the best score found for
    it and the states it was reached from at that score (`cost` and
    `pred`); `backtrack` then follows `pred` back from the cheapest end
    states and collects the tiles it passes. */
module Day16Paths {
  import opened Wrappers
  import HashSetUtil
  import opened Day16

  /** `costInfo`: the best score found for a state and the number of
      states it was reached from at that score. */
  datatype CostInfo = CostInfo(cost: int, paths: int)

  type Costs = map<State, CostInfo>

  type Preds = map<State, seq<State>>

  /** Go's `math.MaxInt` on a 64-bit platform. */
  const MaxInt := 0x7fff_ffff_ffff_ffff

  /** The predecessors of `s`; a missing key reads as Go's nil slice. */
  function Get(pred: Preds, s: State): seq<State>
  {
    if s in pred then pred[s] else []
  }

  /** The score of `s`; a missing key reads as the zero `costInfo`. */
  function CostOf(cost: Costs, s: State): int
  {
    if s in cost then cost[s].cost else 0
  }

  predicate NoRepeats(s: seq<State>)
  {
    forall i, j :: 0 <= i < j < |s| ==> s[i] != s[j]
  }

  /** Only scored states have predecessors, each `paths` counts its
      state's predecessors, and no predecessor is listed twice. */
  predicate Counted(cost: Costs, pred: Preds)
  {
    pred.Keys <= cost.Keys &&
    forall s :: s in cost ==> cost[s].paths == |Get(pred, s)| && NoRepeats(Get(pred, s))
  }

  /** `b` has been reached from `v`, scored `c`, for no more than the move
      costs, and when that is exactly its score `v` is among its
      predecessors. */
  predicate Relaxed(cost: Costs, pred: Preds, v: State, c: int, b: State)
  {
    b in cost && cost[b].cost <= c + Weight(v, b) &&
    (cost[b].cost == c + Weight(v, b) ==> v in Get(pred, b))
  }

  /** What one relaxation of `findAllMinPathsAndSpaces` does when `b` is
      reached from `v` for `c` (`r` holds the new scores, the new
      predecessors and whether the item is pushed): only `b` changes; the
      item is pushed exactly when `b` had no score or a dearer one, and
      then `b` is scored `c` with `v` as its one predecessor; otherwise the
      score stays, and an equal score gains `v` as a predecessor unless it
      is listed already; the counts stay those of the predecessor lists. */
  ghost predicate Relaxes(cost: Costs, pred: Preds, v: State, b: State, c: int, r: (Costs, Preds, bool))
  {
    r.0.Keys == cost.Keys + {b} && r.1.Keys <= pred.Keys + {b} &&
    (forall s {:trigger r.0[s]} :: s in cost && s != b ==> r.0[s] == cost[s]) &&
    (forall s {:trigger Get(r.1, s)} :: s != b ==> Get(r.1, s) == Get(pred, s)) &&
    (r.2 <==> (b !in cost || c < cost[b].cost)) &&
    (r.2 ==> r.0[b].cost == c && Get(r.1, b) == [v]) &&
    (!r.2 ==> r.0[b].cost == cost[b].cost &&
              Get(r.1, b) == if c == cost[b].cost && v !in Get(pred, b) then Get(pred, b) + [v] else Get(pred, b)) &&
    (Counted(cost, pred) ==> Counted(r.0, r.1))
  }

  /** One relaxation of `findAllMinPathsAndSpaces`: a missing or dearer
      score is replaced, `v` becomes the one predecessor and the item is
      to be pushed; an equal score gains `v` as a predecessor unless it is
      listed already and counts one more. */
  method Relax(cost: Costs, pred: Preds, v: State, b: State, c: int) returns (r: (Costs, Preds, bool))
    ensures Relaxes(cost, pred, v, b, c, r)
  {
    if b !in cost || c < cost[b].cost {
      r := (cost[b := CostInfo(c, 1)], pred[b := [v]], true);
    } else if c == cost[b].cost && v !in Get(pred, b) {
      r := (cost[b := CostInfo(c, cost[b].paths + 1)], pred[b := Get(pred, b) + [v]], false);
      if Counted(cost, pred) {
        forall s | s in r.0
          ensures r.0[s].paths == |Get(r.1, s)| && NoRepeats(Get(r.1, s))
        {
          if s == b {
            assert Get(r.1, b) == Get(pred, b) + [v];
          }
        }
      }
    } else {
      r := (cost, pred, false);
    }
  }

  /** A relaxation never raises a score, leaves `b` scored no higher than
      `c`, and at score `c` lists `v` among its predecessors. */
  lemma RelaxLowers(cost: Costs, pred: Preds, v: State, b: State, c: int, r: (Costs, Preds, bool))
    requires Relaxes(cost, pred, v, b, c, r)
    ensures b in r.0 && r.0[b].cost <= c && (b in cost ==> r.0[b].cost <= cost[b].cost)
    ensures r.0[b].cost == c ==> v in Get(r.1, b)
  {
  }

  /** A relaxation keeps every earlier one: scores only fall, and a score
      that stays keeps its predecessors. */
  lemma RelaxKeeps(cost: Costs, pred: Preds, v: State, b: State, c: int, r: (Costs, Preds, bool),
                   u: State, cu: int, x: State)
    requires Relaxes(cost, pred, v, b, c, r) && Relaxed(cost, pred, u, cu, x)
    ensures Relaxed(r.0, r.1, u, cu, x)
  {
  }

  // ---------------------------------------------------------------------
  // The search of findAllMinPathsAndSpaces

  /** The item pushed first: the start, facing East, for 0. */
  function StartItem(start: Pos): Item
  {
    ItemOf(Begin(start), 0)
  }

  /** Every walk kept for an item other than the first makes a move. */
  ghost predicate Long(start: Pos, paths: map<Item, seq<State>>)
  {
    forall x :: x in paths && x != StartItem(start) ==> |paths[x]| >= 2
  }

  /** Every item taken off the queue left its state expanded for no more
      than its cost; each expanded state was expanded from such an item.
      `settled` keeps the score of each state's first expansion. */
  ghost predicate Done(popped: set<Item>, settled: map<State, int>)
  {
    (forall y {:trigger y in popped} :: y in popped ==> StateOf(y) in settled && settled[StateOf(y)] <= y.cost) &&
    (forall v {:trigger ItemOf(v, settled[v])} :: v in settled ==> ItemOf(v, settled[v]) in popped)
  }

  /** Every move out of an expanded state, but those of the state being
      expanded, has been relaxed. */
  ghost predicate AllRelaxed(grid: Grid, cost: Costs, pred: Preds, settled: map<State, int>, except: set<State>)
  {
    forall v, b :: v in settled && v !in except && Step(grid, v, b) ==> Relaxed(cost, pred, v, settled[v], b)
  }

  /** Every score was pushed as an item. */
  ghost predicate Recorded(frontier: multiset<Item>, popped: set<Item>, cost: Costs)
  {
    forall s :: s in cost ==> Pushed(frontier, popped, ItemOf(s, cost[s].cost))
  }

  /** Every predecessor is one move before its state. */
  ghost predicate PredSteps(grid: Grid, pred: Preds)
  {
    forall b, i :: 0 <= i < |Get(pred, b)| ==> Step(grid, Get(pred, b)[i], b)
  }

  /** Every score is at least 1 but the seeded start's, which stays 0. */
  ghost predicate Scores(start: Pos, seeded: bool, cost: Costs)
  {
    (forall s :: s in cost ==> cost[s].cost >= 1 || (seeded && s == Begin(start) && cost[s].cost == 0)) &&
    (seeded ==> Begin(start) in cost && cost[Begin(start)].cost == 0)
  }

  /** The state of the search of `findAllMinPathsAndSpaces`. */
  ghost predicate Explored(grid: Grid, start: Pos, seeded: bool, frontier: multiset<Item>, popped: set<Item>,
                           settled: map<State, int>, level: int, paths: map<Item, seq<State>>,
                           cost: Costs, pred: Preds, except: set<State>)
  {
    DWalks(grid, start, frontier, popped, paths) && Long(start, paths) &&
    DLevels(frontier, popped, level) &&
    Done(popped, settled) &&
    AllRelaxed(grid, cost, pred, settled, except) &&
    Recorded(frontier, popped, cost) &&
    Pushed(frontier, popped, StartItem(start)) &&
    Counted(cost, pred) && PredSteps(grid, pred) && Scores(start, seeded, cost)
  }

  /** The bounds that end the search: each state not yet scored is in
      `unscored`, and `budget` holds every pair of a scored state and a
      score below its own. A new score shrinks `unscored`, a better score
      shrinks `budget`. */
  ghost predicate Bounds(grid: Grid, start: Pos, cost: Costs, unscored: set<State>, budget: set<(State, int)>)
  {
    (forall v {:trigger InBox(grid, start, v)} :: InBox(grid, start, v) && v !in cost ==> v in unscored) &&
    (forall s, c {:trigger (s, c) in budget} :: s in cost && 0 <= c < cost[s].cost ==> (s, c) in budget)
  }

  /** The search has not gone backwards: fewer unscored states, or as
      many and a smaller budget, or both the same and no longer a queue. */
  predicate Progress(unscored: set<State>, budget: set<(State, int)>, frontier: multiset<Item>,
                     unscored0: set<State>, budget0: set<(State, int)>, frontier0: multiset<Item>)
  {
    |unscored| < |unscored0| ||
    (|unscored| == |unscored0| && |budget| < |budget0|) ||
    (|unscored| == |unscored0| && |budget| == |budget0| && |frontier| <= |frontier0|)
  }

  /** A stale item, dearer than its state's score, is passed over. */
  lemma Stale(grid: Grid, start: Pos, seeded: bool, frontier: multiset<Item>, popped: set<Item>,
              settled: map<State, int>, level: int, paths: map<Item, seq<State>>,
              cost: Costs, pred: Preds, item: Item)
    requires Explored(grid, start, seeded, frontier, popped, settled, level, paths, cost, pred, {})
    requires Least(frontier, item) && StateOf(item) in cost && item.cost > cost[StateOf(item)].cost
    ensures Explored(grid, start, seeded, frontier - multiset{item}, popped + {item}, settled, item.cost, paths, cost, pred, {})
  {
    Take(grid, start, frontier, popped, level, paths, item);
    TakeCovers(frontier, popped, item);
    RecordedCovered(frontier, popped, cost, frontier - multiset{item}, popped + {item});
    StaleDone(frontier, popped, settled, level, cost, item);
  }

  lemma StaleDone(frontier: multiset<Item>, popped: set<Item>, settled: map<State, int>, level: int, cost: Costs, item: Item)
    requires Done(popped, settled) && DLevels(frontier, popped, level) && Recorded(frontier, popped, cost)
    requires Least(frontier, item) && StateOf(item) in cost && item.cost > cost[StateOf(item)].cost
    ensures Done(popped + {item}, settled)
  {
    var s := StateOf(item);
    assert Pushed(frontier, popped, ItemOf(s, cost[s].cost));
    assert ItemOf(s, cost[s].cost) in popped;
  }

  lemma RecordedCovered(f: multiset<Item>, p: set<Item>, cost: Costs, f2: multiset<Item>, p2: set<Item>)
    requires Recorded(f, p, cost) && Covers(f, p, f2, p2)
    ensures Recorded(f2, p2, cost)
  {
  }

  /** An item no dearer than its state's score is expanded; the first
      expansion of a state settles it at the item's cost. */
  lemma Fresh(grid: Grid, start: Pos, seeded: bool, frontier: multiset<Item>, popped: set<Item>,
              settled: map<State, int>, level: int, paths: map<Item, seq<State>>,
              cost: Costs, pred: Preds, item: Item)
    returns (settled': map<State, int>, except: set<State>)
    requires Explored(grid, start, seeded, frontier, popped, settled, level, paths, cost, pred, {})
    requires Least(frontier, item)
    ensures settled' == if StateOf(item) in settled then settled else settled[StateOf(item) := item.cost]
    ensures except == if StateOf(item) in settled then {} else {StateOf(item)}
    ensures StateOf(item) in settled' && settled'[StateOf(item)] <= item.cost
    ensures Explored(grid, start, seeded, frontier - multiset{item}, popped + {item}, settled', item.cost, paths, cost, pred, except)
  {
    var s := StateOf(item);
    Take(grid, start, frontier, popped, level, paths, item);
    TakeCovers(frontier, popped, item);
    RecordedCovered(frontier, popped, cost, frontier - multiset{item}, popped + {item});
    if s in settled {
      settled', except := settled, {};
      assert ItemOf(s, settled[s]) in popped;
    } else {
      settled', except := settled[s := item.cost], {s};
      FreshRelaxed(grid, cost, pred, settled, s, item.cost);
    }
  }

  lemma FreshRelaxed(grid: Grid, cost: Costs, pred: Preds, settled: map<State, int>, s: State, c: int)
    requires AllRelaxed(grid, cost, pred, settled, {}) && s !in settled
    ensures AllRelaxed(grid, cost, pred, settled[s := c], {s})
  {
  }

  /** The queue and walks after a relaxation that pushes `next`. */
  lemma RelaxWalks(grid: Grid, start: Pos, frontier: multiset<Item>, popped: set<Item>, level: int,
                   paths: map<Item, seq<State>>, item: Item, next: Item)
    requires DWalks(grid, start, frontier, popped, paths) && Long(start, paths) && DLevels(frontier, popped, level)
    requires item in popped && item.cost == level && Step(grid, StateOf(item), StateOf(next))
    requires next.cost == item.cost + Weight(StateOf(item), StateOf(next))
    ensures DWalks(grid, start, frontier + multiset{next}, popped, paths[next := paths[item] + [StateOf(next)]])
    ensures Long(start, paths[next := paths[item] + [StateOf(next)]])
    ensures DLevels(frontier + multiset{next}, popped, level)
  {
    assert WalkTo(grid, start, paths, item);
    PushWalks(grid, start, frontier, popped, paths, item, next);
    PushLevels(frontier, popped, level, next);
  }

  /** Every relaxation already made survives one more. */
  lemma RelaxAll(grid: Grid, cost: Costs, pred: Preds, settled: map<State, int>, except: set<State>,
                 u: State, b: State, c: int, r: (Costs, Preds, bool))
    requires AllRelaxed(grid, cost, pred, settled, except) && Relaxes(cost, pred, u, b, c, r)
    ensures AllRelaxed(grid, r.0, r.1, settled, except)
  {
    forall v, x | v in settled && v !in except && Step(grid, v, x)
      ensures Relaxed(r.0, r.1, v, settled[v], x)
    {
      RelaxKeeps(cost, pred, u, b, c, r, v, settled[v], x);
    }
  }

  /** A relaxation lists as predecessor only the state it moves out of. */
  lemma RelaxPreds(grid: Grid, cost: Costs, pred: Preds, u: State, b: State, c: int, r: (Costs, Preds, bool))
    requires PredSteps(grid, pred) && Step(grid, u, b) && Relaxes(cost, pred, u, b, c, r)
    ensures PredSteps(grid, r.1)
  {
    RelaxLowers(cost, pred, u, b, c, r);
    forall x, i | 0 <= i < |Get(r.1, x)|
      ensures Step(grid, Get(r.1, x)[i], x)
    {
      if x != b {
        assert Get(r.1, x) == Get(pred, x);
      } else if Get(r.1, b)[i] != u {
        assert Get(r.1, b) == Get(pred, b) + [u] || Get(r.1, b) == Get(pred, b);
        assert Step(grid, Get(pred, b)[i], b);
      }
    }
  }

  /** A relaxation for at least 1 keeps the scores positive and the
      seeded start's 0. */
  lemma RelaxScores(start: Pos, seeded: bool, cost: Costs, pred: Preds, u: State, b: State, c: int, r: (Costs, Preds, bool))
    requires Scores(start, seeded, cost) && c >= 1 && Relaxes(cost, pred, u, b, c, r)
    ensures Scores(start, seeded, r.0)
  {
    RelaxLowers(cost, pred, u, b, c, r);
  }

  /** The record of pushed scores after a relaxation. */
  lemma RelaxRecorded(frontier: multiset<Item>, popped: set<Item>, cost: Costs, pred: Preds, u: State, b: State, c: int,
                      r: (Costs, Preds, bool), f: multiset<Item>)
    requires Recorded(frontier, popped, cost) && Relaxes(cost, pred, u, b, c, r)
    requires f == if r.2 then frontier + multiset{ItemOf(b, c)} else frontier
    ensures Recorded(f, popped, r.0)
  {
    RelaxLowers(cost, pred, u, b, c, r);
    PushCovers(frontier, popped, ItemOf(b, c));
    forall s | s in r.0
      ensures Pushed(f, popped, ItemOf(s, r.0[s].cost))
    {
      if s != b || !r.2 {
        assert Pushed(frontier, popped, ItemOf(s, cost[s].cost));
      }
    }
  }

  /** The bounds after a relaxation: a new score takes its state out of
      `unscored`; a better one takes its pair out of `budget`. */
  lemma RelaxBounds(grid: Grid, start: Pos, frontier: multiset<Item>, cost: Costs, pred: Preds,
                    unscored: set<State>, budget: set<(State, int)>, u: State, b: State, c: int,
                    r: (Costs, Preds, bool), f: multiset<Item>)
    returns (unscored': set<State>, budget': set<(State, int)>)
    requires Bounds(grid, start, cost, unscored, budget) && InBox(grid, start, b) && c >= 0
    requires Relaxes(cost, pred, u, b, c, r) && f == if r.2 then frontier + multiset{ItemOf(b, c)} else frontier
    ensures Bounds(grid, start, r.0, unscored', budget')
    ensures Progress(unscored', budget', f, unscored, budget, frontier)
  {
    RelaxLowers(cost, pred, u, b, c, r);
    if !r.2 {
      unscored', budget' := unscored, budget;
    } else {
      if b !in cost {
        unscored', budget' := NewScore(grid, start, cost, unscored, budget, b, c, r.0);
      } else {
        unscored', budget' := BetterScore(grid, start, cost, unscored, budget, b, c, r.0);
      }
    }
  }

  lemma NewScore(grid: Grid, start: Pos, cost: Costs, unscored: set<State>, budget: set<(State, int)>,
                 b: State, c: int, cost': Costs)
    returns (unscored': set<State>, budget': set<(State, int)>)
    requires (forall v {:trigger InBox(grid, start, v)} :: InBox(grid, start, v) && v !in cost ==> v in unscored)
    requires (forall s, k {:trigger (s, k) in budget} :: s in cost && 0 <= k < cost[s].cost ==> (s, k) in budget)
    requires InBox(grid, start, b) && b !in cost && cost'.Keys == cost.Keys + {b} && cost'[b].cost == c
    requires forall s :: s in cost && s != b ==> cost'[s] == cost[s]
    ensures (forall v {:trigger InBox(grid, start, v)} :: InBox(grid, start, v) && v !in cost' ==> v in unscored')
    ensures (forall s, k {:trigger (s, k) in budget'} :: s in cost' && 0 <= k < cost'[s].cost ==> (s, k) in budget')
    ensures |unscored'| < |unscored|
  {
    unscored' := unscored - {b};
    budget' := budget + set k | 0 <= k < c :: (b, k);
    Day16.Shrinks(unscored, b);
    forall s, k | s in cost' && 0 <= k < cost'[s].cost
      ensures (s, k) in budget'
    {
      if s != b {
        assert (s, k) in budget;
      }
    }
  }

  lemma BetterScore(grid: Grid, start: Pos, cost: Costs, unscored: set<State>, budget: set<(State, int)>,
                    b: State, c: int, cost': Costs)
    returns (unscored': set<State>, budget': set<(State, int)>)
    requires (forall v {:trigger InBox(grid, start, v)} :: InBox(grid, start, v) && v !in cost ==> v in unscored)
    requires (forall s, k {:trigger (s, k) in budget} :: s in cost && 0 <= k < cost[s].cost ==> (s, k) in budget)
    requires b in cost && 0 <= c < cost[b].cost && cost'.Keys == cost.Keys && cost'[b].cost == c
    requires forall s :: s in cost && s != b ==> cost'[s] == cost[s]
    ensures (forall v {:trigger InBox(grid, start, v)} :: InBox(grid, start, v) && v !in cost' ==> v in unscored')
    ensures (forall s, k {:trigger (s, k) in budget'} :: s in cost' && 0 <= k < cost'[s].cost ==> (s, k) in budget')
    ensures unscored' == unscored && |budget'| < |budget|
  {
    assert (b, c) in budget;
    unscored' := unscored;
    budget' := budget - {(b, c)};
    Day16.Shrinks(budget, (b, c));
    forall s, k | s in cost' && 0 <= k < cost'[s].cost
      ensures (s, k) in budget'
    {
      assert (s, k) in budget;
    }
  }

  // ---------------------------------------------------------------------
  // One expansion

  /** The search while an item is expanded: with `k` at -1 nothing is
      relaxed yet, at 0 the step forward is (when it enters an open tile),
      and from then on the first `k` turns too. */
  ghost predicate Exploring(grid: Grid, start: Pos, seeded: bool, frontier: multiset<Item>, popped: set<Item>,
                            settled: map<State, int>, level: int, paths: map<Item, seq<State>>,
                            cost: Costs, pred: Preds, except: set<State>,
                            unscored: set<State>, budget: set<(State, int)>,
                            frontier0: multiset<Item>, unscored0: set<State>, budget0: set<(State, int)>,
                            item: Item, k: int)
  {
    Explored(grid, start, seeded, frontier, popped, settled, level, paths, cost, pred, except) &&
    Bounds(grid, start, cost, unscored, budget) &&
    Progress(unscored, budget, frontier, unscored0, budget0, frontier0) &&
    InBox(grid, start, StateOf(item)) && item in popped && item.cost == level &&
    (except == {} || (except == {StateOf(item)} && StateOf(item) in settled && settled[StateOf(item)] == item.cost)) &&
    ((k >= 0 && Open(grid, Ahead(StateOf(item)).pos)) ==> Relaxed(cost, pred, StateOf(item), item.cost, Ahead(StateOf(item)))) &&
    (k > 0 ==> Relaxed(cost, pred, StateOf(item), item.cost, Turn(StateOf(item), Rotations[0]))) &&
    (k > 1 ==> Relaxed(cost, pred, StateOf(item), item.cost, Turn(StateOf(item), Rotations[1])))
  }

  lemma ProgressTrans(u0: set<State>, b0: set<(State, int)>, f0: multiset<Item>,
                      u1: set<State>, b1: set<(State, int)>, f1: multiset<Item>,
                      u2: set<State>, b2: set<(State, int)>, f2: multiset<Item>)
    requires Progress(u1, b1, f1, u0, b0, f0) && Progress(u2, b2, f2, u1, b1, f1)
    ensures Progress(u2, b2, f2, u0, b0, f0)
  {
  }

  /** Relaxing a move out of the expanded item keeps the search and every
      relaxation made so far, and makes this one. */
  lemma RelaxStep(grid: Grid, start: Pos, seeded: bool, frontier: multiset<Item>, popped: set<Item>,
                  settled: map<State, int>, level: int, paths: map<Item, seq<State>>,
                  cost: Costs, pred: Preds, except: set<State>,
                  unscored: set<State>, budget: set<(State, int)>,
                  frontier0: multiset<Item>, unscored0: set<State>, budget0: set<(State, int)>,
                  item: Item, k: int, b: State, r: (Costs, Preds, bool), f: multiset<Item>, paths': map<Item, seq<State>>)
    returns (unscored': set<State>, budget': set<(State, int)>)
    requires Exploring(grid, start, seeded, frontier, popped, settled, level, paths, cost, pred, except,
                       unscored, budget, frontier0, unscored0, budget0, item, k)
    requires Step(grid, StateOf(item), b) && InBox(grid, start, b)
    requires Relaxes(cost, pred, StateOf(item), b, item.cost + Weight(StateOf(item), b), r)
    requires f == if r.2 then frontier + multiset{ItemOf(b, item.cost + Weight(StateOf(item), b))} else frontier
    requires paths' == if r.2 then paths[ItemOf(b, item.cost + Weight(StateOf(item), b)) := paths[item] + [b]] else paths
    ensures Exploring(grid, start, seeded, f, popped, settled, level, paths', r.0, r.1, except,
                      unscored', budget', frontier0, unscored0, budget0, item, k)
    ensures Relaxed(r.0, r.1, StateOf(item), item.cost, b)
  {
    RelaxSearch(grid, start, seeded, frontier, popped, settled, level, paths, cost, pred, except,
                item, b, r, f, paths');
    unscored', budget' := RelaxBounds(grid, start, frontier, cost, pred, unscored, budget, StateOf(item), b,
                                      item.cost + Weight(StateOf(item), b), r, f);
    ProgressTrans(unscored0, budget0, frontier0, unscored, budget, frontier, unscored', budget', f);
    RelaxTracked(grid, cost, pred, item, k, b, r);
  }

  lemma RelaxSearch(grid: Grid, start: Pos, seeded: bool, frontier: multiset<Item>, popped: set<Item>,
                    settled: map<State, int>, level: int, paths: map<Item, seq<State>>,
                    cost: Costs, pred: Preds, except: set<State>,
                    item: Item, b: State, r: (Costs, Preds, bool), f: multiset<Item>, paths': map<Item, seq<State>>)
    requires Explored(grid, start, seeded, frontier, popped, settled, level, paths, cost, pred, except)
    requires item in popped && item.cost == level
    requires Step(grid, StateOf(item), b) && InBox(grid, start, b)
    requires Relaxes(cost, pred, StateOf(item), b, item.cost + Weight(StateOf(item), b), r)
    requires f == if r.2 then frontier + multiset{ItemOf(b, item.cost + Weight(StateOf(item), b))} else frontier
    requires paths' == if r.2 then paths[ItemOf(b, item.cost + Weight(StateOf(item), b)) := paths[item] + [b]] else paths
    ensures Explored(grid, start, seeded, f, popped, settled, level, paths', r.0, r.1, except)
  {
    var c := item.cost + Weight(StateOf(item), b);
    RelaxQueue(grid, start, frontier, popped, level, paths, cost, pred, item, b, c, r, f, paths');
    RelaxTables(grid, start, seeded, cost, pred, settled, except, StateOf(item), b, c, r);
  }

  /** The queue, the walks and the record of pushed scores after a
      relaxation. */
  lemma RelaxQueue(grid: Grid, start: Pos, frontier: multiset<Item>, popped: set<Item>, level: int,
                   paths: map<Item, seq<State>>, cost: Costs, pred: Preds,
                   item: Item, b: State, c: int, r: (Costs, Preds, bool), f: multiset<Item>, paths': map<Item, seq<State>>)
    requires DWalks(grid, start, frontier, popped, paths) && Long(start, paths) && DLevels(frontier, popped, level)
    requires Recorded(frontier, popped, cost) && Pushed(frontier, popped, StartItem(start))
    requires item in popped && item.cost == level && Step(grid, StateOf(item), b)
    requires c == item.cost + Weight(StateOf(item), b) && Relaxes(cost, pred, StateOf(item), b, c, r)
    requires f == if r.2 then frontier + multiset{ItemOf(b, c)} else frontier
    requires paths' == if r.2 then paths[ItemOf(b, c) := paths[item] + [b]] else paths
    ensures DWalks(grid, start, f, popped, paths') && Long(start, paths') && DLevels(f, popped, level)
    ensures Recorded(f, popped, r.0) && Pushed(f, popped, StartItem(start))
  {
    var next := ItemOf(b, c);
    assert StateOf(next) == b;
    if r.2 {
      RelaxWalks(grid, start, frontier, popped, level, paths, item, next);
    }
    RelaxRecorded(frontier, popped, cost, pred, StateOf(item), b, c, r, f);
    PushCovers(frontier, popped, next);
  }

  /** The tables after a relaxation. */
  lemma RelaxTables(grid: Grid, start: Pos, seeded: bool, cost: Costs, pred: Preds, settled: map<State, int>,
                    except: set<State>, u: State, b: State, c: int, r: (Costs, Preds, bool))
    requires AllRelaxed(grid, cost, pred, settled, except) && Counted(cost, pred) && PredSteps(grid, pred)
    requires Scores(start, seeded, cost) && Step(grid, u, b) && c >= 1 && Relaxes(cost, pred, u, b, c, r)
    ensures AllRelaxed(grid, r.0, r.1, settled, except) && Counted(r.0, r.1) && PredSteps(grid, r.1)
    ensures Scores(start, seeded, r.0)
  {
    RelaxLowers(cost, pred, u, b, c, r);
    RelaxAll(grid, cost, pred, settled, except, u, b, c, r);
    RelaxPreds(grid, cost, pred, u, b, c, r);
    RelaxScores(start, seeded, cost, pred, u, b, c, r);
  }

  /** The relaxations of the expansion survive this one, which is made. */
  lemma RelaxTracked(grid: Grid, cost: Costs, pred: Preds, item: Item, k: int, b: State, r: (Costs, Preds, bool))
    requires Relaxes(cost, pred, StateOf(item), b, item.cost + Weight(StateOf(item), b), r)
    requires (k >= 0 && Open(grid, Ahead(StateOf(item)).pos)) ==> Relaxed(cost, pred, StateOf(item), item.cost, Ahead(StateOf(item)))
    requires k > 0 ==> Relaxed(cost, pred, StateOf(item), item.cost, Turn(StateOf(item), Rotations[0]))
    requires k > 1 ==> Relaxed(cost, pred, StateOf(item), item.cost, Turn(StateOf(item), Rotations[1]))
    ensures (k >= 0 && Open(grid, Ahead(StateOf(item)).pos)) ==> Relaxed(r.0, r.1, StateOf(item), item.cost, Ahead(StateOf(item)))
    ensures k > 0 ==> Relaxed(r.0, r.1, StateOf(item), item.cost, Turn(StateOf(item), Rotations[0]))
    ensures k > 1 ==> Relaxed(r.0, r.1, StateOf(item), item.cost, Turn(StateOf(item), Rotations[1]))
    ensures Relaxed(r.0, r.1, StateOf(item), item.cost, b)
  {
    var u := StateOf(item);
    var c := item.cost + Weight(u, b);
    RelaxLowers(cost, pred, u, b, c, r);
    if k >= 0 && Open(grid, Ahead(u).pos) {
      RelaxKeeps(cost, pred, u, b, c, r, u, item.cost, Ahead(u));
    }
    if k > 0 {
      RelaxKeeps(cost, pred, u, b, c, r, u, item.cost, Turn(u, Rotations[0]));
    }
    if k > 1 {
      RelaxKeeps(cost, pred, u, b, c, r, u, item.cost, Turn(u, Rotations[1]));
    }
  }

  /** One more move of the expansion is relaxed: at -1 the step forward
      (when it enters an open tile), then the turns in order. */
  lemma Advance(grid: Grid, start: Pos, seeded: bool, frontier: multiset<Item>, popped: set<Item>,
                settled: map<State, int>, level: int, paths: map<Item, seq<State>>,
                cost: Costs, pred: Preds, except: set<State>,
                unscored: set<State>, budget: set<(State, int)>,
                frontier0: multiset<Item>, unscored0: set<State>, budget0: set<(State, int)>,
                item: Item, k: int)
    requires Exploring(grid, start, seeded, frontier, popped, settled, level, paths, cost, pred, except,
                       unscored, budget, frontier0, unscored0, budget0, item, k)
    requires -1 <= k < |Rotations|
    requires k == -1 && Open(grid, Ahead(StateOf(item)).pos) ==> Relaxed(cost, pred, StateOf(item), item.cost, Ahead(StateOf(item)))
    requires k >= 0 ==> Relaxed(cost, pred, StateOf(item), item.cost, Turn(StateOf(item), Rotations[k]))
    ensures Exploring(grid, start, seeded, frontier, popped, settled, level, paths, cost, pred, except,
                      unscored, budget, frontier0, unscored0, budget0, item, k + 1)
  {
  }

  /** Once every move out of `u` is relaxed at its settled score, no move
      of an expanded state is left. */
  lemma Closing(grid: Grid, cost: Costs, pred: Preds, settled: map<State, int>, u: State)
    requires AllRelaxed(grid, cost, pred, settled, {u}) && u in settled
    requires Open(grid, Ahead(u).pos) ==> Relaxed(cost, pred, u, settled[u], Ahead(u))
    requires Relaxed(cost, pred, u, settled[u], Turn(u, Rotations[0]))
    requires Relaxed(cost, pred, u, settled[u], Turn(u, Rotations[1]))
    ensures AllRelaxed(grid, cost, pred, settled, {})
  {
    forall v, b | v in settled && Step(grid, v, b)
      ensures Relaxed(cost, pred, v, settled[v], b)
    {
      if v != u {
        assert v !in {u};
      }
    }
  }

  /** The expansion over, the search holds with nothing left out. */
  lemma Wrap(grid: Grid, start: Pos, seeded: bool, frontier: multiset<Item>, popped: set<Item>,
             settled: map<State, int>, level: int, paths: map<Item, seq<State>>,
             cost: Costs, pred: Preds, except: set<State>,
             unscored: set<State>, budget: set<(State, int)>,
             frontier0: multiset<Item>, unscored0: set<State>, budget0: set<(State, int)>, item: Item)
    requires Exploring(grid, start, seeded, frontier, popped, settled, level, paths, cost, pred, except,
                       unscored, budget, frontier0, unscored0, budget0, item, |Rotations|)
    ensures Explored(grid, start, seeded, frontier, popped, settled, level, paths, cost, pred, {})
    ensures Bounds(grid, start, cost, unscored, budget)
    ensures Progress(unscored, budget, frontier, unscored0, budget0, frontier0)
  {
    if except != {} {
      Closing(grid, cost, pred, settled, StateOf(item));
    }
  }

  /** One relaxation with its push, as `findAllMinPathsAndSpaces` makes it
      for the step forward and for each turn: the move to `b` costs
      `c`. */
  method Move(ghost grid: Grid, ghost start: Pos, ghost seeded: bool, frontier0: multiset<Item>, ghost popped: set<Item>,
              ghost settled: map<State, int>, ghost paths0: map<Item, seq<State>>,
              cost0: Costs, pred0: Preds, ghost except: set<State>,
              ghost unscored0: set<State>, ghost budget0: set<(State, int)>,
              ghost frontier1: multiset<Item>, ghost unscored1: set<State>, ghost budget1: set<(State, int)>,
              item: Item, ghost k: int, b: State, c: int)
    returns (frontier: multiset<Item>, ghost paths: map<Item, seq<State>>, cost: Costs, pred: Preds,
             ghost unscored: set<State>, ghost budget: set<(State, int)>)
    requires Exploring(grid, start, seeded, frontier0, popped, settled, item.cost, paths0, cost0, pred0, except,
                       unscored0, budget0, frontier1, unscored1, budget1, item, k)
    requires Step(grid, StateOf(item), b) && InBox(grid, start, b) && c == item.cost + Weight(StateOf(item), b)
    ensures Exploring(grid, start, seeded, frontier, popped, settled, item.cost, paths, cost, pred, except,
                      unscored, budget, frontier1, unscored1, budget1, item, k)
    ensures Relaxed(cost, pred, StateOf(item), item.cost, b)
  {
    var r := Relax(cost0, pred0, StateOf(item), b, c);
    cost, pred := r.0, r.1;
    frontier, paths := frontier0, paths0;
    if r.2 {
      frontier := frontier + multiset{ItemOf(b, c)};
      paths := paths[ItemOf(b, c) := paths[item] + [b]];
    }
    unscored, budget := RelaxStep(grid, start, seeded, frontier0, popped, settled, item.cost, paths0, cost0, pred0, except,
                                  unscored0, budget0, frontier1, unscored1, budget1, item, k, b, r, frontier, paths);
  }

  /** The expansion of an item in `findAllMinPathsAndSpaces`: the step
      forward is relaxed when it enters an open tile, then both turns; an
      index past a short row is Go's panic. */
  method Explore(grid: Grid, ghost start: Pos, ghost seeded: bool, frontier0: multiset<Item>, ghost popped: set<Item>,
                 ghost settled: map<State, int>, ghost paths0: map<Item, seq<State>>,
                 cost0: Costs, pred0: Preds, ghost except: set<State>,
                 ghost unscored0: set<State>, ghost budget0: set<(State, int)>, item: Item)
    returns (ok: bool, frontier: multiset<Item>, ghost paths: map<Item, seq<State>>, cost: Costs, pred: Preds,
             ghost unscored: set<State>, ghost budget: set<(State, int)>)
    requires Exploring(grid, start, seeded, frontier0, popped, settled, item.cost, paths0, cost0, pred0, except,
                       unscored0, budget0, frontier0, unscored0, budget0, item, -1)
    ensures ok ==> Explored(grid, start, seeded, frontier, popped, settled, item.cost, paths, cost, pred, {})
    ensures ok ==> Bounds(grid, start, cost, unscored, budget)
    ensures ok ==> Progress(unscored, budget, frontier, unscored0, budget0, frontier0)
    ensures !ok ==> !Rectangular(grid)
  {
    frontier, paths, cost, pred, unscored, budget := frontier0, paths0, cost0, pred0, unscored0, budget0;
    var u := StateOf(item);
    var newPos := (item.pos.0 + Direction(item.dir).0, item.pos.1 + Direction(item.dir).1);
    if 0 <= newPos.0 < |grid| && 0 <= newPos.1 < |grid[0]| {
      if newPos.1 >= |grid[newPos.0]| {
        return false, frontier, paths, cost, pred, unscored, budget;
      }
      if grid[newPos.0][newPos.1] != Wall {
        assert State(newPos, item.dir) == Ahead(u);
        frontier, paths, cost, pred, unscored, budget :=
          Move(grid, start, seeded, frontier, popped, settled, paths, cost, pred, except, unscored, budget,
               frontier0, unscored0, budget0, item, -1, State(newPos, item.dir), item.cost + 1);
      }
    }
    Advance(grid, start, seeded, frontier, popped, settled, item.cost, paths, cost, pred, except,
            unscored, budget, frontier0, unscored0, budget0, item, -1);
    for k := 0 to |Rotations|
      invariant Exploring(grid, start, seeded, frontier, popped, settled, item.cost, paths, cost, pred, except,
                          unscored, budget, frontier0, unscored0, budget0, item, k)
    {
      var newFacing := (Rotations[k] + item.dir + 4) % 4;
      assert State(item.pos, newFacing) == Turn(u, Rotations[k]);
      Day16.Moves(u, Rotations[k]);
      frontier, paths, cost, pred, unscored, budget :=
        Move(grid, start, seeded, frontier, popped, settled, paths, cost, pred, except, unscored, budget,
             frontier0, unscored0, budget0, item, k, State(item.pos, newFacing), item.cost + TurnCost);
      Advance(grid, start, seeded, frontier, popped, settled, item.cost, paths, cost, pred, except,
              unscored, budget, frontier0, unscored0, budget0, item, k);
    }
    Wrap(grid, start, seeded, frontier, popped, settled, item.cost, paths, cost, pred, except,
         unscored, budget, frontier0, unscored0, budget0, item);
    ok := true;
  }

  // ---------------------------------------------------------------------
  // The search loop

  /** What the search of `findAllMinPathsAndSpaces` leaves behind: every
      relaxation out of an expanded state made, the counts and
      predecessors in step, every score and every settled score the cost
      of a walk kept in `paths`, and every state on a walk from the start
      settled no dearer than that walk reaches it. */
  ghost predicate Table(grid: Grid, start: Pos, seeded: bool, paths: map<Item, seq<State>>,
                        cost: Costs, pred: Preds, settled: map<State, int>)
  {
    AllRelaxed(grid, cost, pred, settled, {}) && Counted(cost, pred) && PredSteps(grid, pred) &&
    Scores(start, seeded, cost) &&
    (forall s :: s in cost ==> ItemOf(s, cost[s].cost) in paths) &&
    (forall v :: v in settled ==> ItemOf(v, settled[v]) in paths) &&
    (forall x {:trigger WalkTo(grid, start, paths, x)} :: x in paths ==> WalkTo(grid, start, paths, x)) &&
    (forall w, n: nat :: Walk(grid, w, Begin(start)) && n < |w| ==> w[n] in settled && settled[w[n]] <= CostTo(w, n))
  }

  /** With the queue empty, every state of a walk from the start has been
      settled no dearer than the walk reaches it. */
  lemma {:induction false} Reach(grid: Grid, start: Pos, seeded: bool, frontier: multiset<Item>, popped: set<Item>,
                                 settled: map<State, int>, level: int, paths: map<Item, seq<State>>,
                                 cost: Costs, pred: Preds, w: seq<State>, n: nat)
    requires Explored(grid, start, seeded, frontier, popped, settled, level, paths, cost, pred, {})
    requires |frontier| == 0 && Walk(grid, w, Begin(start)) && n < |w|
    ensures w[n] in settled && settled[w[n]] <= CostTo(w, n)
  {
    if n == 0 {
      assert StartItem(start) in popped;
    } else {
      Reach(grid, start, seeded, frontier, popped, settled, level, paths, cost, pred, w, n - 1);
      assert StepInto(grid, w, n);
      var v := w[n - 1];
      assert Relaxed(cost, pred, v, settled[v], w[n]);
      assert Pushed(frontier, popped, ItemOf(w[n], cost[w[n]].cost));
      assert ItemOf(w[n], cost[w[n]].cost) in popped;
    }
  }

  /** The search over, its tables are complete. */
  lemma Finish(grid: Grid, start: Pos, seeded: bool, frontier: multiset<Item>, popped: set<Item>,
               settled: map<State, int>, level: int, paths: map<Item, seq<State>>, cost: Costs, pred: Preds)
    requires Explored(grid, start, seeded, frontier, popped, settled, level, paths, cost, pred, {})
    requires |frontier| == 0
    ensures Table(grid, start, seeded, paths, cost, pred, settled)
  {
    forall s | s in cost
      ensures ItemOf(s, cost[s].cost) in paths
    {
      assert Pushed(frontier, popped, ItemOf(s, cost[s].cost));
    }
    forall w, n: nat | Walk(grid, w, Begin(start)) && n < |w|
      ensures w[n] in settled && settled[w[n]] <= CostTo(w, n)
    {
      Reach(grid, start, seeded, frontier, popped, settled, level, paths, cost, pred, w, n);
    }
  }

  /** The search of `findAllMinPathsAndSpaces`, up to the call of
      `backtrack`. With `seeded` the start state is scored 0 before the
      search begins, which Go does not do. `None` is Go's panic on an
      empty grid or an index past a short row. */
  method MinPaths(grid: Grid, start: Pos, seeded: bool)
    returns (result: Option<(Costs, Preds)>, ghost paths: map<Item, seq<State>>, ghost settled: map<State, int>)
    ensures result.Some? ==> Table(grid, start, seeded, paths, result.value.0, result.value.1, settled)
    ensures Rectangular(grid) ==> result.Some?
  {
    paths, settled := map[], map[];
    if |grid| == 0 {
      return None, paths, settled;
    }
    ghost var unscored := AreaOf(grid, start);
    ghost var budget: set<(State, int)> := {};
    var frontier := multiset{Item(start, East, 0)};
    ghost var popped: set<Item> := {};
    ghost var level := 0;
    paths := map[Item(start, East, 0) := [Begin(start)]];
    var cost: Costs := if seeded then map[Begin(start) := CostInfo(0, 0)] else map[];
    var pred: Preds := map[];

    while |frontier| > 0
      invariant Explored(grid, start, seeded, frontier, popped, settled, level, paths, cost, pred, {})
      invariant Bounds(grid, start, cost, unscored, budget)
      decreases |unscored|, |budget|, |frontier|
    {
      ghost var least := LeastExists(frontier);
      var item :| Least(frontier, item);
      var state := State(item.pos, item.dir);
      if state in cost && item.cost > cost[state].cost {
        Stale(grid, start, seeded, frontier, popped, settled, level, paths, cost, pred, item);
        frontier := frontier - multiset{item};
        popped := popped + {item};
        level := item.cost;
        continue;
      }
      var ok;
      ok, frontier, popped, settled, level, paths, cost, pred, unscored, budget :=
        Expansion(grid, start, seeded, frontier, popped, settled, level, paths, cost, pred, unscored, budget, item);
      if !ok {
        return None, paths, settled;
      }
    }
    Finish(grid, start, seeded, frontier, popped, settled, level, paths, cost, pred);
    return Some((cost, pred)), paths, settled;
  }

  /** An item no dearer than its state's score is taken off the queue and
      expanded. */
  method Expansion(grid: Grid, ghost start: Pos, ghost seeded: bool, frontier0: multiset<Item>, ghost popped0: set<Item>,
                ghost settled0: map<State, int>, ghost level0: int, ghost paths0: map<Item, seq<State>>,
                cost0: Costs, pred0: Preds, ghost unscored0: set<State>, ghost budget0: set<(State, int)>, item: Item)
    returns (ok: bool, frontier: multiset<Item>, ghost popped: set<Item>, ghost settled: map<State, int>,
             ghost level: int, ghost paths: map<Item, seq<State>>, cost: Costs, pred: Preds,
             ghost unscored: set<State>, ghost budget: set<(State, int)>)
    requires Explored(grid, start, seeded, frontier0, popped0, settled0, level0, paths0, cost0, pred0, {})
    requires Bounds(grid, start, cost0, unscored0, budget0) && Least(frontier0, item)
    ensures ok ==> Explored(grid, start, seeded, frontier, popped, settled, level, paths, cost, pred, {})
    ensures ok ==> Bounds(grid, start, cost, unscored, budget)
    ensures ok ==> Progress(unscored, budget, frontier, unscored0, budget0, frontier0 - multiset{item})
    ensures !ok ==> !Rectangular(grid)
  {
    ghost var except;
    settled, except := Fresh(grid, start, seeded, frontier0, popped0, settled0, level0, paths0, cost0, pred0, item);
    assert WalkTo(grid, start, paths0, item);
    WalkInBox(grid, start, paths0[item], |paths0[item]| - 1);
    popped, level := popped0 + {item}, item.cost;
    ok, frontier, paths, cost, pred, unscored, budget :=
      Explore(grid, start, seeded, frontier0 - multiset{item}, popped, settled, paths0, cost0, pred0, except,
              unscored0, budget0, item);
  }

  // ---------------------------------------------------------------------
  // backtrack

  /** The least score of a state on `end`, as `backtrack` finds it: Go's
      `math.MaxInt` unless a state on `end` scores less, and then the
      least of their scores. */
  method MinCost(cost: Costs, end: Pos) returns (minCost: int)
    ensures LeastAtEnd(cost, end, minCost)
  {
    minCost := MaxInt;
    for direction := 0 to 4
      invariant minCost <= MaxInt
      invariant forall d :: 0 <= d < direction && State(end, d) in cost ==> minCost <= cost[State(end, d)].cost
      invariant minCost == MaxInt ||
                exists d :: 0 <= d < direction && State(end, d) in cost && cost[State(end, d)].cost == minCost
    {
      var endState := State(end, direction);
      if endState in cost && cost[endState].cost < minCost {
        minCost := cost[endState].cost;
      }
    }
  }

  /** `minCost` is `math.MaxInt` or the score of a state on `end`, and no
      state on `end` scores less. */
  ghost predicate LeastAtEnd(cost: Costs, end: Pos, minCost: int)
  {
    minCost <= MaxInt &&
    (forall d :: 0 <= d < 4 && State(end, d) in cost ==> minCost <= cost[State(end, d)].cost) &&
    (minCost == MaxInt || exists d :: 0 <= d < 4 && State(end, d) in cost && cost[State(end, d)].cost == minCost)
  }

  /** Every state on `end` that scores `minCost` is in `traced`. */
  ghost predicate Roots(cost: Costs, end: Pos, minCost: int, traced: set<State>)
  {
    forall d :: 0 <= d < 4 && State(end, d) in cost && cost[State(end, d)].cost == minCost ==> State(end, d) in traced
  }

  /** A state `backtrackHelper` follows: its score, Go's zero value when it
      has none, is no more than the least score at the end. */
  predicate Fits(cost: Costs, minCost: int, s: State)
  {
    CostOf(cost, s) <= minCost
  }

  /** Every predecessor that fits of a state in `visited` is in `visited`
      too, but for the states in `open`, whose predecessors are still
      being followed. */
  ghost predicate ClosedBut(visited: set<State>, open: set<State>, pred: Preds, cost: Costs, minCost: int)
  {
    forall s, i :: s in visited && s !in open && 0 <= i < |Get(pred, s)| && Fits(cost, minCost, Get(pred, s)[i]) ==>
      Get(pred, s)[i] in visited
  }

  /** Every state in `visited` fits. */
  ghost predicate Sound(visited: set<State>, cost: Costs, minCost: int)
  {
    forall s :: s in visited ==> Fits(cost, minCost, s)
  }

  /** Every predecessor lies in `universe`. */
  ghost predicate Covering(universe: set<State>, pred: Preds)
  {
    forall s, i :: 0 <= i < |Get(pred, s)| ==> Get(pred, s)[i] in universe
  }

  lemma Fewer(universe: set<State>, a: set<State>, b: set<State>, x: State)
    requires a <= b && x in universe && x in b && x !in a
    ensures |universe - b| < |universe - a|
  {
    assert universe - b <= (universe - a) - {x};
    assert x in universe - a;
    SubsetSize(universe - b, (universe - a) - {x});
  }

  lemma SubsetSize(a: set<State>, b: set<State>)
    requires a <= b
    ensures |a| <= |b|
  {
    assert b == a + (b - a);
  }

  /** `backtrackHelper`: a state that fits and is not visited yet is
      marked visited, and its predecessors are followed in turn. */
  method Trace(state: State, visited: HashSetUtil.HashSet<State>, pred: Preds, cost: Costs, minCost: int,
               ghost universe: set<State>, ghost open: set<State>)
    requires Covering(universe, pred) && state in universe && visited.data <= universe
    requires open <= visited.data && ClosedBut(visited.data, open, pred, cost, minCost) && Sound(visited.data, cost, minCost)
    modifies visited
    ensures old(visited.data) <= visited.data <= universe
    ensures ClosedBut(visited.data, open, pred, cost, minCost) && Sound(visited.data, cost, minCost)
    ensures Fits(cost, minCost, state) ==> state in visited.data
    decreases |universe - visited.data|
  {
    if CostOf(cost, state) > minCost {
      return;
    }
    if visited.Contains(state) {
      return;
    }
    ghost var before := visited.data;
    visited.Add(state);
    Fewer(universe, before, visited.data, state);
    if state in pred {
      var predecessors := pred[state];
      for i := 0 to |predecessors|
        invariant before + {state} <= visited.data <= universe
        invariant ClosedBut(visited.data, open + {state}, pred, cost, minCost) && Sound(visited.data, cost, minCost)
        invariant forall j :: 0 <= j < i && Fits(cost, minCost, predecessors[j]) ==> predecessors[j] in visited.data
      {
        SubsetSize(universe - visited.data, universe - (before + {state}));
        assert predecessors[i] == Get(pred, state)[i];
        Trace(predecessors[i], visited, pred, cost, minCost, universe, open + {state});
      }
    }
  }

  /** `backtrack`: the states on `end` at the least score are traced back
      through `pred`, and the tiles of the states reached are collected.
      Every state on `end` at that score is traced, every predecessor
      that fits of a traced state is traced, and every traced state
      fits. */
  /** The states `backtrack` can reach: the four on `end` and every
      predecessor. */
  ghost function Followed(pred: Preds, end: Pos): set<State>
  {
    (set s, i | s in pred && 0 <= i < |pred[s]| :: pred[s][i]) + (set d | 0 <= d < 4 :: State(end, d))
  }

  method Backtrack(cost: Costs, pred: Preds, end: Pos)
    returns (spaces: HashSetUtil.HashSet<Pos>, ghost minCost: int, ghost traced: set<State>)
    ensures fresh(spaces)
    ensures LeastAtEnd(cost, end, minCost) && Roots(cost, end, minCost, traced)
    ensures ClosedBut(traced, {}, pred, cost, minCost) && Sound(traced, cost, minCost)
    ensures traced <= Followed(pred, end)
    ensures spaces.data == set s | s in traced :: s.pos
  {
    var visited := new HashSetUtil.HashSet<State>();
    var least := MinCost(cost, end);
    ghost var universe := Followed(pred, end);
    forall s, i | 0 <= i < |Get(pred, s)|
      ensures Get(pred, s)[i] in universe
    {
      assert s in pred && pred[s][i] == Get(pred, s)[i];
    }
    for direction := 0 to 4
      invariant visited.data <= universe
      invariant ClosedBut(visited.data, {}, pred, cost, least) && Sound(visited.data, cost, least)
      invariant forall d :: 0 <= d < direction && State(end, d) in cost && cost[State(end, d)].cost == least ==>
        State(end, d) in visited.data
    {
      var endState := State(end, direction);
      if endState in cost && cost[endState].cost == least {
        Trace(endState, visited, pred, cost, least, universe, {});
      }
    }

    minCost, traced := least, visited.data;
    var seen := visited.ToSlice();
    spaces := new HashSetUtil.HashSet<Pos>();
    for i := 0 to |seen|
      invariant spaces.data == set j | 0 <= j < i :: seen[j].pos
    {
      spaces.Add(seen[i].pos);
    }
    assert spaces.data == set s | s in traced :: s.pos by {
      forall p | p in set s | s in traced :: s.pos
        ensures p in spaces.data
      {
        var s :| s in traced && s.pos == p;
        assert s in seen;
        var j :| 0 <= j < |seen| && seen[j] == s;
      }
    }
  }

  // ---------------------------------------------------------------------
  // The tiles of the best walks

  /** A walk from the start to a state on `end` that no other such walk
      undercuts. */
  ghost predicate Best(grid: Grid, start: Pos, end: Pos, w: seq<State>)
  {
    Walk(grid, w, Begin(start)) && Last(w).pos == end &&
    forall v :: Walk(grid, v, Begin(start)) && Last(v).pos == end ==> Cost(w) <= Cost(v)
  }

  /** A walk to the `j`-th state of `w`, continued with the rest of `w`,
      is a walk to the end of `w` whose score swaps the first `j` moves'
      score for its own. */
  lemma {:induction false} Splice(grid: Grid, v: seq<State>, from: State, w: seq<State>, w0: State, j: nat)
    requires Walk(grid, v, from) && Walk(grid, w, w0) && j < |w| && Last(v) == w[j]
    ensures Walk(grid, v + w[j + 1..], from) && Last(v + w[j + 1..]) == Last(w)
    ensures Cost(v + w[j + 1..]) == Cost(v) + Cost(w) - CostTo(w, j)
    decreases |w| - j
  {
    if j == |w| - 1 {
      assert v + w[j + 1..] == v;
    } else {
      assert StepInto(grid, w, j + 1);
      Extend(grid, v, from, w[j + 1]);
      Splice(grid, v + [w[j + 1]], from, w, w0, j + 1);
      assert (v + [w[j + 1]]) + w[j + 2..] == v + w[j + 1..];
    }
  }

  /** Each prefix of a best walk is a cheapest walk to its last state. */
  lemma PrefixBest(grid: Grid, start: Pos, end: Pos, w: seq<State>, j: nat, v: seq<State>)
    requires Best(grid, start, end, w) && j < |w| && Walk(grid, v, Begin(start)) && Last(v) == w[j]
    ensures CostTo(w, j) <= Cost(v)
  {
    Splice(grid, v, Begin(start), w, Begin(start), j);
  }

  /** After the search, each state of a best walk but the unseeded start
      is scored what the walk pays to reach it, and lists the state
      before it among its predecessors. */
  lemma OnBest(grid: Grid, start: Pos, end: Pos, seeded: bool, paths: map<Item, seq<State>>,
               cost: Costs, pred: Preds, settled: map<State, int>, w: seq<State>, k: nat)
    requires Table(grid, start, seeded, paths, cost, pred, settled) && Best(grid, start, end, w)
    requires k < |w| && (k >= 1 || seeded)
    ensures w[k] in cost && cost[w[k]].cost == CostTo(w, k)
    ensures k >= 1 ==> w[k - 1] in Get(pred, w[k])
  {
    if k >= 1 {
      var u := w[k - 1];
      assert u in settled && settled[u] <= CostTo(w, k - 1);
      var x := ItemOf(u, settled[u]);
      assert WalkTo(grid, start, paths, x);
      PrefixBest(grid, start, end, w, k - 1, paths[x]);
      assert StepInto(grid, w, k);
      assert Relaxed(cost, pred, u, settled[u], w[k]);
      var y := ItemOf(w[k], cost[w[k]].cost);
      assert WalkTo(grid, start, paths, y);
      PrefixBest(grid, start, end, w, k, paths[y]);
    }
  }

  /** Each state of `w` but the unseeded start is scored what `w` pays
      to reach it, and lists the state before it among its predecessors. */
  ghost predicate Tracks(w: seq<State>, seeded: bool, cost: Costs, pred: Preds)
  {
    forall k {:trigger CostTo(w, k)} :: 0 <= k < |w| && (k >= 1 || seeded) ==>
      w[k] in cost && cost[w[k]].cost == CostTo(w, k) && (k >= 1 ==> w[k - 1] in Get(pred, w[k]))
  }

  lemma TrackAt(w: seq<State>, seeded: bool, cost: Costs, pred: Preds, k: nat)
    requires Tracks(w, seeded, cost, pred) && k < |w| && (k >= 1 || seeded)
    ensures w[k] in cost && cost[w[k]].cost == CostTo(w, k) && (k >= 1 ==> w[k - 1] in Get(pred, w[k]))
  {
  }

  /** Each score is paid by a walk from the start. */
  lemma Achieved(grid: Grid, start: Pos, seeded: bool, paths: map<Item, seq<State>>,
                 cost: Costs, pred: Preds, settled: map<State, int>, s: State) returns (v: seq<State>)
    requires Table(grid, start, seeded, paths, cost, pred, settled) && s in cost
    ensures Walk(grid, v, Begin(start)) && Last(v) == s && Cost(v) == cost[s].cost
  {
    var x := ItemOf(s, cost[s].cost);
    assert WalkTo(grid, start, paths, x);
    v := paths[x];
  }

  /** After the search, a best walk is tracked by the scores and
      predecessors, and no state on its end scores less than it pays. */
  lemma Tracked(grid: Grid, start: Pos, end: Pos, seeded: bool, paths: map<Item, seq<State>>,
                cost: Costs, pred: Preds, settled: map<State, int>, w: seq<State>)
    requires Table(grid, start, seeded, paths, cost, pred, settled) && Best(grid, start, end, w)
    ensures Tracks(w, seeded, cost, pred)
    ensures forall s :: s in cost && s.pos == end ==> Cost(w) <= cost[s].cost
  {
    forall k | 0 <= k < |w| && (k >= 1 || seeded)
      ensures w[k] in cost && cost[w[k]].cost == CostTo(w, k) && (k >= 1 ==> w[k - 1] in Get(pred, w[k]))
    {
      OnBest(grid, start, end, seeded, paths, cost, pred, settled, w, k);
    }
    forall s | s in cost && s.pos == end
      ensures Cost(w) <= cost[s].cost
    {
      var v := Achieved(grid, start, seeded, paths, cost, pred, settled, s);
    }
  }

  /** The least score at the end is the score of a best walk, whose last
      state scores it. */
  lemma EndScore(grid: Grid, start: Pos, end: Pos, seeded: bool, cost: Costs, pred: Preds, minCost: int, w: seq<State>)
    requires Walk(grid, w, Begin(start)) && Last(w).pos == end && Cost(w) < MaxInt && (|w| >= 2 || seeded)
    requires Tracks(w, seeded, cost, pred) && (forall s :: s in cost && s.pos == end ==> Cost(w) <= cost[s].cost)
    requires LeastAtEnd(cost, end, minCost)
    ensures minCost == Cost(w) && Last(w) == State(end, Last(w).dir) && 0 <= Last(w).dir < 4
    ensures Last(w) in cost && cost[Last(w)].cost == minCost
  {
    assert CostTo(w, |w| - 1) == Cost(w);
    WalkInBox(grid, start, w, |w| - 1);
    assert Last(w) == State(end, Last(w).dir);
    if minCost != MaxInt {
      var d :| 0 <= d < 4 && State(end, d) in cost && cost[State(end, d)].cost == minCost;
      assert State(end, d).pos == end;
    }
  }

  /** Every state of a best walk but the unseeded start is traced back
      from the end. */
  lemma {:induction false} BestTraced(grid: Grid, start: Pos, end: Pos, seeded: bool, cost: Costs, pred: Preds,
                                      minCost: int, traced: set<State>, w: seq<State>, j: nat)
    requires Walk(grid, w, Begin(start)) && Last(w).pos == end && Cost(w) < MaxInt
    requires Tracks(w, seeded, cost, pred) && (forall s :: s in cost && s.pos == end ==> Cost(w) <= cost[s].cost)
    requires LeastAtEnd(cost, end, minCost)
    requires Roots(cost, end, minCost, traced) && ClosedBut(traced, {}, pred, cost, minCost)
    requires j < |w| && (j >= 1 || seeded)
    ensures w[j] in traced
    decreases |w| - j
  {
    EndScore(grid, start, end, seeded, cost, pred, minCost, w);
    if j < |w| - 1 {
      BestTraced(grid, start, end, seeded, cost, pred, minCost, traced, w, j + 1);
      TrackAt(w, seeded, cost, pred, j + 1);
      TrackAt(w, seeded, cost, pred, j);
      CostGrows(w, j, |w| - 1);
      assert w[j] in Get(pred, w[j + 1]);
      var i :| 0 <= i < |Get(pred, w[j + 1])| && Get(pred, w[j + 1])[i] == w[j];
      assert Fits(cost, minCost, Get(pred, w[j + 1])[i]);
    } else {
      assert Last(w) == w[j];
    }
  }

  /** The tile of every state of a best walk is among the spaces, but the
      start's when the start is not seeded. */
  lemma BestTiles(grid: Grid, start: Pos, end: Pos, seeded: bool, paths: map<Item, seq<State>>,
                  cost: Costs, pred: Preds, settled: map<State, int>, minCost: int,
                  traced: set<State>, spaces: set<Pos>, w: seq<State>, i: nat)
    requires Table(grid, start, seeded, paths, cost, pred, settled) && LeastAtEnd(cost, end, minCost)
    requires Roots(cost, end, minCost, traced) && ClosedBut(traced, {}, pred, cost, minCost)
    requires spaces == set s | s in traced :: s.pos
    requires Best(grid, start, end, w) && Cost(w) < MaxInt && i < |w| && (i >= 1 || seeded)
    ensures w[i].pos in spaces
  {
    Tracked(grid, start, end, seeded, paths, cost, pred, settled, w);
    BestTraced(grid, start, end, seeded, cost, pred, minCost, traced, w, i);
  }

  /** `findAllMinPathsAndSpaces`, with the start seeded or, as Go has it,
      not: the tile of every state of a best walk is among the spaces, but
      the start's when the start is not seeded. */
  method FindAllMinPathsAndSpaces(grid: Grid, start: Pos, end: Pos, seeded: bool)
    returns (spaces: Option<HashSetUtil.HashSet<Pos>>)
    ensures spaces.Some? ==> forall w: seq<State>, i: nat :: Best(grid, start, end, w) && Cost(w) < MaxInt && i < |w| && (i >= 1 || seeded) ==>
                                                   w[i].pos in spaces.value.data
    ensures Rectangular(grid) ==> spaces.Some?
  {
    var tables, paths, settled := MinPaths(grid, start, seeded);
    if tables.None? {
      return None;
    }
    var cost, pred := tables.value.0, tables.value.1;
    var found, minCost, traced := Backtrack(cost, pred, end);
    forall w: seq<State>, i: nat | Best(grid, start, end, w) && Cost(w) < MaxInt && i < |w| && (i >= 1 || seeded)
      ensures w[i].pos in found.data
    {
      BestTiles(grid, start, end, seeded, paths, cost, pred, settled, minCost, traced, found.data, w, i);
    }
    spaces := Some(found);
  }

  // ---------------------------------------------------------------------
  // The unseeded start

  /** The grid `S.E`: the start, an open tile and the end in one row. */
  const Corridor: Grid := ["S.E"]

  /** The walk straight East from the start to the end of `Corridor`. */
  const Dash: seq<State> := [State((0, 0), East), State((0, 1), East), State((0, 2), East)]

  /** `Dash` is a best walk, of score 2. */
  lemma DashBest()
    ensures Best(Corridor, (0, 0), (0, 2), Dash) && Cost(Dash) == 2
  {
    assert StepInto(Corridor, Dash, 1) && StepInto(Corridor, Dash, 2);
    assert CostTo(Dash, 1) == 1;
    forall v | Walk(Corridor, v, Begin((0, 0))) && Last(v).pos == (0, 2)
      ensures Cost(Dash) <= Cost(v)
    {
      if Cost(v) < TurnCost {
        Straight(Corridor, v, Begin((0, 0)), |v| - 1);
      }
    }
  }

  /** After the search, every state a walk from the start reaches in one
      move or more is scored. */
  lemma Reached(grid: Grid, start: Pos, seeded: bool, paths: map<Item, seq<State>>,
                cost: Costs, pred: Preds, settled: map<State, int>, w: seq<State>, n: nat)
    requires Table(grid, start, seeded, paths, cost, pred, settled)
    requires Walk(grid, w, Begin(start)) && 1 <= n < |w|
    ensures w[n] in cost
  {
    assert w[n - 1] in settled;
    assert StepInto(grid, w, n);
    assert Relaxed(cost, pred, w[n - 1], settled[w[n - 1]], w[n]);
  }

  /** Without the seed, a state on the start tile scores at least 1000:
      only a walk that turns comes back to it. */
  lemma StartDear(grid: Grid, start: Pos, paths: map<Item, seq<State>>,
                  cost: Costs, pred: Preds, settled: map<State, int>, s: State)
    requires Table(grid, start, false, paths, cost, pred, settled) && s in cost && s.pos == start
    ensures cost[s].cost >= TurnCost
  {
    var v := Achieved(grid, start, false, paths, cost, pred, settled, s);
    if Cost(v) < TurnCost {
      Straight(grid, v, Begin(start), |v| - 1);
    }
  }

  /** Without the seed, each state on the start of `Corridor` is scored
      at least 1000. */
  lemma Spun(paths: map<Item, seq<State>>, cost: Costs, pred: Preds, settled: map<State, int>, s: State)
    requires Table(Corridor, (0, 0), false, paths, cost, pred, settled) && 0 <= s.dir < 4
    ensures s.pos == (0, 0) ==> s in cost && cost[s].cost >= TurnCost
  {
    if s.pos == (0, 0) {
      var b, s1, s2, s3 := Begin((0, 0)), State((0, 0), 1), State((0, 0), 2), State((0, 0), 3);
      var w := if s.dir == 0 then [b, s1, b] else if s.dir == 1 then [b, s1] else if s.dir == 2 then [b, s1, s2] else [b, s3];
      assert forall i :: 0 < i < |w| ==> StepInto(Corridor, w, i);
      Reached(Corridor, (0, 0), false, paths, cost, pred, settled, w, |w| - 1);
      StartDear(Corridor, (0, 0), paths, cost, pred, settled, s);
    }
  }

  /** Go's search leaves the start unscored until it turns around on it,
      so on `Corridor` the start scores 2000 against the best walk's 2, is
      pruned by `backtrackHelper`, and its tile is missing from the spaces
      although the best walk `Dash` begins there. */
  lemma StartMissed(paths: map<Item, seq<State>>, cost: Costs, pred: Preds, settled: map<State, int>,
                    minCost: int, traced: set<State>, spaces: set<Pos>)
    requires Table(Corridor, (0, 0), false, paths, cost, pred, settled) && LeastAtEnd(cost, (0, 2), minCost)
    requires traced <= Followed(pred, (0, 2)) && Sound(traced, cost, minCost)
    requires spaces == set s | s in traced :: s.pos
    ensures Best(Corridor, (0, 0), (0, 2), Dash) && Dash[0].pos !in spaces
  {
    DashBest();
    OnBest(Corridor, (0, 0), (0, 2), false, paths, cost, pred, settled, Dash, 2);
    assert State((0, 2), 0) == Dash[2];
    forall s | s in traced
      ensures s.pos != (0, 0)
    {
      if s.pos != (0, 2) {
        var b, i :| b in pred && 0 <= i < |pred[b]| && pred[b][i] == s;
        assert Get(pred, b)[i] == s;
        Spun(paths, cost, pred, settled, s);
      }
    }
  }

  // ---------------------------------------------------------------------
  // part2

  /** `main` and `part2`, with the start seeded: the start and end tiles
      are found with `findPOS`, and the answer counts a set of tiles that
      holds every tile of every best walk. */
  method Part2(grid: Grid) returns (answer: Option<int>)
    ensures answer.Some? ==> exists s, e, tiles: set<Pos> ::
      Located(grid, StartMark, s) && Located(grid, EndMark, e) && |tiles| == answer.value &&
      forall w: seq<State>, i: nat :: Best(grid, s, e, w) && Cost(w) < MaxInt && i < |w| ==> w[i].pos in tiles
    ensures Rectangular(grid) ==> answer.Some?
  {
    var s := FindPos(grid, StartMark);
    var e := FindPos(grid, EndMark);
    if s.None? || e.None? {
      return None;
    }
    var spaces := FindAllMinPathsAndSpaces(grid, s.value, e.value, true);
    if spaces.None? {
      return None;
    }
    answer := Some(spaces.value.Size());
    assert Located(grid, StartMark, s.value) && Located(grid, EndMark, e.value) && |spaces.value.data| == answer.value;
  }
}
