/** Conformal sets (ftqc/core/conformal_measurements.py): the top-n states
    of a record, their pairwise intersections, the pair walk over a list
    of sets, majority voting and the raw conformity score. */
module Conformal {
  import opened Failures
  import opened Seqs
  import opened Entities

  /** `ConformalSet`: the kept states, most probable first. */
  datatype ConformalSet = ConformalSet(states: seq<State>)

  /** An index pair produced by `ConformalSetsIterator`. */
  datatype Pair = Pair(i: nat, j: nat)

  /** `ConformalSet(measurements, n)`: a non-positive n raises; otherwise
      the first n states are kept, or all of them when there are fewer. */
  function MakeConformalSet(xs: seq<State>, n: int): (r: Result<ConformalSet>)
    ensures r.Err? <==> n <= 0
    ensures r.Err? ==> r.error == NonPositiveTopN
    ensures r.Ok? ==> r.value.states <= xs
    ensures r.Ok? && n < |xs| ==> |r.value.states| == n
    ensures r.Ok? && n >= |xs| ==> r.value.states == xs
  {
    if n <= 0 then Err(NonPositiveTopN)
    else Ok(ConformalSet(xs[..if n < |xs| then n else |xs|]))
  }

  /** `ConformalSet.top_n_from`: the first n states of `rank()`. */
  function TopNFrom(m: Measurements, n: int): Result<ConformalSet> {
    MakeConformalSet(Rank(m), n)
  }

  /** `top_n_from` raises exactly when n is not positive. Otherwise the
      top-n set of a well-formed record holds min(n, #states) distinct
      measured states, and none of the left-out states has a larger count
      than a kept one. */
  lemma TopNFromSpec(m: Measurements, n: int)
    requires m.hist.Valid()
    ensures TopNFrom(m, n).Ok? <==> n > 0
    ensures TopNFrom(m, n).Err? ==> TopNFrom(m, n).error == NonPositiveTopN
    ensures TopNFrom(m, n).Ok? ==> Distinct(TopNFrom(m, n).value.states)
    ensures TopNFrom(m, n).Ok? ==> Elems(TopNFrom(m, n).value.states) <= Elems(m.hist.states)
    ensures TopNFrom(m, n).Ok? ==>
              |TopNFrom(m, n).value.states| == (if n < |m.hist.states| then n else |m.hist.states|)
    ensures TopNFrom(m, n).Ok? ==>
              forall s, t :: s in TopNFrom(m, n).value.states && t in m.hist.states && t !in TopNFrom(m, n).value.states ==>
                GetCountFor(m, s) >= GetCountFor(m, t)
  {
    if n > 0 {
      RankIsStableSort(m);
      var rk := Rank(m);
      assert |rk| == |m.hist.states| by {
        assert |multiset(rk)| == |multiset(m.hist.states)|;
      }
      var len := if n < |rk| then n else |rk|;
      assert TopNFrom(m, n).value.states == rk[..len];
      assert forall s :: s in rk <==> s in m.hist.states by {
        forall s ensures s in rk <==> s in m.hist.states {
          assert s in rk <==> s in multiset(rk);
        }
      }
      PrefixKeepsDistinct(rk, len);
      PrefixDominates(m, rk, len);
    }
  }

  lemma PrefixKeepsDistinct(rk: seq<State>, len: nat)
    requires len <= |rk| && Distinct(rk)
    ensures Distinct(rk[..len])
  {
    assert forall i :: 0 <= i < len ==> rk[..len][i] == rk[i];
  }

  /** In a sequence ordered by descending count, every state of a prefix
      has at least the count of every state after it. */
  lemma PrefixDominates(m: Measurements, rk: seq<State>, len: nat)
    requires len <= |rk|
    requires forall i, j :: 0 <= i < j < |rk| ==> GetCountFor(m, rk[i]) >= GetCountFor(m, rk[j])
    ensures forall s, t :: s in rk[..len] && t in rk && t !in rk[..len] ==> GetCountFor(m, s) >= GetCountFor(m, t)
  {
    forall s, t | s in rk[..len] && t in rk && t !in rk[..len]
      ensures GetCountFor(m, s) >= GetCountFor(m, t)
    {
      var a :| 0 <= a < len && rk[..len][a] == s;
      var b :| 0 <= b < |rk| && rk[b] == t;
      assert rk[a] == s;
    }
  }

  // ---------------------------------------------------------------------
  // Intersection
  // ---------------------------------------------------------------------

  /** The states of `xs` that also occur in `ys`, in the order of `xs`. */
  function KeepIn(xs: seq<State>, ys: seq<State>): (r: seq<State>)
    ensures Elems(r) == Elems(xs) * Elems(ys)
  {
    if xs == [] then []
    else
      var head: seq<State> := if xs[0] in ys then [xs[0]] else [];
      var rest := KeepIn(xs[1..], ys);
      assert Elems(xs) == {xs[0]} + Elems(xs[1..]);
      assert Elems(head + rest) == Elems(head) + Elems(rest);
      head + rest
  }

  /** `ConformalSet.intersection`: the states the two sets share, each
      once, as a new set sized to fit them. Python's set order is not
      fixed; the model lists the shared states in the order of `a`. A
      new set of size zero raises, so two disjoint sets raise. */
  function Intersection(a: ConformalSet, b: ConformalSet): (r: Result<ConformalSet>)
    ensures r.Err? <==> Elems(a.states) * Elems(b.states) == {}
    ensures r.Err? ==> r.error == NonPositiveTopN
    ensures r.Ok? ==> Distinct(r.value.states)
    ensures r.Ok? ==> Elems(r.value.states) == Elems(a.states) * Elems(b.states)
    ensures r.Ok? ==> |r.value.states| == |Elems(a.states) * Elems(b.states)|
  {
    var common := Dedup(KeepIn(a.states, b.states));
    DistinctCard(common);
    MakeConformalSet(common, |common|)
  }

  /** Intersecting is symmetric up to the order of the shared states. */
  lemma IntersectionSymmetric(a: ConformalSet, b: ConformalSet)
    ensures Intersection(a, b).Err? <==> Intersection(b, a).Err?
    ensures Intersection(a, b).Ok? ==>
              Elems(Intersection(a, b).value.states) == Elems(Intersection(b, a).value.states)
  {
  }

  /** A set intersected with itself keeps each of its states once. */
  lemma SelfIntersection(a: ConformalSet)
    requires Distinct(a.states) && a.states != []
    ensures Intersection(a, a).Ok?
    ensures |Intersection(a, a).value.states| == |a.states|
  {
    assert a.states[0] in Elems(a.states);
    DistinctCard(a.states);
    assert Elems(a.states) * Elems(a.states) == Elems(a.states);
  }

  // ---------------------------------------------------------------------
  // The pair walk (ConformalSetsIterator)
  // ---------------------------------------------------------------------

  /** Every pair indexes a list of k sets. */
  predicate InRange(ps: seq<Pair>, k: nat) {
    forall t :: 0 <= t < |ps| ==> ps[t].i < k && ps[t].j < k
  }

  /** The pairs `__next__` yields from the iterator state (i, j) over k
      sets: stop once i is the last index; after the last column move to
      the next row, starting right of the diagonal or, in the last row, on
      it; otherwise step one column right. */
  function WalkFrom(k: nat, i: nat, j: nat): (r: seq<Pair>)
    requires i < k && j < k
    ensures InRange(r, k)
    decreases k - i, k - j
  {
    if i == k - 1 then []
    else if j == k - 1 then
      var i' := i + 1;
      var j' := if i' + 1 < k then i' + 1 else i';
      [Pair(i', j')] + WalkFrom(k, i', j')
    else
      [Pair(i, j + 1)] + WalkFrom(k, i, j + 1)
  }

  /** `iter(ConformalSetsIterator(sets))` over k sets: the walk from (0, 0).
      Over an empty list the first step already indexes past its end. */
  function PairWalk(k: nat): (r: Result<seq<Pair>>)
    ensures r.Err? <==> k == 0
    ensures r.Err? ==> r.error == IndexOutOfRange
    ensures r.Ok? ==> InRange(r.value, k)
  {
    if k == 0 then Err(IndexOutOfRange) else Ok(WalkFrom(k, 0, 0))
  }

  /** Row i of the upper triangle from column `from` on. */
  function Row(i: nat, from: nat, k: nat): seq<Pair>
    decreases k - from
  {
    if from >= k then [] else [Pair(i, from)] + Row(i, from + 1, k)
  }

  /** Rows i .. k-1 of the upper triangle. */
  function Rows(i: nat, k: nat): seq<Pair>
    decreases k - i
  {
    if i >= k then [] else Row(i, i + 1, k) + Rows(i + 1, k)
  }

  /** Every pair i < j < k once, row by row: the walk a reader of the
      iterator expects. */
  function UpperPairs(k: nat): seq<Pair> {
    Rows(0, k)
  }

  /** The walk from (i, j) is the rest of row i, the remaining rows, and
      one extra diagonal pair (k-1, k-1). */
  lemma {:induction false} WalkFromShape(k: nat, i: nat, j: nat)
    requires i < k - 1 && j < k
    ensures WalkFrom(k, i, j) == Row(i, j + 1, k) + Rows(i + 1, k) + [Pair(k - 1, k - 1)]
    decreases k - i, k - j
  {
    if j == k - 1 {
      if i + 2 < k {
        WalkFromShape(k, i + 1, i + 2);
      }
    } else {
      WalkFromShape(k, i, j + 1);
    }
  }

  /** The iterator visits every pair i < j once, in row order, and then
      the last set paired with itself; a single set yields no pair. */
  lemma PairWalkSpec(k: nat)
    requires k > 0
    ensures k == 1 ==> PairWalk(k) == Ok([])
    ensures k >= 2 ==> PairWalk(k) == Ok(UpperPairs(k) + [Pair(k - 1, k - 1)])
  {
    if k >= 2 {
      WalkFromShape(k, 0, 0);
    }
  }

  lemma {:induction false} RowMembers(i: nat, from: nat, k: nat, p: Pair)
    ensures p in Row(i, from, k) <==> p.i == i && from <= p.j < k
    decreases k - from
  {
    if from < k {
      RowMembers(i, from + 1, k, p);
    }
  }

  lemma {:induction false} RowsMembers(i: nat, k: nat, p: Pair)
    ensures p in Rows(i, k) <==> i <= p.i < p.j < k
    decreases k - i
  {
    if i < k {
      RowMembers(i, i + 1, k, p);
      RowsMembers(i + 1, k, p);
    }
  }

  lemma {:induction false} RowLength(i: nat, from: nat, k: nat)
    requires from <= k
    ensures |Row(i, from, k)| == k - from
    decreases k - from
  {
    if from < k {
      RowLength(i, from + 1, k);
    }
  }

  lemma {:induction false} RowsLength(i: nat, k: nat)
    requires i <= k
    ensures 2 * |Rows(i, k)| == (k - i) * (k - i - 1)
    decreases k - i
  {
    if i < k {
      RowLength(i, i + 1, k);
      RowsLength(i + 1, k);
      TriangleStep(k - i);
    }
  }

  lemma TriangleStep(m: nat)
    requires m > 0
    ensures 2 * (m - 1) + (m - 1) * (m - 2) == m * (m - 1)
  {
  }

  /** The pairs i < j < k, each once: k(k-1)/2 of them. */
  lemma UpperPairsSpec(k: nat)
    ensures forall p :: p in UpperPairs(k) <==> p.i < p.j < k
    ensures 2 * |UpperPairs(k)| == k * (k - 1)
  {
    forall p
      ensures p in UpperPairs(k) <==> p.i < p.j < k
    {
      RowsMembers(0, k, p);
    }
    RowsLength(0, k);
  }

  // ---------------------------------------------------------------------
  // Majority voting
  // ---------------------------------------------------------------------

  /** All states of all sets, in order, repeats included. */
  function AllStates(sets: seq<ConformalSet>): seq<State> {
    if sets == [] then [] else sets[0].states + AllStates(sets[1..])
  }

  lemma {:induction false} AllStatesHas(sets: seq<ConformalSet>, t: nat)
    requires t < |sets|
    ensures Elems(sets[t].states) <= Elems(AllStates(sets))
  {
    if t > 0 {
      AllStatesHas(sets[1..], t - 1);
    }
  }

  /** The vote table before voting: every state of every set at zero. */
  function InitialVotes(sets: seq<ConformalSet>): (r: map<State, nat>)
    ensures forall s :: s in r <==> s in AllStates(sets)
    ensures forall s :: s in r ==> r[s] == 0
  {
    map s | s in AllStates(sets) :: 0
  }

  /** One vote for each state of `xs`. */
  function AddVotes(votes: map<State, nat>, xs: seq<State>): (r: map<State, nat>)
    requires Distinct(xs) && forall t :: 0 <= t < |xs| ==> xs[t] in votes
    ensures r.Keys == votes.Keys
    ensures forall s :: s in r ==> r[s] == votes[s] + (if s in xs then 1 else 0)
  {
    if xs == [] then votes
    else
      assert forall t :: 0 <= t < |xs| - 1 ==> xs[1..][t] == xs[t + 1] && xs[t + 1] != xs[0];
      AddVotes(votes[xs[0] := votes[xs[0]] + 1], xs[1..])
  }

  /** The two sets of a pair share a state. */
  predicate Overlap(sets: seq<ConformalSet>, p: Pair)
    requires p.i < |sets| && p.j < |sets|
  {
    Elems(sets[p.i].states) * Elems(sets[p.j].states) != {}
  }

  /** Every pair of the walk overlaps. */
  predicate AllOverlap(sets: seq<ConformalSet>, ps: seq<Pair>)
    requires InRange(ps, |sets|)
  {
    forall t :: 0 <= t < |ps| ==> Overlap(sets, ps[t])
  }

  /** A pair agrees on `s` when both sets hold `s` and they share at least
      `threshold` states. */
  predicate AgreesOn(sets: seq<ConformalSet>, p: Pair, threshold: int, s: State)
    requires p.i < |sets| && p.j < |sets|
  {
    var common := Elems(sets[p.i].states) * Elems(sets[p.j].states);
    s in common && |common| >= threshold
  }

  /** The number of pairs of `ps` that agree on `s`. */
  function Agreements(sets: seq<ConformalSet>, ps: seq<Pair>, threshold: int, s: State): (r: nat)
    requires InRange(ps, |sets|)
    ensures r <= |ps|
  {
    if ps == [] then 0
    else (if AgreesOn(sets, ps[0], threshold, s) then 1 else 0) + Agreements(sets, ps[1..], threshold, s)
  }

  /** The walk overlaps everywhere when its first pair and the rest do. */
  lemma AllOverlapCons(sets: seq<ConformalSet>, ps: seq<Pair>)
    requires ps != [] && InRange(ps, |sets|)
    ensures InRange(ps[1..], |sets|)
    ensures AllOverlap(sets, ps) <==> Overlap(sets, ps[0]) && AllOverlap(sets, ps[1..])
  {
    assert forall t :: 0 <= t < |ps| - 1 ==> ps[1..][t] == ps[t + 1];
  }

  /** One pair's contribution to the vote table: its shared states get a
      vote each when there are at least `threshold` of them. */
  function Tally(votes: map<State, nat>, common: ConformalSet, threshold: int): (r: map<State, nat>)
    requires Distinct(common.states) && Elems(common.states) <= votes.Keys
    ensures r.Keys == votes.Keys
    ensures forall s :: s in r ==>
              r[s] == votes[s] + (if s in common.states && |common.states| >= threshold then 1 else 0)
  {
    if |common.states| >= threshold then
      assert forall t :: 0 <= t < |common.states| ==> common.states[t] in Elems(common.states);
      AddVotes(votes, common.states)
    else votes
  }

  /** The voting loop of `ConformalBasedMajorityVoting.vote` over the pairs
      `ps`: intersect each pair (a disjoint pair raises) and, when the
      intersection is at least as large as the threshold, add one vote to
      each of its states. */
  function CastVotes(sets: seq<ConformalSet>, ps: seq<Pair>, threshold: int, votes: map<State, nat>)
    : (r: Result<map<State, nat>>)
    requires InRange(ps, |sets|)
    requires forall s :: s in AllStates(sets) ==> s in votes
    ensures r.Ok? <==> AllOverlap(sets, ps)
    ensures r.Err? ==> r.error == NonPositiveTopN
    ensures r.Ok? ==> r.value.Keys == votes.Keys
    ensures r.Ok? ==> forall s :: s in votes ==> r.value[s] == votes[s] + Agreements(sets, ps, threshold, s)
  {
    if ps == [] then Ok(votes)
    else
      var p := ps[0];
      AllOverlapCons(sets, ps);
      var common :- Intersection(sets[p.i], sets[p.j]);
      AllStatesHas(sets, p.i);
      CastVotes(sets, ps[1..], threshold, Tally(votes, common, threshold))
  }

  /** `ConformalBasedMajorityVoting.vote`: every state of every set starts
      at zero votes, then each pair of the walk votes for its shared
      states when they are at least `threshold` many. */
  function Vote(threshold: int, sets: seq<ConformalSet>): (r: Result<map<State, nat>>)
    ensures r.Err? <==> sets == [] || !AllOverlap(sets, PairWalk(|sets|).value)
    ensures r.Err? ==> r.error == (if sets == [] then IndexOutOfRange else NonPositiveTopN)
    ensures r.Ok? ==> forall s :: s in r.value <==> s in AllStates(sets)
    ensures r.Ok? ==> forall s :: s in r.value ==>
              r.value[s] == Agreements(sets, PairWalk(|sets|).value, threshold, s)
  {
    var ps :- PairWalk(|sets|);
    CastVotes(sets, ps, threshold, InitialVotes(sets))
  }

  /** No state gets more votes than there are pairs, and one set alone
      casts no vote at all. */
  lemma VotesBounded(threshold: int, sets: seq<ConformalSet>)
    requires Vote(threshold, sets).Ok?
    ensures forall s :: s in Vote(threshold, sets).value ==>
              Vote(threshold, sets).value[s] <= |PairWalk(|sets|).value|
    ensures |sets| == 1 ==> forall s :: s in Vote(threshold, sets).value ==> Vote(threshold, sets).value[s] == 0
  {
    if |sets| == 1 {
      PairWalkSpec(1);
    }
  }

  /** Because the walk ends with the last set paired with itself, every
      state of the last set gets that pair's vote whenever the last set
      holds at least `threshold` distinct states. */
  lemma LastSetVotesForItself(threshold: int, sets: seq<ConformalSet>, s: State)
    requires |sets| >= 2 && Vote(threshold, sets).Ok?
    requires s in sets[|sets| - 1].states && |Elems(sets[|sets| - 1].states)| >= threshold
    ensures s in Vote(threshold, sets).value && Vote(threshold, sets).value[s] >= 1
  {
    var k := |sets|;
    PairWalkSpec(k);
    var ps := PairWalk(k).value;
    AllStatesHas(sets, k - 1);
    assert s in Elems(sets[k - 1].states);
    assert ps == UpperPairs(k) + [Pair(k - 1, k - 1)];
    UpperPairsSpec(k);
    assert InRange(UpperPairs(k), k) by {
      assert forall t :: 0 <= t < |UpperPairs(k)| ==> UpperPairs(k)[t] in UpperPairs(k);
    }
    assert Elems(sets[k - 1].states) * Elems(sets[k - 1].states) == Elems(sets[k - 1].states);
    AgreementsAppend(sets, UpperPairs(k), [Pair(k - 1, k - 1)], threshold, s);
    assert AgreesOn(sets, Pair(k - 1, k - 1), threshold, s);
  }

  lemma {:induction false} AgreementsAppend(sets: seq<ConformalSet>, a: seq<Pair>, b: seq<Pair>, threshold: int, s: State)
    requires InRange(a, |sets|) && InRange(b, |sets|)
    ensures InRange(a + b, |sets|)
    ensures Agreements(sets, a + b, threshold, s) == Agreements(sets, a, threshold, s) + Agreements(sets, b, threshold, s)
  {
    if a == [] {
      assert a + b == b;
    } else {
      assert (a + b)[1..] == a[1..] + b;
      assert InRange(a[1..], |sets|);
      AgreementsAppend(sets, a[1..], b, threshold, s);
    }
  }

  // ---------------------------------------------------------------------
  // The conformity score
  // ---------------------------------------------------------------------

  /** The size of the overlap of a pair. */
  function Matches(sets: seq<ConformalSet>, p: Pair): nat
    requires p.i < |sets| && p.j < |sets|
  {
    |Elems(sets[p.i].states) * Elems(sets[p.j].states)|
  }

  /** One pair's term of the score: 2 x matches / top_n - 1. */
  function Term(matches: nat, topN: int): real
    requires topN != 0
  {
    2.0 * (matches as real) / (topN as real) - 1.0
  }

  /** The reference score: the sum of the terms of the pairs. */
  function ScoreSum(sets: seq<ConformalSet>, ps: seq<Pair>, topN: int): real
    requires InRange(ps, |sets|) && topN != 0
  {
    if ps == [] then 0.0
    else Term(Matches(sets, ps[0]), topN) + ScoreSum(sets, ps[1..], topN)
  }

  /** The loop of `calculate_score` over the pairs `ps`: each pair's
      intersection (a disjoint pair raises) adds 2 x matches / top_n - 1;
      a zero top_n raises on the first pair. */
  function ScoreOver(sets: seq<ConformalSet>, ps: seq<Pair>, topN: int): (r: Result<real>)
    requires InRange(ps, |sets|)
    ensures r.Ok? <==> ps == [] || (AllOverlap(sets, ps) && topN != 0)
    ensures r.Err? ==> r.error in {NonPositiveTopN, DivisionByZero}
    ensures r.Ok? && topN != 0 ==> r.value == ScoreSum(sets, ps, topN)
  {
    if ps == [] then Ok(0.0)
    else
      var p := ps[0];
      assert InRange(ps[1..], |sets|);
      assert AllOverlap(sets, ps) <==> Overlap(sets, p) && AllOverlap(sets, ps[1..]) by {
        assert forall t :: 0 <= t < |ps| - 1 ==> ps[1..][t] == ps[t + 1];
      }
      var inter :- Intersection(sets[p.i], sets[p.j]);
      if topN == 0 then Err(DivisionByZero)
      else
        var rest :- ScoreOver(sets, ps[1..], topN);
        Ok(Term(|inter.states|, topN) + rest)
  }

  /** `calculate_score` inside `calculate_conformity`; the logistic map
      applied afterwards is not modelled. */
  function ConformityScore(sets: seq<ConformalSet>, topN: int): (r: Result<real>)
    ensures r.Err? <==> sets == [] || !AllOverlap(sets, PairWalk(|sets|).value) ||
                        (topN == 0 && |sets| >= 2)
    ensures r.Ok? && topN != 0 ==> r.value == ScoreSum(sets, PairWalk(|sets|).value, topN)
  {
    var ps :- PairWalk(|sets|);
    PairWalkSpec(|sets|);
    ScoreOver(sets, ps, topN)
  }

  /** Each term lies between -1 and 1 while no set holds more than top_n
      states. */
  lemma TermBounds(matches: nat, topN: int)
    requires topN > 0 && matches <= topN
    ensures -1.0 <= Term(matches, topN) <= 1.0
  {
    var t := topN as real;
    var m := matches as real;
    assert 2.0 * m / t == 2.0 * (m / t);
    FractionAtMostOne(m, t);
  }

  lemma FractionAtMostOne(m: real, t: real)
    requires 0.0 <= m <= t && t > 0.0
    ensures 0.0 <= m / t <= 1.0
  {
  }

  /** Sets of at most top_n states give a score between -p and p, p the
      number of pairs. */
  lemma {:induction false} ScoreSumBounds(sets: seq<ConformalSet>, ps: seq<Pair>, topN: int)
    requires InRange(ps, |sets|) && topN > 0
    requires forall t :: 0 <= t < |sets| ==> |sets[t].states| <= topN
    ensures -(|ps| as real) <= ScoreSum(sets, ps, topN) <= |ps| as real
  {
    if ps != [] {
      var p := ps[0];
      assert InRange(ps[1..], |sets|);
      ScoreSumBounds(sets, ps[1..], topN);
      ElemsAtMost(sets[p.i].states);
      assert Elems(sets[p.i].states) * Elems(sets[p.j].states) <= Elems(sets[p.i].states);
      SubsetCard(Elems(sets[p.i].states) * Elems(sets[p.j].states), Elems(sets[p.i].states));
      TermBounds(Matches(sets, p), topN);
    }
  }

  lemma FullTerm(n: nat)
    requires n > 0
    ensures Term(n, n) == 1.0
  {
    var x := n as real;
    assert 2.0 * x / x == 2.0;
  }

  /** Two identical sets of top_n distinct states score 2, not the 1 of
      their single comparison: the walk also pairs the last set with
      itself. */
  lemma TwoEqualSetsScoreTwo(a: ConformalSet)
    requires Distinct(a.states) && a.states != []
    ensures ConformityScore([a, a], |a.states|) == Ok(2.0)
  {
    var sets := [a, a];
    var n := |a.states|;
    PairWalkSpec(2);
    var ps := [Pair(0, 1), Pair(1, 1)];
    assert PairWalk(2).value == ps;
    assert Elems(a.states) * Elems(a.states) == Elems(a.states);
    assert a.states[0] in Elems(a.states);
    assert AllOverlap(sets, ps);
    DistinctCard(a.states);
    assert Matches(sets, ps[0]) == n && Matches(sets, ps[1]) == n;
    FullTerm(n);
    assert ScoreSum(sets, ps[1..], n) == 1.0;
    assert ScoreSum(sets, ps, n) == 2.0;
  }
}
