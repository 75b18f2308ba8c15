/** The counting metrics (ftqc/evaluation/metrics.py) over lists of
    positions of the correct state (0 = ranked first). Positions are reals:
    the callers pass both whole positions and `avg_postion`'s means. Each
    metric is the source's loop, with a recursive reference definition it
    is proved to compute. */
module Metrics {
  import opened Failures

  /** Number of entries equal to 0. */
  function ZeroCount(ps: seq<real>): nat {
    if ps == [] then 0 else ZeroCount(ps[..|ps| - 1]) + (if ps[|ps| - 1] == 0.0 then 1 else 0)
  }

  lemma {:induction false} ZeroCountBounded(ps: seq<real>)
    ensures ZeroCount(ps) <= |ps|
    ensures ZeroCount(ps) == |ps| <==> forall k :: 0 <= k < |ps| ==> ps[k] == 0.0
  {
    if ps != [] {
      var init := ps[..|ps| - 1];
      ZeroCountBounded(init);
      assert forall k :: 0 <= k < |init| ==> init[k] == ps[k];
    }
  }

  /** `NumberOfCorrectCircuits.evaluate`: how many positions are 0. */
  method NumberOfCorrectCircuits(positions: seq<real>) returns (counter: nat)
    ensures counter == ZeroCount(positions)
    ensures counter <= |positions|
  {
    counter := 0;
    for i := 0 to |positions|
      invariant counter == ZeroCount(positions[..i])
    {
      assert positions[..i + 1][..i] == positions[..i];
      if positions[i] == 0.0 {
        counter := counter + 1;
      }
    }
    assert positions[..|positions|] == positions;
    ZeroCountBounded(positions);
  }

  /** Number of indices i < |ps| with ps[i] <= bounds[i]. */
  function WithinCount(ps: seq<real>, bounds: seq<real>): nat
    requires |ps| <= |bounds|
  {
    if ps == [] then 0
    else WithinCount(ps[..|ps| - 1], bounds) + (if ps[|ps| - 1] <= bounds[|ps| - 1] then 1 else 0)
  }

  /** `NumberOfTopTenCircuits.evaluate`: how many positions are within
      their bound; a bound list shorter than the positions raises at its
      first missing index. */
  method NumberOfTopTenCircuits(positions: seq<real>, topTen: seq<real>) returns (r: Result<nat>)
    ensures r.Err? <==> |topTen| < |positions|
    ensures r.Err? ==> r.error == IndexOutOfRange
    ensures r.Ok? ==> r.value == WithinCount(positions, topTen) && r.value <= |positions|
  {
    var counter := 0;
    for i := 0 to |positions|
      invariant i <= |topTen|
      invariant counter == WithinCount(positions[..i], topTen)
      invariant counter <= i
    {
      if i >= |topTen| {
        return Err(IndexOutOfRange);
      }
      assert positions[..i + 1][..i] == positions[..i];
      if positions[i] <= topTen[i] {
        counter := counter + 1;
      }
    }
    assert positions[..|positions|] == positions;
    r := Ok(counter);
  }

  /** The three tallies of `DirectComparison`: `greater` counts the pairs
      where the aggregate ranks the state strictly better, `equal` the
      ties, and `less` every pair that is not strictly better, ties
      included. */
  datatype Tally = Tally(greater: nat, equal: nat, less: nat)

  /** The reference tallies over two equally long lists. */
  function Tallies(agg: seq<real>, ps: seq<real>): Tally
    requires |agg| == |ps|
  {
    if agg == [] then Tally(0, 0, 0)
    else
      var t := Tallies(agg[..|agg| - 1], ps[..|ps| - 1]);
      var a, p := agg[|agg| - 1], ps[|ps| - 1];
      Tally(t.greater + (if a < p then 1 else 0),
            t.equal + (if a == p then 1 else 0),
            t.less + (if a < p then 0 else 1))
  }

  lemma {:induction false} TalliesSpec(agg: seq<real>, ps: seq<real>)
    requires |agg| == |ps|
    ensures Tallies(agg, ps).greater + Tallies(agg, ps).less == |agg|
    ensures Tallies(agg, ps).equal <= Tallies(agg, ps).less
    ensures Tallies(agg, ps).equal == Tallies(agg, ps).less <==>
              forall k :: 0 <= k < |agg| ==> agg[k] <= ps[k]
  {
    if agg != [] {
      var a', p' := agg[..|agg| - 1], ps[..|ps| - 1];
      TalliesSpec(a', p');
      assert forall k :: 0 <= k < |a'| ==> a'[k] == agg[k] && p'[k] == ps[k];
    }
  }

  /** The fractions `DirectComparison` returns: (less, equal, greater),
      each over greater + less + less. */
  datatype Fractions = Fractions(less: real, equal: real, greater: real)

  /** `DirectComparison.evaluate`: the length assertion, the tallying loop,
      then each tally over the denominator greater + 2 x less, which is
      zero exactly for empty lists. */
  method DirectComparison(aggPositions: seq<real>, positions: seq<real>) returns (r: Result<Fractions>)
    ensures r.Err? <==> |aggPositions| != |positions| || aggPositions == []
    ensures r.Err? ==> r.error == (if |aggPositions| != |positions| then LengthMismatch else DivisionByZero)
    ensures r.Ok? ==> var t := Tallies(aggPositions, positions);
                      var sum := (t.greater + 2 * t.less) as real;
                      sum > 0.0 && r.value == Fractions(t.less as real / sum, t.equal as real / sum, t.greater as real / sum)
  {
    if |aggPositions| != |positions| {
      return Err(LengthMismatch);
    }
    var greater, equal, less := 0, 0, 0;
    for i := 0 to |positions|
      invariant Tally(greater, equal, less) == Tallies(aggPositions[..i], positions[..i])
    {
      assert aggPositions[..i + 1][..i] == aggPositions[..i];
      assert positions[..i + 1][..i] == positions[..i];
      if aggPositions[i] == positions[i] {
        equal := equal + 1;
      }
      if aggPositions[i] < positions[i] {
        greater := greater + 1;
      } else {
        less := less + 1;
      }
    }
    assert aggPositions[..|aggPositions|] == aggPositions;
    assert positions[..|positions|] == positions;
    TalliesSpec(aggPositions, positions);
    var sum := greater + less + less;
    if sum == 0 {
      return Err(DivisionByZero);
    }
    var s := sum as real;
    r := Ok(Fractions(less as real / s, equal as real / s, greater as real / s));
  }

  lemma FractionsOverCommon(a: real, b: real, c: real, s: real)
    requires s > 0.0
    ensures a / s + b / s + c / s == (a + b + c) / s
  {
  }

  lemma WholeOver(x: real, s: real)
    requires s > 0.0
    ensures x / s == 1.0 <==> x == s
  {
    if x / s == 1.0 {
      assert x == (x / s) * s;
    }
  }

  /** The three fractions add up to one exactly when the aggregate never
      ranks the state worse than the single record: ties are counted in
      both `equal` and `less`, so the denominator is greater + less + less
      while the numerators add up to greater + less + equal. */
  lemma FractionsSumToOne(agg: seq<real>, ps: seq<real>)
    requires |agg| == |ps| && agg != []
    ensures var t := Tallies(agg, ps);
            var sum := (t.greater + 2 * t.less) as real;
            (t.less as real / sum + t.equal as real / sum + t.greater as real / sum == 1.0) <==>
            forall k :: 0 <= k < |agg| ==> agg[k] <= ps[k]
  {
    TalliesSpec(agg, ps);
    var t := Tallies(agg, ps);
    var sum := (t.greater + 2 * t.less) as real;
    FractionsOverCommon(t.less as real, t.equal as real, t.greater as real, sum);
    WholeOver(t.less as real + t.equal as real + t.greater as real, sum);
  }
}
