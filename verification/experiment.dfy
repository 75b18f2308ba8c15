/** The experiment layer (ftqc/experiment/util.py and
    ftqc/experiment/ftqc_experiment.py): the position of the correct state
    in a ranked record, the binary labels of the best states, the
    per-result position views, and the order in which a run collects its
    results. */
module Experiment {
  import opened Failures
  import opened Seqs
  import opened Entities
  import opened Orchestrator
  import opened Provider

  // ---------------------------------------------------------------------
  // determine_position
  // ---------------------------------------------------------------------

  /** The correct answer handed to `determine_position`: one state, or a
      list of states, which is what `run_experiment` passes (the result of
      `simulate_and_retrieve_best_solution`). */
  datatype Truth = OneState(state: State) | StateList(states: seq<State>)

  /** Python's `state == correct_state`: a string never equals a list. */
  predicate Matches(s: State, t: Truth) {
    t == OneState(s)
  }

  /** The position of the first state of `xs` that matches `t`. */
  function PositionIn(xs: seq<State>, t: Truth): (r: Result<nat>)
    ensures r.Err? ==> r.error == StateNotMeasured
    ensures r.Ok? ==> r.value < |xs|
  {
    if xs == [] then Err(StateNotMeasured)
    else if Matches(xs[0], t) then Ok(0)
    else
      var p :- PositionIn(xs[1..], t);
      Ok(p + 1)
  }

  /** The search fails exactly when nothing matches, and otherwise finds
      the first match. */
  lemma {:induction false} PositionInSpec(xs: seq<State>, t: Truth)
    ensures PositionIn(xs, t).Err? <==> forall q :: 0 <= q < |xs| ==> !Matches(xs[q], t)
    ensures PositionIn(xs, t).Ok? ==> Matches(xs[PositionIn(xs, t).value], t)
    ensures PositionIn(xs, t).Ok? ==> forall q :: 0 <= q < PositionIn(xs, t).value ==> !Matches(xs[q], t)
  {
    if xs != [] && !Matches(xs[0], t) {
      PositionInSpec(xs[1..], t);
      assert forall q :: 0 < q < |xs| ==> xs[q] == xs[1..][q - 1];
    }
  }

  /** `determine_position`: how many states `rank()` lists before the
      correct one; raises when the record never measured it. */
  function DeterminePosition(t: Truth, m: Measurements): Result<nat> {
    PositionIn(Rank(m), t)
  }

  /** For a well-formed record and a single correct state the position
      exists exactly when the state was measured, is below the number of
      measured states, and is the only index of `rank()` holding it. */
  lemma DeterminePositionSpec(s: State, m: Measurements)
    requires m.hist.Valid()
    ensures DeterminePosition(OneState(s), m).Ok? <==> s in m.hist.states
    ensures DeterminePosition(OneState(s), m).Ok? ==>
              var p := DeterminePosition(OneState(s), m).value;
              p < |m.hist.states| && Rank(m)[p] == s &&
              forall q :: 0 <= q < |Rank(m)| && Rank(m)[q] == s ==> q == p
  {
    RankIsStableSort(m);
    var rk := Rank(m);
    PositionInSpec(rk, OneState(s));
    assert |rk| == |m.hist.states| by {
      assert |multiset(rk)| == |multiset(m.hist.states)|;
    }
    assert s in m.hist.states <==> s in multiset(rk);
    if DeterminePosition(OneState(s), m).Err? {
      assert forall q :: 0 <= q < |rk| ==> rk[q] != s;
    }
  }

  /** A list of states as the correct answer is never found, whatever the
      record holds. */
  lemma ListTruthNeverFound(ss: seq<State>, m: Measurements)
    ensures DeterminePosition(StateList(ss), m) == Err(StateNotMeasured)
  {
    PositionInSpec(Rank(m), StateList(ss));
  }

  // ---------------------------------------------------------------------
  // getbinary
  // ---------------------------------------------------------------------

  predicate IsBit(c: char) {
    c == '0' || c == '1'
  }

  predicate AllBits(s: string) {
    forall k :: 0 <= k < |s| ==> IsBit(s[k])
  }

  function Bit(b: nat): char
    requires b < 2
  {
    if b == 0 then '0' else '1'
  }

  function BitValue(c: char): nat
    requires IsBit(c)
  {
    if c == '0' then 0 else 1
  }

  /** `format(x, 'b')`: the binary digits of x, without leading zeros. */
  function Bin(x: nat): (s: string)
    ensures s != [] && AllBits(s)
  {
    if x < 2 then [Bit(x)] else Bin(x / 2) + [Bit(x % 2)]
  }

  function Zeros(k: nat): (s: string)
    ensures |s| == k && forall i :: 0 <= i < k ==> s[i] == '0'
  {
    seq(k, _ => '0')
  }

  /** `str.zfill(n)` on a digit string: left-padded with '0' to length n,
      never shortened. */
  function ZFill(s: string, n: int): string {
    if |s| >= n then s else Zeros(n - |s|) + s
  }

  /** The `getbinary` lambda: `format(x, 'b').zfill(n)`. */
  function GetBinary(x: nat, n: int): (r: string)
    ensures AllBits(r)
    ensures |r| == (if n > |Bin(x)| then n else |Bin(x)|)
    ensures r[|r| - |Bin(x)|..] == Bin(x)
    ensures forall k :: 0 <= k < |r| - |Bin(x)| ==> r[k] == '0'
  {
    ZFill(Bin(x), n)
  }

  /** The value of a string of binary digits. */
  function ParseBin(s: string): nat
    requires AllBits(s)
  {
    if s == [] then 0 else 2 * ParseBin(s[..|s| - 1]) + BitValue(s[|s| - 1])
  }

  lemma {:induction false} ParseBinOfBin(x: nat)
    ensures ParseBin(Bin(x)) == x
  {
    if x >= 2 {
      ParseBinOfBin(x / 2);
      var s := Bin(x);
      assert s[..|s| - 1] == Bin(x / 2);
    }
  }

  lemma {:induction false} ParseBinOfZeros(k: nat)
    ensures ParseBin(Zeros(k)) == 0
  {
    if k > 0 {
      assert Zeros(k)[..k - 1] == Zeros(k - 1);
      ParseBinOfZeros(k - 1);
    }
  }

  lemma {:induction false} LeadingZerosDoNotCount(k: nat, s: string)
    requires AllBits(s)
    ensures AllBits(Zeros(k) + s)
    ensures ParseBin(Zeros(k) + s) == ParseBin(s)
  {
    if s == [] {
      assert Zeros(k) + s == Zeros(k);
      ParseBinOfZeros(k);
    } else {
      var t := s[..|s| - 1];
      assert (Zeros(k) + s)[..|Zeros(k) + s| - 1] == Zeros(k) + t;
      LeadingZerosDoNotCount(k, t);
    }
  }

  /** The padded label still reads back as x. */
  lemma GetBinaryRoundTrip(x: nat, n: int)
    ensures ParseBin(GetBinary(x, n)) == x
  {
    ParseBinOfBin(x);
    if |Bin(x)| < n {
      LeadingZerosDoNotCount(n - |Bin(x)|, Bin(x));
    }
  }

  function Pow2(n: nat): nat {
    if n == 0 then 1 else 2 * Pow2(n - 1)
  }

  lemma {:induction false} BinFits(x: nat, n: nat)
    requires n >= 1 && x < Pow2(n)
    ensures |Bin(x)| <= n
  {
    if x >= 2 {
      assert n >= 2;
      BinFits(x / 2, n - 1);
    }
  }

  /** An index below 2^n gets a label of exactly n digits (n >= 1). */
  lemma GetBinaryWidth(x: nat, n: nat)
    requires n >= 1 && x < Pow2(n)
    ensures |GetBinary(x, n)| == n
  {
    BinFits(x, n);
  }

  // ---------------------------------------------------------------------
  // ExperimentResult
  // ---------------------------------------------------------------------

  /** `ExperimentResult`: the container's id (not the container), the
      correct answer, and the aggregated and single records. */
  datatype ExperimentResult = ExperimentResult(containerId: string, truth: Truth,
                                               aggregate: Measurements, singles: seq<Measurements>)

  /** The position of the correct answer in every record, in order; the
      first record without it raises. */
  function Positions(t: Truth, ms: seq<Measurements>): Result<seq<nat>> {
    Traverse(ms, m => DeterminePosition(t, m))
  }

  /** The positions exist exactly when every record holds the correct
      answer, and the k-th is the position in record k. */
  lemma PositionsSpec(t: Truth, ms: seq<Measurements>)
    ensures Positions(t, ms).Ok? <==> forall k :: 0 <= k < |ms| ==> DeterminePosition(t, ms[k]).Ok?
    ensures Positions(t, ms).Ok? ==> (|Positions(t, ms).value| == |ms| &&
              forall k :: 0 <= k < |ms| ==> Positions(t, ms).value[k] == DeterminePosition(t, ms[k]).value)
    ensures Positions(t, ms).Err? ==> Positions(t, ms).error == StateNotMeasured
  {
    TraverseSpec(ms, m => DeterminePosition(t, m));
  }

  /** `avg_postion`: the mean position over the single records; no
      records divide by zero. */
  function AvgPosition(e: ExperimentResult): (r: Result<real>)
    ensures r.Err? <==> e.singles == [] || Positions(e.truth, e.singles).Err?
    ensures r.Err? ==> r.error == (if Positions(e.truth, e.singles).Err? then StateNotMeasured else DivisionByZero)
  {
    PositionsSpec(e.truth, e.singles);
    var ps :- Positions(e.truth, e.singles);
    if |ps| == 0 then Err(DivisionByZero)
    else Ok((SumNats(ps) as real) / (|ps| as real))
  }

  function MinOf(ps: seq<nat>): (m: nat)
    requires ps != []
    ensures m in ps && forall k :: 0 <= k < |ps| ==> m <= ps[k]
  {
    if |ps| == 1 then ps[0]
    else
      var m := MinOf(ps[1..]);
      assert forall k :: 0 < k < |ps| ==> ps[k] == ps[1..][k - 1];
      if ps[0] <= m then ps[0] else m
  }

  function MaxOf(ps: seq<nat>): (m: nat)
    requires ps != []
    ensures m in ps && forall k :: 0 <= k < |ps| ==> ps[k] <= m
  {
    if |ps| == 1 then ps[0]
    else
      var m := MaxOf(ps[1..]);
      assert forall k :: 0 < k < |ps| ==> ps[k] == ps[1..][k - 1];
      if ps[0] >= m then ps[0] else m
  }

  lemma {:induction false} SumBetween(ps: seq<nat>, lo: nat, hi: nat)
    requires forall k :: 0 <= k < |ps| ==> lo <= ps[k] <= hi
    ensures |ps| * lo <= SumNats(ps) <= |ps| * hi
  {
    if ps != [] {
      assert forall k :: 0 <= k < |ps| - 1 ==> ps[1..][k] == ps[k + 1];
      SumBetween(ps[1..], lo, hi);
      assert |ps| * lo == lo + (|ps| - 1) * lo;
      assert |ps| * hi == hi + (|ps| - 1) * hi;
    }
  }

  lemma Cancel(m: real, a: real, b: real)
    requires m > 0.0 && m * a <= m * b
    ensures a <= b
  {
    assert m * (b - a) >= 0.0;
  }

  lemma Scale(x: real, m: real, lo: real, hi: real)
    requires m > 0.0 && m * lo <= x <= m * hi
    ensures lo <= x / m <= hi
  {
    var q := x / m;
    assert x == m * q;
    Cancel(m, lo, q);
    Cancel(m, q, hi);
  }

  lemma DivBetween(s: nat, n: nat, lo: nat, hi: nat)
    requires n > 0 && n * lo <= s <= n * hi
    ensures lo as real <= (s as real) / (n as real) <= hi as real
  {
    var x, m := s as real, n as real;
    assert (n * lo) as real == m * (lo as real);
    assert (n * hi) as real == m * (hi as real);
    Scale(x, m, lo as real, hi as real);
  }

  /** The mean position lies between the smallest and the largest single
      position. */
  lemma AvgPositionBetween(e: ExperimentResult)
    requires AvgPosition(e).Ok?
    ensures var ps := Positions(e.truth, e.singles).value;
            ps != [] && MinOf(ps) as real <= AvgPosition(e).value <= MaxOf(ps) as real
  {
    var ps := Positions(e.truth, e.singles).value;
    SumBetween(ps, MinOf(ps), MaxOf(ps));
    DivBetween(SumNats(ps), |ps|, MinOf(ps), MaxOf(ps));
  }

  /** The loop of `position_of_closest` from the records `ms` on, `last`
      holding the position seen last. */
  function ClosestFrom(t: Truth, ms: seq<Measurements>, last: Option<nat>): (r: Result<Option<nat>>)
    ensures r.Err? ==> r.error == StateNotMeasured
    ensures r == Ok(None) <==> ms == [] && last == None
  {
    if ms == [] then Ok(last)
    else
      var pos :- DeterminePosition(t, ms[0]);
      if pos == 0 then Ok(Some(0)) else ClosestFrom(t, ms[1..], Some(pos))
  }

  /** `position_of_closest`: 0 as soon as a record ranks the correct state
      first, otherwise the position in the LAST record (not the smallest
      one), and None without records. */
  function PositionOfClosest(e: ExperimentResult): Result<Option<nat>> {
    ClosestFrom(e.truth, e.singles, None)
  }

  /** Every record before index k resolves to a non-zero position, so the
      loop of `position_of_closest` goes on past it. */
  predicate NonZeroUpTo(t: Truth, ms: seq<Measurements>, k: nat)
    requires k <= |ms|
  {
    forall j :: 0 <= j < k ==> DeterminePosition(t, ms[j]).Ok? && DeterminePosition(t, ms[j]).value != 0
  }

  /** The loop stops at record k: every earlier record resolved to a
      non-zero position, and record k either raises or gives 0. */
  predicate StopsAt(t: Truth, ms: seq<Measurements>, k: nat) {
    k < |ms| && NonZeroUpTo(t, ms, k) &&
    (DeterminePosition(t, ms[k]).Err? || DeterminePosition(t, ms[k]) == Ok(0))
  }

  lemma NonZeroTail(t: Truth, ms: seq<Measurements>, k: nat)
    requires ms != [] && k < |ms|
    requires DeterminePosition(t, ms[0]).Ok? && DeterminePosition(t, ms[0]).value != 0
    ensures NonZeroUpTo(t, ms, k + 1) <==> NonZeroUpTo(t, ms[1..], k)
    ensures StopsAt(t, ms, k + 1) <==> StopsAt(t, ms[1..], k)
  {
    assert forall j :: 0 < j < |ms| ==> ms[1..][j - 1] == ms[j];
  }

  /** The loop either stops at some record or passes all of them. */
  lemma {:induction false} StopOrPass(t: Truth, ms: seq<Measurements>)
    ensures (exists k: nat :: StopsAt(t, ms, k)) || NonZeroUpTo(t, ms, |ms|)
  {
    if ms != [] {
      var d := DeterminePosition(t, ms[0]);
      if d.Err? || d == Ok(0) {
        assert StopsAt(t, ms, 0);
      } else {
        StopOrPass(t, ms[1..]);
        if k: nat :| StopsAt(t, ms[1..], k) {
          NonZeroTail(t, ms, k);
        } else {
          NonZeroTail(t, ms, |ms| - 1);
        }
      }
    }
  }

  /** A record with a non-zero position hands the loop on to the rest. */
  lemma ClosestStep(t: Truth, ms: seq<Measurements>, last: Option<nat>)
    requires ms != [] && DeterminePosition(t, ms[0]).Ok? && DeterminePosition(t, ms[0]).value != 0
    ensures ClosestFrom(t, ms, last) == ClosestFrom(t, ms[1..], Some(DeterminePosition(t, ms[0]).value))
  {
  }

  /** Stopping at record k decides the loop, whatever the later records. */
  lemma {:induction false} ClosestStops(t: Truth, ms: seq<Measurements>, last: Option<nat>, k: nat)
    requires StopsAt(t, ms, k)
    ensures ClosestFrom(t, ms, last) == (if DeterminePosition(t, ms[k]).Err? then Err(StateNotMeasured) else Ok(Some(0)))
  {
    if k > 0 {
      assert DeterminePosition(t, ms[0]).Ok? && DeterminePosition(t, ms[0]).value != 0;
      var p := DeterminePosition(t, ms[0]).value;
      ClosestStep(t, ms, last);
      NonZeroTail(t, ms, k - 1);
      ClosestStops(t, ms[1..], Some(p), k - 1);
      assert ms[1..][k - 1] == ms[k];
    }
  }

  /** Passing every record leaves the last record's position. */
  lemma {:induction false} ClosestPasses(t: Truth, ms: seq<Measurements>, last: Option<nat>)
    requires NonZeroUpTo(t, ms, |ms|)
    ensures ClosestFrom(t, ms, last) == Ok(if ms == [] then last else Some(DeterminePosition(t, ms[|ms| - 1]).value))
  {
    if ms != [] {
      var tl := ms[1..];
      assert DeterminePosition(t, ms[0]).Ok? && DeterminePosition(t, ms[0]).value != 0;
      var p := DeterminePosition(t, ms[0]).value;
      ClosestStep(t, ms, last);
      NonZeroTail(t, ms, |tl|);
      ClosestPasses(t, tl, Some(p));
      if tl != [] {
        assert ms[|ms| - 1] == tl[|tl| - 1];
      }
    }
  }

  /** The loop of `position_of_closest`, for every list of records: it
      either stops at some record or passes all of them. Stopping at a
      record raises when that record lacks the correct answer and returns 0
      when it ranks it first, whatever the later records hold; passing all
      of them returns the last record's position (or `last` without
      records). */
  lemma ClosestFromSpec(t: Truth, ms: seq<Measurements>, last: Option<nat>)
    ensures (exists k: nat :: StopsAt(t, ms, k)) || NonZeroUpTo(t, ms, |ms|)
    ensures forall k: nat :: StopsAt(t, ms, k) ==>
              ClosestFrom(t, ms, last) == (if DeterminePosition(t, ms[k]).Err? then Err(StateNotMeasured) else Ok(Some(0)))
    ensures NonZeroUpTo(t, ms, |ms|) ==>
              ClosestFrom(t, ms, last) == Ok(if ms == [] then last else Some(DeterminePosition(t, ms[|ms| - 1]).value))
  {
    StopOrPass(t, ms);
    forall k: nat | StopsAt(t, ms, k)
      ensures ClosestFrom(t, ms, last) == (if DeterminePosition(t, ms[k]).Err? then Err(StateNotMeasured) else Ok(Some(0)))
    {
      ClosestStops(t, ms, last, k);
    }
    if NonZeroUpTo(t, ms, |ms|) {
      ClosestPasses(t, ms, last);
    }
  }

  /** `position_of_closest`, for every result: it is 0 exactly when some
      record ranks the correct state first and no earlier record raises or
      gives 0; it raises exactly when a record without the correct answer
      comes before any 0, so a 0 hides the errors of the later records;
      and when every record holds the answer and none ranks it first, it is
      the LAST record's position, not the smallest. */
  lemma PositionOfClosestSpec(e: ExperimentResult)
    ensures PositionOfClosest(e) == Ok(Some(0)) <==>
              exists k: nat :: StopsAt(e.truth, e.singles, k) && DeterminePosition(e.truth, e.singles[k]) == Ok(0)
    ensures PositionOfClosest(e).Err? <==>
              exists k: nat :: StopsAt(e.truth, e.singles, k) && DeterminePosition(e.truth, e.singles[k]).Err?
    ensures Positions(e.truth, e.singles).Ok? && e.singles != [] && 0 !in Positions(e.truth, e.singles).value ==>
              PositionOfClosest(e) == Ok(Some(Positions(e.truth, e.singles).value[|e.singles| - 1]))
  {
    var t, ms := e.truth, e.singles;
    ClosestFromSpec(t, ms, None);
    PositionsSpec(t, ms);
    if Positions(t, ms).Ok? && ms != [] && 0 !in Positions(t, ms).value {
      var ps := Positions(t, ms).value;
      assert NonZeroUpTo(t, ms, |ms|) by {
        assert forall j :: 0 <= j < |ms| ==> ps[j] == DeterminePosition(t, ms[j]).value;
      }
    }
    if NonZeroUpTo(t, ms, |ms|) && ms != [] {
      assert DeterminePosition(t, ms[|ms| - 1]).value != 0;
    }
  }

  /** `position_of_agg`: the position in the aggregated record. */
  function PositionOfAgg(e: ExperimentResult): Result<nat> {
    DeterminePosition(e.truth, e.aggregate)
  }

  /** A result whose correct answer is a list of states (as every result of
      `run_experiment` is) has no position anywhere: every view raises,
      except `position_of_closest` without records. */
  lemma ListTruthViewsRaise(e: ExperimentResult)
    requires e.truth.StateList?
    ensures PositionOfAgg(e) == Err(StateNotMeasured)
    ensures AvgPosition(e).Err?
    ensures PositionOfClosest(e) == (if e.singles == [] then Ok(None) else Err(StateNotMeasured))
  {
    var ss := e.truth.states;
    ListTruthNeverFound(ss, e.aggregate);
    if e.singles != [] {
      ListTruthNeverFound(ss, e.singles[0]);
    }
  }

  // ---------------------------------------------------------------------
  // run_experiment
  // ---------------------------------------------------------------------

  /** The innermost loop: one result per container for one circuit. */
  function ResultsForCircuit(table: seq<Entry>, circuit: Circuit, truth: seq<State>, cs: seq<Container>)
    : (r: Result<seq<ExperimentResult>>)
    ensures r.Err? ==> r.error == NoResult
    ensures r.Ok? ==> |r.value| == |cs|
  {
    if cs == [] then Ok([])
    else
      var (agg, single) :- GetResultFor(table, circuit, cs[0]);
      var rest := ResultsForCircuit(table, circuit, truth, cs[1..]);
      if rest.Err? then Err(rest.error)
      else Ok([ExperimentResult(cs[0].id, StateList(truth), agg, single)] + rest.value)
  }

  /** The results for one circuit exist exactly when every container can
      be looked up, and the j-th is container j's lookup, labelled with
      the container's id and the circuit's correct answer. */
  lemma {:induction false} ResultsForCircuitSpec(table: seq<Entry>, circuit: Circuit, truth: seq<State>,
                                                 cs: seq<Container>)
    ensures ResultsForCircuit(table, circuit, truth, cs).Ok? <==>
            forall j :: 0 <= j < |cs| ==> GetResultFor(table, circuit, cs[j]).Ok?
    ensures ResultsForCircuit(table, circuit, truth, cs).Ok? ==>
            forall j :: 0 <= j < |cs| ==>
              ResultsForCircuit(table, circuit, truth, cs).value[j] ==
              ExperimentResult(cs[j].id, StateList(truth),
                               GetResultFor(table, circuit, cs[j]).value.0,
                               GetResultFor(table, circuit, cs[j]).value.1)
  {
    if cs != [] {
      ResultsForCircuitSpec(table, circuit, truth, cs[1..]);
      assert forall j :: 0 < j < |cs| ==> cs[j] == cs[1..][j - 1];
    }
  }

  /** The middle loop: each circuit of the batch in order, its correct
      answer from `groundTruth` (the simulator is a parameter). */
  function ResultsForCircuits(table: seq<Entry>, circuits: seq<Circuit>, groundTruth: Circuit -> seq<State>,
                              cs: seq<Container>)
    : (r: Result<seq<ExperimentResult>>)
    ensures r.Err? ==> r.error == NoResult
  {
    if circuits == [] then Ok([])
    else
      var first :- ResultsForCircuit(table, circuits[0], groundTruth(circuits[0]), cs);
      var rest := ResultsForCircuits(table, circuits[1..], groundTruth, cs);
      if rest.Err? then Err(rest.error)
      else Ok(first + rest.value)
  }

  /** A batch's results exist exactly when every (circuit, container) pair
      can be looked up. */
  lemma {:induction false} ResultsForCircuitsOk(table: seq<Entry>, circuits: seq<Circuit>,
                                                groundTruth: Circuit -> seq<State>, cs: seq<Container>)
    ensures ResultsForCircuits(table, circuits, groundTruth, cs).Ok? <==>
            forall i, j :: 0 <= i < |circuits| && 0 <= j < |cs| ==> GetResultFor(table, circuits[i], cs[j]).Ok?
  {
    if circuits != [] {
      ResultsForCircuitSpec(table, circuits[0], groundTruth(circuits[0]), cs);
      ResultsForCircuitsOk(table, circuits[1..], groundTruth, cs);
      assert forall i :: 0 < i < |circuits| ==> circuits[i] == circuits[1..][i - 1];
    }
  }

  /** Result i x |cs| + j is the one for circuit i and container j. */
  lemma ResultsForCircuitsAt(table: seq<Entry>, circuits: seq<Circuit>,
                             groundTruth: Circuit -> seq<State>, cs: seq<Container>, i: nat, j: nat)
    requires ResultsForCircuits(table, circuits, groundTruth, cs).Ok?
    requires i < |circuits| && j < |cs|
    ensures |ResultsForCircuits(table, circuits, groundTruth, cs).value| == |circuits| * |cs|
    ensures Slot(i, j, |cs|) < |circuits| * |cs|
    ensures GetResultFor(table, circuits[i], cs[j]).Ok?
    ensures ResultsForCircuits(table, circuits, groundTruth, cs).value[Slot(i, j, |cs|)] ==
            ExperimentResult(cs[j].id, StateList(groundTruth(circuits[i])),
                             GetResultFor(table, circuits[i], cs[j]).value.0,
                             GetResultFor(table, circuits[i], cs[j]).value.1)
  {
    ResultsLength(table, circuits, groundTruth, cs);
    BlockAt(table, circuits, groundTruth, cs, i, j);
    BlockStartIsSlot(i, j, |cs|);
    ResultsForCircuitSpec(table, circuits[i], groundTruth(circuits[i]), cs);
  }

  /** Where the block of circuit i starts among blocks of k results: i x k,
      added up block by block. */
  function BlockStart(i: nat, k: nat): nat {
    if i == 0 then 0 else k + BlockStart(i - 1, k)
  }

  lemma {:induction false} BlockStartIsSlot(i: nat, j: nat, k: nat)
    ensures BlockStart(i, k) + j == Slot(i, j, k)
  {
    if i > 0 {
      BlockStartIsSlot(i - 1, j, k);
      assert i * k == k + (i - 1) * k;
    }
  }

  /** Result i x |cs| + j is the j-th result of circuit i's block. */
  lemma {:induction false} BlockAt(table: seq<Entry>, circuits: seq<Circuit>,
                                   groundTruth: Circuit -> seq<State>, cs: seq<Container>, i: nat, j: nat)
    requires ResultsForCircuits(table, circuits, groundTruth, cs).Ok?
    requires i < |circuits| && j < |cs|
    ensures ResultsForCircuit(table, circuits[i], groundTruth(circuits[i]), cs).Ok?
    ensures BlockStart(i, |cs|) + j < |ResultsForCircuits(table, circuits, groundTruth, cs).value|
    ensures ResultsForCircuits(table, circuits, groundTruth, cs).value[BlockStart(i, |cs|) + j] ==
            ResultsForCircuit(table, circuits[i], groundTruth(circuits[i]), cs).value[j]
  {
    var k := |cs|;
    ResultsUnfold(table, circuits, groundTruth, cs);
    var first := ResultsForCircuit(table, circuits[0], groundTruth(circuits[0]), cs).value;
    var rest := ResultsForCircuits(table, circuits[1..], groundTruth, cs).value;
    if i > 0 {
      BlockAt(table, circuits[1..], groundTruth, cs, i - 1, j);
      assert circuits[1..][i - 1] == circuits[i];
      IndexAfter(first, rest, BlockStart(i - 1, k) + j);
    } else {
      IndexBefore(first, rest, j);
    }
  }

  lemma IndexBefore<T>(a: seq<T>, b: seq<T>, q: nat)
    requires q < |a|
    ensures q < |a + b| && (a + b)[q] == a[q]
  {
  }

  lemma IndexAfter<T>(a: seq<T>, b: seq<T>, q: nat)
    requires q < |b|
    ensures |a| + q < |a + b| && (a + b)[|a| + q] == b[q]
  {
  }

  /** A successful pass over a non-empty list of circuits is the first
      circuit's results followed by the rest's. */
  lemma ResultsUnfold(table: seq<Entry>, circuits: seq<Circuit>, groundTruth: Circuit -> seq<State>,
                      cs: seq<Container>)
    requires ResultsForCircuits(table, circuits, groundTruth, cs).Ok? && circuits != []
    ensures ResultsForCircuit(table, circuits[0], groundTruth(circuits[0]), cs).Ok?
    ensures ResultsForCircuits(table, circuits[1..], groundTruth, cs).Ok?
    ensures ResultsForCircuits(table, circuits, groundTruth, cs).value ==
            ResultsForCircuit(table, circuits[0], groundTruth(circuits[0]), cs).value +
            ResultsForCircuits(table, circuits[1..], groundTruth, cs).value
  {
  }

  lemma {:induction false} ResultsLength(table: seq<Entry>, circuits: seq<Circuit>,
                                         groundTruth: Circuit -> seq<State>, cs: seq<Container>)
    requires ResultsForCircuits(table, circuits, groundTruth, cs).Ok?
    ensures |ResultsForCircuits(table, circuits, groundTruth, cs).value| == |circuits| * |cs|
  {
    if circuits != [] {
      ResultsUnfold(table, circuits, groundTruth, cs);
      ResultsLength(table, circuits[1..], groundTruth, cs);
      MulDistributes(1, |circuits| - 1, |cs|);
    }
  }

  /** `run_experiment` over the provider's batches: per batch a fresh
      orchestrator runs the batch, then one result per (circuit, container)
      in circuit, then container order. */
  function RunExperiment(cs: seq<Container>, batches: seq<CircuitBatch>, groundTruth: Circuit -> seq<State>,
                         execute: (Device, seq<Variant>) -> Execution,
                         aggregate: (Container, seq<Measurements>) -> Result<Measurements>)
    : (r: Result<seq<ExperimentResult>>)
  {
    if batches == [] then Ok([])
    else
      var o :- OrchestrateExecutions(NewOrchestrator(cs), batches[0].circuits, execute, aggregate);
      var first :- ResultsForCircuits(o.results, batches[0].circuits, groundTruth, cs);
      var rest :- RunExperiment(cs, batches[1..], groundTruth, execute, aggregate);
      Ok(first + rest)
  }

  /** A run yields |containers| results per circuit of every batch. */
  lemma {:induction false} RunExperimentLength(cs: seq<Container>, batches: seq<CircuitBatch>,
                                               groundTruth: Circuit -> seq<State>,
                                               execute: (Device, seq<Variant>) -> Execution,
                                               aggregate: (Container, seq<Measurements>) -> Result<Measurements>)
    requires RunExperiment(cs, batches, groundTruth, execute, aggregate).Ok?
    ensures |RunExperiment(cs, batches, groundTruth, execute, aggregate).value| == TotalCircuits(batches) * |cs|
  {
    if batches != [] {
      RunUnfold(cs, batches, groundTruth, execute, aggregate);
      var o := OrchestrateExecutions(NewOrchestrator(cs), batches[0].circuits, execute, aggregate).value;
      ResultsLength(o.results, batches[0].circuits, groundTruth, cs);
      RunExperimentLength(cs, batches[1..], groundTruth, execute, aggregate);
      var first := ResultsForCircuits(o.results, batches[0].circuits, groundTruth, cs).value;
      var rest := RunExperiment(cs, batches[1..], groundTruth, execute, aggregate).value;
      assert TotalCircuits(batches) == |batches[0].circuits| + TotalCircuits(batches[1..]);
      ConcatLength(first, rest, |batches[0].circuits|, TotalCircuits(batches[1..]), |cs|, TotalCircuits(batches));
    }
  }

  lemma ConcatLength(first: seq<ExperimentResult>, rest: seq<ExperimentResult>, n: nat, m: nat, k: nat, total: nat)
    requires |first| == n * k && |rest| == m * k && total == n + m
    ensures |first + rest| == total * k
  {
    MulDistributes(n, m, k);
  }

  /** A successful run over a non-empty list of batches is the first
      batch's results followed by the rest's. */
  lemma RunUnfold(cs: seq<Container>, batches: seq<CircuitBatch>, groundTruth: Circuit -> seq<State>,
                  execute: (Device, seq<Variant>) -> Execution,
                  aggregate: (Container, seq<Measurements>) -> Result<Measurements>)
    requires batches != [] && RunExperiment(cs, batches, groundTruth, execute, aggregate).Ok?
    ensures OrchestrateExecutions(NewOrchestrator(cs), batches[0].circuits, execute, aggregate).Ok?
    ensures var o := OrchestrateExecutions(NewOrchestrator(cs), batches[0].circuits, execute, aggregate).value;
            ResultsForCircuits(o.results, batches[0].circuits, groundTruth, cs).Ok? &&
            RunExperiment(cs, batches[1..], groundTruth, execute, aggregate).Ok? &&
            RunExperiment(cs, batches, groundTruth, execute, aggregate).value ==
            ResultsForCircuits(o.results, batches[0].circuits, groundTruth, cs).value +
            RunExperiment(cs, batches[1..], groundTruth, execute, aggregate).value
  {
  }

  lemma MulDistributes(n: nat, m: nat, k: nat)
    ensures (n + m) * k == n * k + m * k
  {
  }

  /** With devices that answer for every variant and an aggregator that
      never raises, a run succeeds. */
  lemma {:induction false} CompleteRunSucceeds(cs: seq<Container>, batches: seq<CircuitBatch>,
                                               groundTruth: Circuit -> seq<State>,
                                               execute: (Device, seq<Variant>) -> Execution,
                                               aggregate: (Container, seq<Measurements>) -> Result<Measurements>)
    requires CompleteExecution(execute) && TotalAggregator(aggregate)
    ensures RunExperiment(cs, batches, groundTruth, execute, aggregate).Ok?
  {
    if batches != [] {
      var circuits := batches[0].circuits;
      CompleteRunAnswersEveryPair(cs, circuits, execute, aggregate);
      var o := OrchestrateExecutions(NewOrchestrator(cs), circuits, execute, aggregate).value;
      assert forall j :: 0 <= j < |cs| ==> cs[j] in cs;
      ResultsForCircuitsOk(o.results, circuits, groundTruth, cs);
      CompleteRunSucceeds(cs, batches[1..], groundTruth, execute, aggregate);
    }
  }

  /** Every result carries a list of states as its correct answer. */
  predicate ListTruths(rs: seq<ExperimentResult>) {
    forall k :: 0 <= k < |rs| ==> rs[k].truth.StateList?
  }

  lemma {:induction false} CircuitTruths(table: seq<Entry>, circuit: Circuit, truth: seq<State>, cs: seq<Container>)
    requires ResultsForCircuit(table, circuit, truth, cs).Ok?
    ensures ListTruths(ResultsForCircuit(table, circuit, truth, cs).value)
  {
    ResultsForCircuitSpec(table, circuit, truth, cs);
  }

  lemma {:induction false} CircuitsTruths(table: seq<Entry>, circuits: seq<Circuit>,
                                          groundTruth: Circuit -> seq<State>, cs: seq<Container>)
    requires ResultsForCircuits(table, circuits, groundTruth, cs).Ok?
    ensures ListTruths(ResultsForCircuits(table, circuits, groundTruth, cs).value)
  {
    if circuits != [] {
      ResultsUnfold(table, circuits, groundTruth, cs);
      CircuitTruths(table, circuits[0], groundTruth(circuits[0]), cs);
      CircuitsTruths(table, circuits[1..], groundTruth, cs);
      ConcatListTruths(ResultsForCircuit(table, circuits[0], groundTruth(circuits[0]), cs).value,
                       ResultsForCircuits(table, circuits[1..], groundTruth, cs).value);
    }
  }

  lemma ConcatListTruths(a: seq<ExperimentResult>, b: seq<ExperimentResult>)
    requires ListTruths(a) && ListTruths(b)
    ensures ListTruths(a + b)
  {
    assert forall k :: |a| <= k < |a + b| ==> (a + b)[k] == b[k - |a|];
  }

  /** `run_experiment` hands `ExperimentResult` the simulator's list of
      best states as the correct answer, so none of the results a run
      yields has a position in its aggregated record. */
  lemma {:induction false} RunResultsHaveNoPosition(cs: seq<Container>, batches: seq<CircuitBatch>,
                                                    groundTruth: Circuit -> seq<State>,
                                                    execute: (Device, seq<Variant>) -> Execution,
                                                    aggregate: (Container, seq<Measurements>) -> Result<Measurements>)
    requires RunExperiment(cs, batches, groundTruth, execute, aggregate).Ok?
    ensures forall k :: 0 <= k < |RunExperiment(cs, batches, groundTruth, execute, aggregate).value| ==>
              PositionOfAgg(RunExperiment(cs, batches, groundTruth, execute, aggregate).value[k]) == Err(StateNotMeasured)
  {
    RunTruths(cs, batches, groundTruth, execute, aggregate);
    var rs := RunExperiment(cs, batches, groundTruth, execute, aggregate).value;
    forall k | 0 <= k < |rs|
      ensures PositionOfAgg(rs[k]) == Err(StateNotMeasured)
    {
      ListTruthNeverFound(rs[k].truth.states, rs[k].aggregate);
    }
  }

  lemma {:induction false} RunTruths(cs: seq<Container>, batches: seq<CircuitBatch>,
                                     groundTruth: Circuit -> seq<State>,
                                     execute: (Device, seq<Variant>) -> Execution,
                                     aggregate: (Container, seq<Measurements>) -> Result<Measurements>)
    requires RunExperiment(cs, batches, groundTruth, execute, aggregate).Ok?
    ensures ListTruths(RunExperiment(cs, batches, groundTruth, execute, aggregate).value)
  {
    if batches != [] {
      RunUnfold(cs, batches, groundTruth, execute, aggregate);
      var o := OrchestrateExecutions(NewOrchestrator(cs), batches[0].circuits, execute, aggregate).value;
      CircuitsTruths(o.results, batches[0].circuits, groundTruth, cs);
      RunTruths(cs, batches[1..], groundTruth, execute, aggregate);
      ConcatListTruths(ResultsForCircuits(o.results, batches[0].circuits, groundTruth, cs).value,
                       RunExperiment(cs, batches[1..], groundTruth, execute, aggregate).value);
    }
  }
}
