/** The linear opinion pool (ftqc/core/combiner.py): per-channel weights,
    a consistency check between the registered and the reporting origins,
    and a weighted sum of per-record probabilities. */
module Combiner {
  import opened Failures
  import opened Seqs
  import opened Entities

  /** The pool's weight per channel. */
  type Weights = map<Channel, real>

  /** `LinearOpinionPool.with_uniform_weights`: every listed channel gets
      weight 1/n, where n counts the list's entries (repeats included). */
  function WithUniformWeights(chs: seq<Channel>): (w: Weights)
    ensures forall ch :: ch in w <==> ch in chs
    ensures forall ch :: ch in w ==> w[ch] == 1.0 / (|chs| as real)
  {
    map ch | ch in chs :: 1.0 / (|chs| as real)
  }

  /** Sum of the weights of the listed channels. */
  function SumWeights(w: Weights, chs: seq<Channel>): real
    requires forall i :: 0 <= i < |chs| ==> chs[i] in w
  {
    if chs == [] then 0.0 else w[chs[0]] + SumWeights(w, chs[1..])
  }

  /** k copies of c added up. */
  function Repeat(c: real, k: nat): real {
    if k == 0 then 0.0 else c + Repeat(c, k - 1)
  }

  lemma {:induction false} SumOfEqualWeights(w: Weights, chs: seq<Channel>, c: real)
    requires forall i :: 0 <= i < |chs| ==> chs[i] in w && w[chs[i]] == c
    ensures SumWeights(w, chs) == Repeat(c, |chs|)
  {
    if chs != [] {
      SumOfEqualWeights(w, chs[1..], c);
    }
  }

  lemma {:induction false} RepeatIsProduct(c: real, k: nat)
    ensures Repeat(c, k) == (k as real) * c
  {
    if k > 0 {
      RepeatIsProduct(c, k - 1);
      assert (k as real) * c == c + ((k - 1) as real) * c;
    }
  }

  lemma {:induction false} RepeatGrows(c: real, k: nat, m: nat)
    requires c > 0.0 && k < m
    ensures Repeat(c, k) < Repeat(c, m)
  {
    if k < m - 1 {
      RepeatGrows(c, k, m - 1);
    }
  }

  /** The uniform weight of a list of m channels: positive, and m copies
      of it make one. */
  lemma UniformShare(m: nat) returns (c: real)
    requires m > 0
    ensures c == 1.0 / (m as real) && c > 0.0 && Repeat(c, m) == 1.0
  {
    c := 1.0 / (m as real);
    RepeatIsProduct(c, m);
  }

  /** Every channel of the list has the uniform weight. */
  lemma UniformCovers(chs: seq<Channel>, d: seq<Channel>)
    requires Elems(d) <= Elems(chs)
    ensures forall i :: 0 <= i < |d| ==>
              d[i] in WithUniformWeights(chs) && WithUniformWeights(chs)[d[i]] == 1.0 / (|chs| as real)
  {
    assert forall i :: 0 <= i < |d| ==> d[i] in Elems(d);
  }

  /** For n distinct channels the uniform weights sum to one; when a
      channel is listed twice its dictionary entry collapses and the
      weights of the distinct channels sum to less than one. */
  lemma UniformWeightsSum(chs: seq<Channel>)
    requires |chs| > 0
    ensures Distinct(chs) ==> SumWeights(WithUniformWeights(chs), chs) == 1.0
    ensures !Distinct(chs) ==> SumWeights(WithUniformWeights(chs), Dedup(chs)) < 1.0
  {
    var w := WithUniformWeights(chs);
    var c := UniformShare(|chs|);
    if Distinct(chs) {
      UniformCovers(chs, chs);
      SumOfEqualWeights(w, chs, c);
    } else {
      var d := Dedup(chs);
      UniformCovers(chs, d);
      SumOfEqualWeights(w, d, c);
      RepeatShrinksSet(chs);
      DistinctCard(d);
      RepeatGrows(c, |d|, |chs|);
    }
  }

  lemma RepeatShrinksSet(s: seq<Channel>)
    requires !Distinct(s)
    ensures |Elems(s)| < |s|
  {
    var i, j :| 0 <= i < j < |s| && s[i] == s[j];
    var t := s[..j] + s[j + 1..];
    assert s == s[..j] + [s[j]] + s[j + 1..];
    assert Elems(t) == Elems(s) by {
      assert s[j] == t[i];
      assert Elems(s) == Elems(s[..j]) + {s[j]} + Elems(s[j + 1..]);
      assert Elems(t) == Elems(s[..j]) + Elems(s[j + 1..]);
    }
    ElemsAtMost(t);
  }

  // ---------------------------------------------------------------------
  // Probabilities
  // ---------------------------------------------------------------------

  /** Sum of the counts of the listed states. */
  function TotalOver(states: seq<State>, counts: map<State, real>): real {
    if states == [] then 0.0 else CountIn(counts, states[0]) + TotalOver(states[1..], counts)
  }

  /** The number of shots a record holds: the sum of its counts. */
  function Total(m: Measurements): real {
    TotalOver(m.hist.states, m.hist.counts)
  }

  /** Probability of a state in a record: its count over the record's
      total, and 0.0 for a record without any count. The modelled code
      calls a `get_probabilitiy` that `Measurements` does not define;
      this is the definition the model uses in its place. */
  function Probability(m: Measurements, s: State): real {
    if Total(m) == 0.0 then 0.0 else GetCountFor(m, s) / Total(m)
  }

  /** Sum of the probabilities of the listed states. */
  function ProbabilitySum(m: Measurements, xs: seq<State>): real {
    if xs == [] then 0.0 else Probability(m, xs[0]) + ProbabilitySum(m, xs[1..])
  }

  lemma {:induction false} ProbabilitySumScales(m: Measurements, xs: seq<State>)
    requires Total(m) != 0.0
    ensures ProbabilitySum(m, xs) == TotalOver(xs, m.hist.counts) / Total(m)
  {
    if xs != [] {
      ProbabilitySumScales(m, xs[1..]);
      DivAdd(CountIn(m.hist.counts, xs[0]), TotalOver(xs[1..], m.hist.counts), Total(m));
    }
  }

  lemma DivAdd(a: real, b: real, t: real)
    requires t != 0.0
    ensures a / t + b / t == (a + b) / t
  {
  }

  lemma DivAtMostOne(a: real, t: real)
    requires 0.0 <= a <= t && t > 0.0
    ensures 0.0 <= a / t <= 1.0
  {
  }

  /** Over a record with some count, the probabilities of its states add
      up to one. */
  lemma ProbabilitiesSumToOne(m: Measurements)
    requires Total(m) != 0.0
    ensures ProbabilitySum(m, m.hist.states) == 1.0
  {
    ProbabilitySumScales(m, m.hist.states);
  }

  /** With non-negative counts a listed state's count is at most the total. */
  lemma {:induction false} CountAtMostTotal(xs: seq<State>, c: map<State, real>, s: State)
    requires s in xs
    requires forall t :: t in c ==> c[t] >= 0.0
    ensures 0.0 <= CountIn(c, s) <= TotalOver(xs, c)
  {
    if xs[0] != s {
      CountAtMostTotal(xs[1..], c, s);
    }
    TotalNonNegative(xs[1..], c);
  }

  lemma {:induction false} TotalNonNegative(xs: seq<State>, c: map<State, real>)
    requires forall t :: t in c ==> c[t] >= 0.0
    ensures TotalOver(xs, c) >= 0.0
  {
    if xs != [] {
      TotalNonNegative(xs[1..], c);
    }
  }

  /** On a well-formed record every probability lies between 0 and 1. */
  lemma ProbabilityBounds(m: Measurements, s: State)
    requires m.hist.Valid()
    ensures 0.0 <= Probability(m, s) <= 1.0
  {
    TotalNonNegative(m.hist.states, m.hist.counts);
    if Total(m) != 0.0 && s in m.hist.states {
      CountAtMostTotal(m.hist.states, m.hist.counts, s);
      DivAtMostOne(GetCountFor(m, s), Total(m));
    }
  }

  // ---------------------------------------------------------------------
  // The consistency check (assert_equal_devices)
  // ---------------------------------------------------------------------

  /** `{channel.device for channel in self.weights.keys()}`. */
  function ExpectedOrigins(w: Weights): set<Origin> {
    set ch | ch in w :: FromDevice(ch.device)
  }

  /** `{m.generated_from_channel for m in measurements}`. */
  function ActualOrigins(records: seq<Measurements>): set<Origin> {
    set i | 0 <= i < |records| :: records[i].origin
  }

  lemma SubsetSameSize(a: set<Origin>, b: set<Origin>)
    requires a <= b && |a| == |b|
    ensures a == b
  {
    assert b == a + (b - a);
    assert |b - a| == 0;
  }

  /** `assert_equal_devices`: raises when the expected and the actual
      sets differ in size, or some actual origin is not expected; so it
      passes exactly when the two sets are equal. */
  function AssertEqualDevices(w: Weights, records: seq<Measurements>): (r: Result<()>)
    ensures r.Ok? <==> ActualOrigins(records) == ExpectedOrigins(w)
    ensures r.Err? ==> r.error == DevicesMismatch
  {
    var expected := ExpectedOrigins(w);
    var actual := ActualOrigins(records);
    if |expected| != |actual| then Err(DevicesMismatch)
    else if exists o :: o in actual && o !in expected then Err(DevicesMismatch)
    else
      SubsetSameSize(actual, expected);
      Ok(())
  }

  /** The expected set holds devices and channel records name channels, so
      the check rejects every non-empty list of records the orchestrator
      builds. */
  lemma ChannelRecordsRejected(w: Weights, records: seq<Measurements>)
    requires records != []
    requires forall i :: 0 <= i < |records| ==> records[i].origin.FromChannel?
    ensures AssertEqualDevices(w, records).Err?
  {
    assert records[0].origin in ActualOrigins(records);
    assert records[0].origin !in ExpectedOrigins(w);
  }

  // ---------------------------------------------------------------------
  // Pooling (combine)
  // ---------------------------------------------------------------------

  /** `self.weights[measurement.generated_from_channel]` finds a weight. */
  predicate Weighted(w: Weights, o: Origin) {
    o.FromChannel? && o.channel in w
  }

  /** Every record's origin has a weight. */
  predicate AllWeighted(w: Weights, records: seq<Measurements>) {
    forall i :: 0 <= i < |records| ==> Weighted(w, records[i].origin)
  }

  /** Σ over the records of probability(record, s) x weight(record's origin). */
  function PooledValue(w: Weights, records: seq<Measurements>, s: State): real
    requires AllWeighted(w, records)
  {
    if records == [] then 0.0
    else Probability(records[0], s) * w[records[0].origin.channel] + PooledValue(w, records[1..], s)
  }

  /** The pooling loop of `combine` (after the consistency check): for
      every state the FIRST record measured, the weighted sum of the
      records' probabilities. States only later records measured are
      dropped. The result has the opaque pooled origin. */
  function Pool(w: Weights, records: seq<Measurements>): (r: Result<Measurements>)
    ensures records == [] <==> r == Err(IndexOutOfRange)
    ensures r == Err(MissingKey) <==> records != [] && records[0].hist.states != [] && !AllWeighted(w, records)
    ensures r.Ok? ==> r.value.origin == Pooled && r.value.hist.states == records[0].hist.states
    ensures r.Ok? ==> forall s :: s in r.value.hist.counts <==> s in records[0].hist.states
    ensures r.Ok? && records[0].hist.states != [] ==>
              AllWeighted(w, records) &&
              forall s :: s in r.value.hist.counts ==> r.value.hist.counts[s] == PooledValue(w, records, s)
  {
    if records == [] then Err(IndexOutOfRange)
    else
      var states := records[0].hist.states;
      if states == [] then Ok(Measurements(Pooled, Histogram([], map[])))
      else if !AllWeighted(w, records) then Err(MissingKey)
      else Ok(Measurements(Pooled, Histogram(states, map s | s in states :: PooledValue(w, records, s))))
  }

  /** Sum of the weights of the records' origins. */
  function RecordWeights(w: Weights, records: seq<Measurements>): real
    requires AllWeighted(w, records)
  {
    if records == [] then 0.0 else w[records[0].origin.channel] + RecordWeights(w, records[1..])
  }

  lemma MulBetween(p: real, c: real)
    requires 0.0 <= p <= 1.0 && c >= 0.0
    ensures 0.0 <= p * c <= c
  {
    assert c - p * c == (1.0 - p) * c;
  }

  /** A pooled value is a mixture: with non-negative weights and
      well-formed records it lies between 0 and the records' total weight. */
  lemma {:induction false} PooledValueBounds(w: Weights, records: seq<Measurements>, s: State)
    requires AllWeighted(w, records)
    requires forall ch :: ch in w ==> w[ch] >= 0.0
    requires forall i :: 0 <= i < |records| ==> records[i].hist.Valid()
    ensures 0.0 <= PooledValue(w, records, s) <= RecordWeights(w, records)
  {
    if records != [] {
      assert forall i :: 0 <= i < |records[1..]| ==> records[1..][i] == records[i + 1];
      PooledValueBounds(w, records[1..], s);
      ProbabilityBounds(records[0], s);
      var c := w[records[0].origin.channel];
      MulBetween(Probability(records[0], s), c);
      assert RecordWeights(w, records) == c + RecordWeights(w, records[1..]);
      assert PooledValue(w, records, s) == Probability(records[0], s) * c + PooledValue(w, records[1..], s);
      assert PooledValue(w, records[1..], s) <= RecordWeights(w, records[1..]);
      assert Probability(records[0], s) * c <= c;
    }
  }

  /** Every state of a pooled record gets a value between 0 and the total
      weight of the pooled records; with weights that add up to one over
      the records, every pooled value is a probability. */
  lemma PoolIsMixture(w: Weights, records: seq<Measurements>)
    requires forall ch :: ch in w ==> w[ch] >= 0.0
    requires forall i :: 0 <= i < |records| ==> records[i].hist.Valid()
    ensures Pool(w, records).Ok? && records[0].hist.states != [] ==>
              forall s :: s in Pool(w, records).value.hist.counts ==>
                0.0 <= Pool(w, records).value.hist.counts[s] <= RecordWeights(w, records)
  {
    if Pool(w, records).Ok? && records[0].hist.states != [] {
      forall s | s in Pool(w, records).value.hist.counts
        ensures 0.0 <= Pool(w, records).value.hist.counts[s] <= RecordWeights(w, records)
      {
        PooledValueBounds(w, records, s);
      }
    }
  }

  /** `LinearOpinionPool.combine`: the consistency check, then pooling. */
  function Combine(w: Weights, records: seq<Measurements>): Result<Measurements> {
    var _ :- AssertEqualDevices(w, records);
    Pool(w, records)
  }

  /** As written, `combine` never pools a state: passing the check needs
      every record to come from a device, and then the weight lookup by
      that device fails as soon as the first record measured anything. */
  lemma CombineNeverPoolsAState(w: Weights, records: seq<Measurements>)
    ensures Combine(w, records).Ok? ==> Combine(w, records).value.hist.states == []
  {
    if AssertEqualDevices(w, records).Ok? && records != [] {
      assert records[0].origin in ActualOrigins(records);
      assert !Weighted(w, records[0].origin);
    }
  }

  /** Pooled values are probabilities mixed by the weights: with n records
      whose origins carry the uniform weight 1/n and share one distribution,
      pooling gives back that distribution. */
  lemma UniformPoolIdempotent(chs: seq<Channel>, records: seq<Measurements>)
    requires |records| == |chs| > 0
    requires forall i :: 0 <= i < |records| ==> records[i].origin.FromChannel? && records[i].origin.channel in chs
    requires forall i, s :: 0 <= i < |records| ==> Probability(records[i], s) == Probability(records[0], s)
    ensures Pool(WithUniformWeights(chs), records).Ok?
    ensures forall s :: s in records[0].hist.states ==>
              Pool(WithUniformWeights(chs), records).value.hist.counts[s] == Probability(records[0], s)
  {
    var w := WithUniformWeights(chs);
    var n := |chs| as real;
    assert AllWeighted(w, records);
    forall s | s in records[0].hist.states
      ensures PooledValue(w, records, s) == Probability(records[0], s)
    {
      EqualTerms(w, records, s, Probability(records[0], s), 1.0 / n);
      MulInverse(|records|, Probability(records[0], s));
    }
  }

  lemma MulInverse(k: nat, p: real)
    requires k > 0
    ensures (k as real) * (p * (1.0 / (k as real))) == p
  {
    var n := k as real;
    assert p * (1.0 / n) == p / n;
    assert n * (p / n) == p;
  }

  lemma {:induction false} EqualTerms(w: Weights, records: seq<Measurements>, s: State, p: real, c: real)
    requires AllWeighted(w, records)
    requires forall i :: 0 <= i < |records| ==> Probability(records[i], s) == p && w[records[i].origin.channel] == c
    ensures PooledValue(w, records, s) == (|records| as real) * (p * c)
  {
    if records != [] {
      assert AllWeighted(w, records[1..]);
      assert forall i :: 0 <= i < |records[1..]| ==> records[1..][i] == records[i + 1];
      EqualTerms(w, records[1..], s, p, c);
    }
  }
}
