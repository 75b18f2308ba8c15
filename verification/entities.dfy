/** The entities of the fault-tolerant execution core: devices, channels,
    circuits, measurement records and fault-tolerant containers
    (ftqc/core/entities.py). Quantum execution itself is not modelled:
    a device, a channel and a circuit are reduced to their identities. */
module Entities {
  import opened Failures
  import opened Seqs

  /** A measured basis state, written as a bit string. */
  type State = string

  /** A quantum device; two devices are equal iff their unique names are. */
  datatype Device = Device(name: string)

  /** A redundancy channel: an opaque identity (standing for the channel's
      own equality key such as its transpilation seed or optimisation level)
      and the device its variants run on. */
  datatype Channel = Channel(key: nat, device: Device)

  /** A circuit; two circuits are equal iff their ids are. */
  datatype Circuit = Circuit(id: string)

  /** What a record was generated from: a channel (records built by the
      orchestrator), a device, or the opaque origin of a pooled record. */
  datatype Origin = FromChannel(channel: Channel) | FromDevice(device: Device) | Pooled

  /** A counts dictionary: the measured states in insertion order and the
      count of each. */
  datatype Histogram = Histogram(states: seq<State>, counts: map<State, real>) {
    /** The key order lists exactly the dictionary's keys, once each, and
        no count is negative. */
    predicate Valid() {
      && Distinct(states)
      && (forall s :: s in states ==> s in counts)
      && (forall s :: s in counts ==> s in states && counts[s] >= 0.0)
    }
  }

  /** A measurement record: where it came from and its counts. */
  datatype Measurements = Measurements(origin: Origin, hist: Histogram)

  /** Count of `s` in a counts dictionary, 0.0 when `s` is not a key. */
  function CountIn(counts: map<State, real>, s: State): real {
    if s in counts then counts[s] else 0.0
  }

  /** `Measurements.get_count_for`: the stored count of a measured state
      and 0.0 for a state the record never measured. */
  function GetCountFor(m: Measurements, s: State): (r: real)
    ensures s in m.hist.counts ==> r == m.hist.counts[s]
    ensures s !in m.hist.counts ==> r == 0.0
    ensures m.hist.Valid() ==> r >= 0.0 && (r > 0.0 ==> s in m.hist.states)
  {
    CountIn(m.hist.counts, s)
  }

  // ---------------------------------------------------------------------
  // rank(): a stable sort of the measured states by descending count
  // ---------------------------------------------------------------------

  /** Counts never increase along `xs`. */
  predicate NonIncreasing(xs: seq<State>, c: map<State, real>) {
    forall i, j :: 0 <= i < j < |xs| ==> CountIn(c, xs[i]) >= CountIn(c, xs[j])
  }

  /** The states of `xs` whose count is exactly `v`, in the order of `xs`. */
  function WithCount(xs: seq<State>, c: map<State, real>, v: real): seq<State> {
    if xs == [] then []
    else (if CountIn(c, xs[0]) == v then [xs[0]] else []) + WithCount(xs[1..], c, v)
  }

  /** Inserts `x` after every state with a strictly larger count and before
      the first state whose count is not larger, so that `x` precedes the
      states of equal count that follow it in the input. */
  function InsertByCount(x: State, ys: seq<State>, c: map<State, real>): (r: seq<State>)
    ensures multiset(r) == multiset(ys) + multiset{x}
  {
    if ys == [] || CountIn(c, ys[0]) <= CountIn(c, x) then [x] + ys
    else
      assert ys == [ys[0]] + ys[1..];
      [ys[0]] + InsertByCount(x, ys[1..], c)
  }

  /** Insertion sort by descending count. */
  function SortByCount(xs: seq<State>, c: map<State, real>): (r: seq<State>)
    ensures multiset(r) == multiset(xs)
  {
    if xs == [] then []
    else
      assert xs == [xs[0]] + xs[1..];
      InsertByCount(xs[0], SortByCount(xs[1..], c), c)
  }

  /** `Measurements.rank`: the measured states ordered by descending count. */
  function Rank(m: Measurements): seq<State> {
    SortByCount(m.hist.states, m.hist.counts)
  }

  lemma {:induction false} InsertKeepsOrder(x: State, ys: seq<State>, c: map<State, real>)
    requires NonIncreasing(ys, c)
    ensures NonIncreasing(InsertByCount(x, ys, c), c)
  {
    if ys != [] && CountIn(c, ys[0]) > CountIn(c, x) {
      assert NonIncreasing(ys[1..], c);
      InsertKeepsOrder(x, ys[1..], c);
      HeadDominatesInsert(x, ys, c);
      ConsKeepsOrder(ys[0], InsertByCount(x, ys[1..], c), c);
    }
  }

  /** The head of an ordered sequence has at least the count of everything
      inserting a smaller-count state into its tail yields. */
  lemma HeadDominatesInsert(x: State, ys: seq<State>, c: map<State, real>)
    requires NonIncreasing(ys, c) && ys != [] && CountIn(c, ys[0]) > CountIn(c, x)
    ensures forall z :: z in InsertByCount(x, ys[1..], c) ==> CountIn(c, ys[0]) >= CountIn(c, z)
  {
    var tail := InsertByCount(x, ys[1..], c);
    forall z | z in tail
      ensures CountIn(c, ys[0]) >= CountIn(c, z)
    {
      assert z in multiset(tail);
      if z != x {
        assert z in multiset(ys[1..]);
        var k :| 0 <= k < |ys[1..]| && ys[1..][k] == z;
        assert ys[k + 1] == z;
      }
    }
  }

  /** Prepending a state of at least every count keeps the order. */
  lemma ConsKeepsOrder(h: State, tail: seq<State>, c: map<State, real>)
    requires NonIncreasing(tail, c)
    requires forall z :: z in tail ==> CountIn(c, h) >= CountIn(c, z)
    ensures NonIncreasing([h] + tail, c)
  {
    var r := [h] + tail;
    forall i, j | 0 <= i < j < |r|
      ensures CountIn(c, r[i]) >= CountIn(c, r[j])
    {
      assert r[j] == tail[j - 1];
      if i > 0 {
        assert r[i] == tail[i - 1];
      }
    }
  }

  lemma {:induction false} InsertWithCount(x: State, ys: seq<State>, c: map<State, real>, v: real)
    requires NonIncreasing(ys, c)
    ensures WithCount(InsertByCount(x, ys, c), c, v)
         == (if CountIn(c, x) == v then [x] else []) + WithCount(ys, c, v)
  {
    if ys == [] || CountIn(c, ys[0]) <= CountIn(c, x) {
      assert ([x] + ys)[1..] == ys;
    } else {
      var tail := InsertByCount(x, ys[1..], c);
      assert NonIncreasing(ys[1..], c);
      InsertWithCount(x, ys[1..], c, v);
      assert ([ys[0]] + tail)[1..] == tail;
      assert WithCount(ys, c, v)
          == (if CountIn(c, ys[0]) == v then [ys[0]] else []) + WithCount(ys[1..], c, v);
    }
  }

  lemma {:induction false} SortByCountSpec(xs: seq<State>, c: map<State, real>)
    ensures NonIncreasing(SortByCount(xs, c), c)
    ensures forall v :: WithCount(SortByCount(xs, c), c, v) == WithCount(xs, c, v)
  {
    if xs != [] {
      var rest := SortByCount(xs[1..], c);
      SortByCountSpec(xs[1..], c);
      InsertKeepsOrder(xs[0], rest, c);
      forall v
        ensures WithCount(SortByCount(xs, c), c, v) == WithCount(xs, c, v)
      {
        InsertWithCount(xs[0], rest, c, v);
      }
    }
  }

  /** Two sequences with the same elements, one without repetitions: the
      other has none either. */
  lemma PermutationKeepsDistinct(a: seq<State>, b: seq<State>)
    requires multiset(a) == multiset(b)
    requires Distinct(a)
    ensures Distinct(b)
  {
    forall x
      ensures multiset(b)[x] <= 1
    {
      DistinctAtMostOnce(a, x);
    }
    AtMostOnceDistinct(b);
  }

  lemma {:induction false} DistinctAtMostOnce(a: seq<State>, x: State)
    requires Distinct(a)
    ensures multiset(a)[x] <= 1
  {
    if a != [] {
      assert a == [a[0]] + a[1..];
      assert Distinct(a[1..]);
      DistinctAtMostOnce(a[1..], x);
      if x == a[0] {
        assert forall k :: 0 <= k < |a[1..]| ==> a[1..][k] == a[k + 1] && a[k + 1] != a[0];
        assert x !in a[1..];
      }
    }
  }

  lemma {:induction false} AtMostOnceDistinct(b: seq<State>)
    requires forall x :: multiset(b)[x] <= 1
    ensures Distinct(b)
  {
    if b != [] {
      var t := b[1..];
      assert b == [b[0]] + t;
      forall x
        ensures multiset(t)[x] <= 1
      {
        assert multiset(b)[x] == multiset([b[0]])[x] + multiset(t)[x];
      }
      AtMostOnceDistinct(t);
      assert multiset(b)[b[0]] == multiset([b[0]])[b[0]] + multiset(t)[b[0]];
      assert multiset(t)[b[0]] == 0;
      assert b[0] !in t;
      forall i, j | 0 <= i < j < |b|
        ensures b[i] != b[j]
      {
        assert b[j] == t[j - 1];
        if i > 0 {
          assert b[i] == t[i - 1];
        }
      }
    }
  }

  /** `rank()` is a permutation of the measured states, ordered by
      non-increasing count, and among states of equal count it keeps the
      insertion order (Python's sort is stable, also with reverse=True). */
  lemma RankIsStableSort(m: Measurements)
    requires m.hist.Valid()
    ensures multiset(Rank(m)) == multiset(m.hist.states)
    ensures Distinct(Rank(m))
    ensures forall i, j :: 0 <= i < j < |Rank(m)| ==>
              GetCountFor(m, Rank(m)[i]) >= GetCountFor(m, Rank(m)[j])
    ensures forall v :: WithCount(Rank(m), m.hist.counts, v) == WithCount(m.hist.states, m.hist.counts, v)
  {
    SortByCountSpec(m.hist.states, m.hist.counts);
    PermutationKeepsDistinct(m.hist.states, Rank(m));
  }

  // ---------------------------------------------------------------------
  // Fault-tolerant containers
  // ---------------------------------------------------------------------

  /** How a container aggregates its channels' records: a linear opinion
      pool with the given channel weights, or an aggregator defined outside
      the modelled files, known only by an opaque key. */
  datatype Aggregator = Pool(weights: map<Channel, real>) | External(key: nat)

  /** `FaultTolerantQuantumContainer`: id, channels in order, aggregator. */
  datatype Container = Container(id: string, channels: seq<Channel>, aggregator: Aggregator)

  /** `get_devices`: the devices of the container's channels. */
  function GetDevices(c: Container): set<Device> {
    set i | 0 <= i < |c.channels| :: c.channels[i].device
  }

  /** `FaultTolerantQuantumContainer.__eq__`: containers are equal iff
      their ids are; `__hash__` hashes only the id. */
  predicate SameContainer(a: Container, b: Container) {
    a.id == b.id
  }

  /** Some container of `cs` has id `id`. */
  predicate HasId(cs: seq<Container>, id: string) {
    exists k :: 0 <= k < |cs| && cs[k].id == id
  }

  /** No two containers of `cs` share an id. */
  predicate DistinctIds(cs: seq<Container>) {
    forall i, j :: 0 <= i < j < |cs| ==> cs[i].id != cs[j].id
  }

  lemma HasIdCons(c: Container, rest: seq<Container>)
    ensures forall id :: HasId([c] + rest, id) <==> c.id == id || HasId(rest, id)
  {
    assert ([c] + rest)[0] == c;
    forall id | HasId(rest, id)
      ensures HasId([c] + rest, id)
    {
      var k :| 0 <= k < |rest| && rest[k].id == id;
      assert ([c] + rest)[k + 1] == rest[k];
    }
    forall id | HasId([c] + rest, id) && c.id != id
      ensures HasId(rest, id)
    {
      var k :| 0 <= k < |[c] + rest| && ([c] + rest)[k].id == id;
      assert rest[k - 1] == ([c] + rest)[k];
    }
  }

  /** The containers of `cs` whose id is not `id`, in order. */
  function WithoutId(cs: seq<Container>, id: string): (r: seq<Container>)
    ensures |r| <= |cs|
    ensures forall i :: HasId(r, i) <==> HasId(cs, i) && i != id
  {
    if cs == [] then []
    else
      var rest := WithoutId(cs[1..], id);
      assert forall i :: HasId(cs, i) <==> cs[0].id == i || HasId(cs[1..], i);
      if cs[0].id == id then rest
      else
        HasIdCons(cs[0], rest);
        [cs[0]] + rest
  }

  /** The first container of `cs` with id `id`. */
  function FirstWithId(cs: seq<Container>, id: string): Container
    requires HasId(cs, id)
  {
    if cs[0].id == id then cs[0]
    else
      assert HasId(cs[1..], id) by {
        var k :| 0 <= k < |cs| && cs[k].id == id;
        assert cs[1..][k - 1].id == id;
      }
      FirstWithId(cs[1..], id)
  }

  lemma {:induction false} FirstWithIdSkips(cs: seq<Container>, gone: string, id: string)
    requires HasId(cs, id) && id != gone
    ensures HasId(WithoutId(cs, gone), id)
    ensures FirstWithId(WithoutId(cs, gone), id) == FirstWithId(cs, id)
  {
    if cs[0].id != id {
      assert HasId(cs[1..], id) by {
        var k :| 0 <= k < |cs| && cs[k].id == id;
        assert cs[1..][k - 1].id == id;
      }
      FirstWithIdSkips(cs[1..], gone, id);
    }
  }

  /** `set(qcontainers)`: one container per id, namely the first one
      inserted (Python's set keeps the element already present when an
      equal one is added). Python iterates the set in hash order, which no
      caller relies on; the model iterates in first-occurrence order. */
  function ContainerSet(cs: seq<Container>): (r: seq<Container>)
    ensures DistinctIds(r)
    ensures forall id :: HasId(r, id) <==> HasId(cs, id)
    ensures forall k :: 0 <= k < |r| ==> HasId(cs, r[k].id) && r[k] == FirstWithId(cs, r[k].id)
    decreases |cs|
  {
    if cs == [] then []
    else
      var rest := ContainerSet(WithoutId(cs[1..], cs[0].id));
      var r := [cs[0]] + rest;
      assert forall id :: HasId(cs, id) <==> cs[0].id == id || HasId(cs[1..], id);
      HasIdCons(cs[0], rest);
      forall k | 0 <= k < |r|
        ensures HasId(cs, r[k].id) && r[k] == FirstWithId(cs, r[k].id)
      {
        if k > 0 {
          assert r[k] == rest[k - 1];
          FirstWithIdSkips(cs[1..], cs[0].id, r[k].id);
        }
      }
      r
  }
}
