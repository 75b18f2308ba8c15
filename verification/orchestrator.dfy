/** `QuantumContainerOrchestrator` (ftqc/core/entities.py:134-184): it
    transpiles every circuit of a batch once per channel of every container,
    partitions the variants by device, has each device run its partition,
    and records one aggregate per (circuit, container) pair.
    Execution on a device is a parameter of the model. */
module Orchestrator {
  import opened Failures
  import opened Seqs
  import opened Entities

  /** `channel.apply(circuit)`: the variant of a circuit that a channel
      produces, identified by that circuit and channel. */
  datatype Variant = Variant(circuit: Circuit, channel: Channel)

  /** One (circuit, container) pair with the keys of its dictionary of
      transpiled circuits: the container's channels, each once, in
      first-insertion order. The variant stored under a channel is
      `Variant(circuit, channel)`. */
  datatype Orchestration = Orchestration(circuit: Circuit, container: Container, channels: seq<Channel>)

  /** One entry of `aggregated_results`. */
  datatype Entry = Entry(circuit: Circuit, container: Container, aggregate: Measurements, records: seq<Measurements>)

  /** The orchestrator's state: its deduplicated containers and the
      aggregated results accumulated so far. */
  datatype Orchestrator = Orchestrator(containers: seq<Container>, results: seq<Entry>)

  /** What a device returns for a batch of variants: counts per variant. */
  type Execution = map<Variant, Histogram>

  /** The constructor: the containers as a set by id, no results yet. */
  function NewOrchestrator(qcontainers: seq<Container>): (o: Orchestrator)
    ensures DistinctIds(o.containers)
    ensures forall id :: HasId(o.containers, id) <==> HasId(qcontainers, id)
    ensures o.results == []
  {
    Orchestrator(ContainerSet(qcontainers), [])
  }

  // ---------------------------------------------------------------------
  // Partitioning (create_orchestrations_and_partitions)
  // ---------------------------------------------------------------------

  /** The devices of all containers, as the partition dictionary's
      comprehension collects them. */
  function AllDevices(cs: seq<Container>): set<Device> {
    if cs == [] then {} else GetDevices(cs[0]) + AllDevices(cs[1..])
  }

  /** The devices of all channels of all containers, in loop order. */
  function DeviceSeq(cs: seq<Container>): seq<Device> {
    if cs == [] then []
    else seq(|cs[0].channels|, i requires 0 <= i < |cs[0].channels| => cs[0].channels[i].device)
         + DeviceSeq(cs[1..])
  }

  /** Number of channels over all containers, repeats included. */
  function TotalChannels(cs: seq<Container>): nat {
    if cs == [] then 0 else |cs[0].channels| + TotalChannels(cs[1..])
  }

  /** The variants a circuit gets from a list of channels, in order. */
  function ChannelVariants(circuit: Circuit, chs: seq<Channel>): (r: seq<Variant>)
    ensures |r| == |chs|
    ensures forall i :: 0 <= i < |r| ==> r[i] == Variant(circuit, chs[i])
  {
    seq(|chs|, i requires 0 <= i < |chs| => Variant(circuit, chs[i]))
  }

  /** The variants one circuit gets from every channel of every container,
      in the order the nested loops append them. */
  function ContainerVariants(circuit: Circuit, cs: seq<Container>): seq<Variant> {
    if cs == [] then []
    else ChannelVariants(circuit, cs[0].channels) + ContainerVariants(circuit, cs[1..])
  }

  /** Every variant appended to some partition, in append order. */
  function Schedule(circuits: seq<Circuit>, cs: seq<Container>): seq<Variant> {
    if circuits == [] then []
    else ContainerVariants(circuits[0], cs) + Schedule(circuits[1..], cs)
  }

  /** The variants of `vs` that run on device `d`, in order. */
  function OnDevice(vs: seq<Variant>, d: Device): (r: seq<Variant>)
    ensures |r| <= |vs|
    ensures forall v :: v in r <==> v in vs && v.channel.device == d
  {
    if vs == [] then []
    else (if vs[0].channel.device == d then [vs[0]] else []) + OnDevice(vs[1..], d)
  }

  /** The variants of `vs` that do not run on device `d`, in order. */
  function OffDevice(vs: seq<Variant>, d: Device): (r: seq<Variant>)
    ensures forall v :: v in r <==> v in vs && v.channel.device != d
  {
    if vs == [] then []
    else (if vs[0].channel.device != d then [vs[0]] else []) + OffDevice(vs[1..], d)
  }

  /** Appends each variant to the partition of its channel's device. */
  function Distribute(parts: map<Device, seq<Variant>>, vs: seq<Variant>): (r: map<Device, seq<Variant>>)
    requires forall v :: v in vs ==> v.channel.device in parts
    ensures r.Keys == parts.Keys
  {
    if vs == [] then parts
    else
      var d0 := vs[0].channel.device;
      assert forall v :: v in vs[1..] ==> v in vs;
      Distribute(parts[d0 := parts[d0] + [vs[0]]], vs[1..])
  }

  /** After distribution, a device's partition is what it held before
      followed by the variants for that device, in order. */
  lemma {:induction false} DistributeAppends(parts: map<Device, seq<Variant>>, vs: seq<Variant>, d: Device)
    requires forall v :: v in vs ==> v.channel.device in parts
    requires d in parts
    ensures Distribute(parts, vs)[d] == parts[d] + OnDevice(vs, d)
  {
    if vs != [] {
      var d0 := vs[0].channel.device;
      var next := parts[d0 := parts[d0] + [vs[0]]];
      DistributeUnfold(parts, vs);
      DistributeAppends(next, vs[1..], d);
      AppendOne(parts, vs, d);
    }
  }

  /** One step of the distribution. */
  lemma DistributeUnfold(parts: map<Device, seq<Variant>>, vs: seq<Variant>)
    requires forall v :: v in vs ==> v.channel.device in parts
    requires vs != []
    ensures forall v :: v in vs[1..] ==> v.channel.device in parts[vs[0].channel.device := parts[vs[0].channel.device] + [vs[0]]]
    ensures Distribute(parts, vs)
         == Distribute(parts[vs[0].channel.device := parts[vs[0].channel.device] + [vs[0]]], vs[1..])
  {
    assert forall v :: v in vs[1..] ==> v in vs;
  }

  /** Appending the first variant to its device's list, then the rest
      for `d`, is appending all of `d`'s variants. */
  lemma AppendOne(parts: map<Device, seq<Variant>>, vs: seq<Variant>, d: Device)
    requires vs != [] && d in parts && vs[0].channel.device in parts
    ensures parts[vs[0].channel.device := parts[vs[0].channel.device] + [vs[0]]][d] + OnDevice(vs[1..], d)
         == parts[d] + OnDevice(vs, d)
  {
    var later := OnDevice(vs[1..], d);
    if d == vs[0].channel.device {
      assert OnDevice(vs, d) == [vs[0]] + later;
      assert (parts[d] + [vs[0]]) + later == parts[d] + ([vs[0]] + later);
    } else {
      assert OnDevice(vs, d) == later;
    }
  }

  /** The orchestrations, one per (circuit, container) pair, circuits in
      the outer loop and containers in the inner one. */
  function Orchestrations(circuits: seq<Circuit>, cs: seq<Container>): seq<Orchestration> {
    if circuits == [] then []
    else seq(|cs|, j requires 0 <= j < |cs| => Orchestration(circuits[0], cs[j], Dedup(cs[j].channels)))
         + Orchestrations(circuits[1..], cs)
  }

  /** The partition dictionary: every device of every container starts
      with an empty list, then each variant is appended to its device's list. */
  function Partitions(cs: seq<Container>, circuits: seq<Circuit>): map<Device, seq<Variant>> {
    var empty := map d | d in AllDevices(cs) :: [];
    ScheduleOnKnownDevices(circuits, cs);
    Distribute(empty, Schedule(circuits, cs))
  }

  /** `create_orchestrations_and_partitions`: the orchestrations and the
      partition dictionary. */
  function CreateOrchestrationsAndPartitions(cs: seq<Container>, circuits: seq<Circuit>)
    : (seq<Orchestration>, map<Device, seq<Variant>>)
  {
    (Orchestrations(circuits, cs), Partitions(cs, circuits))
  }

  lemma {:induction false} ChannelDeviceKnown(cs: seq<Container>, k: nat, i: nat)
    requires k < |cs| && i < |cs[k].channels|
    ensures cs[k].channels[i].device in AllDevices(cs)
  {
    if k > 0 {
      ChannelDeviceKnown(cs[1..], k - 1, i);
    }
  }

  lemma {:induction false} ContainerVariantsKnown(circuit: Circuit, cs: seq<Container>)
    ensures forall v :: v in ContainerVariants(circuit, cs) ==> v.channel.device in AllDevices(cs)
  {
    if cs != [] {
      ContainerVariantsKnown(circuit, cs[1..]);
      forall i | 0 <= i < |cs[0].channels|
        ensures cs[0].channels[i].device in AllDevices(cs)
      {
        ChannelDeviceKnown(cs, 0, i);
      }
    }
  }

  lemma {:induction false} ScheduleOnKnownDevices(circuits: seq<Circuit>, cs: seq<Container>)
    ensures forall v :: v in Schedule(circuits, cs) ==> v.channel.device in AllDevices(cs)
  {
    if circuits != [] {
      ContainerVariantsKnown(circuits[0], cs);
      ScheduleOnKnownDevices(circuits[1..], cs);
    }
  }

  // ---------------------------------------------------------------------
  // Sizes of the partitions
  // ---------------------------------------------------------------------

  lemma {:induction false} ContainerVariantsLength(circuit: Circuit, cs: seq<Container>)
    ensures |ContainerVariants(circuit, cs)| == TotalChannels(cs)
  {
    if cs != [] {
      ContainerVariantsLength(circuit, cs[1..]);
    }
  }

  lemma {:induction false} ScheduleLength(circuits: seq<Circuit>, cs: seq<Container>)
    ensures |Schedule(circuits, cs)| == |circuits| * TotalChannels(cs)
  {
    if circuits != [] {
      ContainerVariantsLength(circuits[0], cs);
      ScheduleLength(circuits[1..], cs);
      assert |circuits| * TotalChannels(cs)
          == TotalChannels(cs) + (|circuits| - 1) * TotalChannels(cs);
    }
  }

  lemma {:induction false} DeviceSeqElems(cs: seq<Container>)
    ensures Elems(DeviceSeq(cs)) == AllDevices(cs)
  {
    if cs != [] {
      DeviceSeqElems(cs[1..]);
      var head := seq(|cs[0].channels|, i requires 0 <= i < |cs[0].channels| => cs[0].channels[i].device);
      forall d
        ensures d in Elems(head) <==> d in GetDevices(cs[0])
      {
        if d in GetDevices(cs[0]) {
          var i :| 0 <= i < |cs[0].channels| && cs[0].channels[i].device == d;
          assert head[i] == d;
        }
      }
      assert Elems(head + DeviceSeq(cs[1..])) == Elems(head) + Elems(DeviceSeq(cs[1..]));
    }
  }

  /** Sum of the lengths of the partitions of the listed devices. */
  function SumPartitionLengths(ds: seq<Device>, parts: map<Device, seq<Variant>>): nat
    requires forall k :: 0 <= k < |ds| ==> ds[k] in parts
  {
    if ds == [] then 0 else |parts[ds[0]]| + SumPartitionLengths(ds[1..], parts)
  }

  /** Sum over the listed devices of the number of variants on each. */
  function SumOnDevices(ds: seq<Device>, vs: seq<Variant>): nat {
    if ds == [] then 0 else |OnDevice(vs, ds[0])| + SumOnDevices(ds[1..], vs)
  }

  lemma {:induction false} OnOffLength(vs: seq<Variant>, d: Device)
    ensures |OnDevice(vs, d)| + |OffDevice(vs, d)| == |vs|
  {
    if vs != [] {
      OnOffLength(vs[1..], d);
    }
  }

  lemma {:induction false} OnDeviceOfOff(vs: seq<Variant>, gone: Device, d: Device)
    requires d != gone
    ensures OnDevice(OffDevice(vs, gone), d) == OnDevice(vs, d)
  {
    if vs != [] {
      OnDeviceOfOff(vs[1..], gone, d);
      var head := if vs[0].channel.device != gone then [vs[0]] else [];
      OnDeviceAppend(head, OffDevice(vs[1..], gone), d);
    }
  }

  lemma {:induction false} OnDeviceAppend(a: seq<Variant>, b: seq<Variant>, d: Device)
    ensures OnDevice(a + b, d) == OnDevice(a, d) + OnDevice(b, d)
  {
    if a == [] {
      assert a + b == b;
    } else {
      assert (a + b)[1..] == a[1..] + b;
      OnDeviceAppend(a[1..], b, d);
    }
  }

  lemma {:induction false} SumOnDevicesSame(ds: seq<Device>, a: seq<Variant>, b: seq<Variant>)
    requires forall k :: 0 <= k < |ds| ==> OnDevice(a, ds[k]) == OnDevice(b, ds[k])
    ensures SumOnDevices(ds, a) == SumOnDevices(ds, b)
  {
    if ds != [] {
      SumOnDevicesSame(ds[1..], a, b);
    }
  }

  /** Counting each variant under its device, over a list of devices that
      names every device once, counts every variant exactly once. */
  lemma {:induction false} SumOnDevicesCountsAll(ds: seq<Device>, vs: seq<Variant>)
    requires Distinct(ds)
    requires forall v :: v in vs ==> v.channel.device in ds
    ensures SumOnDevices(ds, vs) == |vs|
  {
    if ds == [] {
      HeadIsElement(vs);
    } else {
      var d0 := ds[0];
      var rest := ds[1..];
      var off := OffDevice(vs, d0);
      assert Distinct(rest);
      assert forall k :: 0 <= k < |rest| ==> rest[k] == ds[k + 1] && rest[k] != d0;
      forall v | v in off
        ensures v.channel.device in rest
      {
        assert v.channel.device in ds && v.channel.device != d0;
      }
      SumOnDevicesCountsAll(rest, off);
      forall k | 0 <= k < |rest|
        ensures OnDevice(off, rest[k]) == OnDevice(vs, rest[k])
      {
        OnDeviceOfOff(vs, d0, rest[k]);
      }
      SumOnDevicesSame(rest, off, vs);
      OnOffLength(vs, d0);
    }
  }

  lemma HeadIsElement(vs: seq<Variant>)
    ensures vs != [] ==> vs[0] in vs
  {
  }

  lemma {:induction false} PartitionLengthsAreOnDevices(ds: seq<Device>, parts: map<Device, seq<Variant>>, vs: seq<Variant>)
    requires forall k :: 0 <= k < |ds| ==> ds[k] in parts && parts[ds[k]] == OnDevice(vs, ds[k])
    ensures SumPartitionLengths(ds, parts) == SumOnDevices(ds, vs)
  {
    if ds != [] {
      PartitionLengthsAreOnDevices(ds[1..], parts, vs);
    }
  }

  // ---------------------------------------------------------------------
  // Position of each orchestration
  // ---------------------------------------------------------------------

  lemma {:induction false} OrchestrationAt(circuits: seq<Circuit>, cs: seq<Container>, i: nat, j: nat)
    requires i < |circuits| && j < |cs|
    ensures |Orchestrations(circuits, cs)| == |circuits| * |cs|
    ensures i * |cs| + j < |circuits| * |cs|
    ensures Orchestrations(circuits, cs)[i * |cs| + j]
         == Orchestration(circuits[i], cs[j], Dedup(cs[j].channels))
  {
    OrchestrationsLength(circuits, cs);
    var k := |cs|;
    assert |circuits| * k == k + (|circuits| - 1) * k;
    if i > 0 {
      OrchestrationAt(circuits[1..], cs, i - 1, j);
      assert i * k + j == k + ((i - 1) * k + j);
    }
  }

  lemma {:induction false} OrchestrationsLength(circuits: seq<Circuit>, cs: seq<Container>)
    ensures |Orchestrations(circuits, cs)| == |circuits| * |cs|
  {
    if circuits != [] {
      OrchestrationsLength(circuits[1..], cs);
      assert |circuits| * |cs| == |cs| + (|circuits| - 1) * |cs|;
    }
  }

  /** Position of the orchestration of circuit `i` and container `j`
      among `width` containers per circuit. */
  function Slot(i: nat, j: nat, width: nat): nat {
    i * width + j
  }

  /** One orchestration per (circuit, container) pair, circuit-major,
      each keyed by the container's distinct channels. */
  lemma OrchestrationsSpec(cs: seq<Container>, circuits: seq<Circuit>)
    ensures |Orchestrations(circuits, cs)| == |circuits| * |cs|
    ensures forall i, j :: 0 <= i < |circuits| && 0 <= j < |cs| ==>
              Slot(i, j, |cs|) < |Orchestrations(circuits, cs)| &&
              Orchestrations(circuits, cs)[Slot(i, j, |cs|)] == Orchestration(circuits[i], cs[j], Dedup(cs[j].channels))
  {
    OrchestrationsLength(circuits, cs);
    forall i, j | 0 <= i < |circuits| && 0 <= j < |cs|
      ensures Slot(i, j, |cs|) < |Orchestrations(circuits, cs)|
      ensures Orchestrations(circuits, cs)[Slot(i, j, |cs|)] == Orchestration(circuits[i], cs[j], Dedup(cs[j].channels))
    {
      OrchestrationAt(circuits, cs, i, j);
    }
  }

  /** The partition keys are exactly the devices of the containers, and
      each partition holds, in append order, the variants of the channels
      on its device. */
  lemma PartitionsSpec(cs: seq<Container>, circuits: seq<Circuit>)
    ensures Partitions(cs, circuits).Keys == AllDevices(cs)
    ensures forall d :: d in Partitions(cs, circuits) ==>
              Partitions(cs, circuits)[d] == OnDevice(Schedule(circuits, cs), d)
  {
    var empty := map d | d in AllDevices(cs) :: [];
    ScheduleOnKnownDevices(circuits, cs);
    forall d | d in Partitions(cs, circuits)
      ensures Partitions(cs, circuits)[d] == OnDevice(Schedule(circuits, cs), d)
    {
      DistributeAppends(empty, Schedule(circuits, cs), d);
    }
  }

  /** Every appended variant is counted once: the partitions together hold
      |circuits| x (number of channels over all containers) variants. */
  lemma PartitionsTotal(cs: seq<Container>, circuits: seq<Circuit>)
    ensures forall k :: 0 <= k < |Dedup(DeviceSeq(cs))| ==> Dedup(DeviceSeq(cs))[k] in Partitions(cs, circuits)
    ensures SumPartitionLengths(Dedup(DeviceSeq(cs)), Partitions(cs, circuits)) == |circuits| * TotalChannels(cs)
  {
    var parts := Partitions(cs, circuits);
    var sched := Schedule(circuits, cs);
    PartitionsSpec(cs, circuits);
    ScheduleOnKnownDevices(circuits, cs);
    ScheduleLength(circuits, cs);
    var ds := Dedup(DeviceSeq(cs));
    DeviceSeqElems(cs);
    assert forall k :: 0 <= k < |ds| ==> ds[k] in Elems(ds);
    PartitionLengthsAreOnDevices(ds, parts, sched);
    SumOnDevicesCountsAll(ds, sched);
  }

  // ---------------------------------------------------------------------
  // Reconciling the results (aggregate_results, get_result_for)
  // ---------------------------------------------------------------------

  /** The variant of `circuit` for channel `ch` has counts in the result of
      `ch`'s device. */
  predicate Resolved(results: map<Device, Execution>, circuit: Circuit, ch: Channel) {
    ch.device in results && Variant(circuit, ch) in results[ch.device]
  }

  /** The per-channel records of one orchestration, in channel order; the
      first channel whose variant has no counts raises. */
  function RecordsOf(circuit: Circuit, chs: seq<Channel>, results: map<Device, Execution>)
    : (r: Result<seq<Measurements>>)
    ensures r.Ok? <==> forall i :: 0 <= i < |chs| ==> Resolved(results, circuit, chs[i])
    ensures r.Ok? ==> |r.value| == |chs|
    ensures r.Ok? ==> forall i :: 0 <= i < |chs| ==>
              r.value[i] == Measurements(FromChannel(chs[i]), results[chs[i].device][Variant(circuit, chs[i])])
    ensures r.Err? ==> r.error == MissingKey || r.error == NoMeasurements
  {
    if chs == [] then Ok([])
    else
      var ch := chs[0];
      if ch.device !in results then Err(MissingKey)
      else if Variant(circuit, ch) !in results[ch.device] then Err(NoMeasurements)
      else
        var rest :- RecordsOf(circuit, chs[1..], results);
        Ok([Measurements(FromChannel(ch), results[ch.device][Variant(circuit, ch)])] + rest)
  }

  /** Every channel of every orchestration has its variant's counts. */
  predicate AllResolved(orchs: seq<Orchestration>, results: map<Device, Execution>) {
    forall k, i :: 0 <= k < |orchs| && 0 <= i < |orchs[k].channels| ==>
      Resolved(results, orchs[k].circuit, orchs[k].channels[i])
  }

  /** The aggregation never raises. */
  ghost predicate TotalAggregator(aggregate: (Container, seq<Measurements>) -> Result<Measurements>) {
    forall c, rs :: aggregate(c, rs).Ok?
  }

  /** `e` is the entry recorded for orchestration `o`. */
  predicate EntryFor(e: Entry, o: Orchestration, results: map<Device, Execution>,
                     aggregate: (Container, seq<Measurements>) -> Result<Measurements>)
  {
    && e.circuit == o.circuit
    && e.container == o.container
    && RecordsOf(o.circuit, o.channels, results) == Ok(e.records)
    && aggregate(o.container, e.records) == Ok(e.aggregate)
  }

  /** `aggregate_results`: for each orchestration in order, collect one
      record per channel and append (circuit, container, aggregate, records). */
  function AggregateResults(table: seq<Entry>, orchs: seq<Orchestration>, results: map<Device, Execution>,
                            aggregate: (Container, seq<Measurements>) -> Result<Measurements>)
    : (r: Result<seq<Entry>>)
    ensures r.Ok? ==> |r.value| == |table| + |orchs|
    decreases |orchs|
  {
    if orchs == [] then Ok(table)
    else
      var o := orchs[0];
      var records :- RecordsOf(o.circuit, o.channels, results);
      var agg :- aggregate(o.container, records);
      AggregateResults(table + [Entry(o.circuit, o.container, agg, records)], orchs[1..], results, aggregate)
  }

  /** The aggregation keeps the table it started from and appends one entry
      per orchestration, in order; it succeeds when every channel has its
      counts and the aggregator never raises, and only when every channel
      has its counts. */
  lemma {:induction false} AggregateResultsSpec(table: seq<Entry>, orchs: seq<Orchestration>,
                                                results: map<Device, Execution>,
                                                aggregate: (Container, seq<Measurements>) -> Result<Measurements>)
    ensures AggregateResults(table, orchs, results, aggregate).Ok? ==>
              AggregateResults(table, orchs, results, aggregate).value[..|table|] == table
    ensures AggregateResults(table, orchs, results, aggregate).Ok? ==>
              forall k :: 0 <= k < |orchs| ==>
                EntryFor(AggregateResults(table, orchs, results, aggregate).value[|table| + k], orchs[k], results, aggregate)
    ensures AggregateResults(table, orchs, results, aggregate).Ok? ==> AllResolved(orchs, results)
    ensures AllResolved(orchs, results) && TotalAggregator(aggregate) ==>
              AggregateResults(table, orchs, results, aggregate).Ok?
    decreases |orchs|
  {
    if orchs != [] {
      var o := orchs[0];
      var records := RecordsOf(o.circuit, o.channels, results);
      ResolvedSplit(orchs, results);
      if records.Ok? && aggregate(o.container, records.value).Ok? {
        var e := Entry(o.circuit, o.container, aggregate(o.container, records.value).value, records.value);
        var next := table + [e];
        AggregateResultsSpec(next, orchs[1..], results, aggregate);
        var r := AggregateResults(next, orchs[1..], results, aggregate);
        assert AggregateResults(table, orchs, results, aggregate) == r;
        if r.Ok? {
          assert EntryFor(e, o, results, aggregate);
          EntriesShift(table, e, r.value, orchs, results, aggregate);
        }
      }
    }
  }

  /** Every channel of every orchestration resolves exactly when those of
      the first and those of the rest do. */
  lemma ResolvedSplit(orchs: seq<Orchestration>, results: map<Device, Execution>)
    requires orchs != []
    ensures AllResolved(orchs, results) <==>
              (forall i :: 0 <= i < |orchs[0].channels| ==> Resolved(results, orchs[0].circuit, orchs[0].channels[i]))
              && AllResolved(orchs[1..], results)
  {
    assert forall k :: 0 < k < |orchs| ==> orchs[k] == orchs[1..][k - 1];
  }

  /** The entries after `table + [e]` for the rest of the orchestrations,
      with `e` for the first, are the entries after `table` for all. */
  lemma EntriesShift(table: seq<Entry>, e: Entry, r: seq<Entry>, orchs: seq<Orchestration>,
                     results: map<Device, Execution>,
                     aggregate: (Container, seq<Measurements>) -> Result<Measurements>)
    requires orchs != [] && EntryFor(e, orchs[0], results, aggregate)
    requires |r| == |table| + |orchs| && r[..|table| + 1] == table + [e]
    requires forall k :: 0 <= k < |orchs[1..]| ==> EntryFor(r[|table| + 1 + k], orchs[1..][k], results, aggregate)
    ensures r[..|table|] == table
    ensures forall k :: 0 <= k < |orchs| ==> EntryFor(r[|table| + k], orchs[k], results, aggregate)
  {
    assert r[..|table|] == r[..|table| + 1][..|table|];
    assert r[|table|] == r[..|table| + 1][|table|];
    forall k | 0 < k < |orchs|
      ensures EntryFor(r[|table| + k], orchs[k], results, aggregate)
    {
      assert orchs[1..][k - 1] == orchs[k];
      assert |table| + k == |table| + 1 + (k - 1);
    }
  }

  /** Entry `e` answers the lookup of (circuit, container); containers
      compare by id. */
  predicate Answers(e: Entry, circuit: Circuit, container: Container) {
    e.circuit == circuit && SameContainer(e.container, container)
  }

  /** `get_result_for`: the aggregate and records of the first entry for
      (circuit, container); raises when there is none. */
  function GetResultFor(table: seq<Entry>, circuit: Circuit, container: Container)
    : (r: Result<(Measurements, seq<Measurements>)>)
    ensures r.Err? ==> r.error == NoResult
  {
    if table == [] then Err(NoResult)
    else if Answers(table[0], circuit, container) then Ok((table[0].aggregate, table[0].records))
    else GetResultFor(table[1..], circuit, container)
  }

  /** Entry k is the first to answer the lookup. */
  predicate FirstAnswer(table: seq<Entry>, circuit: Circuit, container: Container, k: int) {
    0 <= k < |table| && Answers(table[k], circuit, container) &&
    forall k' :: 0 <= k' < k ==> !Answers(table[k'], circuit, container)
  }

  /** The lookup succeeds exactly when some entry answers it, and then
      returns the aggregate and records of the first such entry. */
  lemma {:induction false} GetResultForSpec(table: seq<Entry>, circuit: Circuit, container: Container)
    ensures GetResultFor(table, circuit, container).Ok? <==>
            exists k :: 0 <= k < |table| && Answers(table[k], circuit, container)
    ensures GetResultFor(table, circuit, container).Ok? ==>
            exists k :: FirstAnswer(table, circuit, container, k) &&
                        GetResultFor(table, circuit, container).value == (table[k].aggregate, table[k].records)
  {
    if table != [] && !Answers(table[0], circuit, container) {
      var tail := table[1..];
      GetResultForSpec(tail, circuit, container);
      var r := GetResultFor(tail, circuit, container);
      assert forall k :: 0 < k < |table| ==> table[k] == tail[k - 1];
      if r.Ok? {
        var k :| FirstAnswer(tail, circuit, container, k) && r.value == (tail[k].aggregate, tail[k].records);
        assert FirstAnswer(table, circuit, container, k + 1);
      }
    } else if table != [] {
      assert FirstAnswer(table, circuit, container, 0);
    }
  }

  // ---------------------------------------------------------------------
  // One batch end to end (orchestrate_executions)
  // ---------------------------------------------------------------------

  /** `execute`: every device runs its whole partition at once. */
  function ExecuteAll(parts: map<Device, seq<Variant>>, execute: (Device, seq<Variant>) -> Execution)
    : map<Device, Execution>
  {
    map d | d in parts :: execute(d, parts[d])
  }

  /** `orchestrate_executions`: partition, execute, aggregate. */
  function OrchestrateExecutions(o: Orchestrator, circuits: seq<Circuit>,
                                 execute: (Device, seq<Variant>) -> Execution,
                                 aggregate: (Container, seq<Measurements>) -> Result<Measurements>)
    : Result<Orchestrator>
  {
    var (orchs, parts) := CreateOrchestrationsAndPartitions(o.containers, circuits);
    var results :- AggregateResults(o.results, orchs, ExecuteAll(parts, execute), aggregate);
    Ok(o.(results := results))
  }

  /** A batch keeps the orchestrator's containers and appends, after the
      results of earlier batches, one entry per (circuit, container) pair in
      loop order; it raises only when some channel's variant has no counts
      or the aggregation raises. */
  lemma OrchestrateExecutionsAppends(o: Orchestrator, circuits: seq<Circuit>,
                                     execute: (Device, seq<Variant>) -> Execution,
                                     aggregate: (Container, seq<Measurements>) -> Result<Measurements>)
    ensures OrchestrateExecutions(o, circuits, execute, aggregate).Ok? ==>
              && OrchestrateExecutions(o, circuits, execute, aggregate).value.containers == o.containers
              && |OrchestrateExecutions(o, circuits, execute, aggregate).value.results| == |o.results| + |circuits| * |o.containers|
              && OrchestrateExecutions(o, circuits, execute, aggregate).value.results[..|o.results|] == o.results
    ensures OrchestrateExecutions(o, circuits, execute, aggregate).Ok? ==>
              AllResolved(Orchestrations(circuits, o.containers), ExecuteAll(Partitions(o.containers, circuits), execute))
    ensures (AllResolved(Orchestrations(circuits, o.containers), ExecuteAll(Partitions(o.containers, circuits), execute))
             && TotalAggregator(aggregate)) ==> OrchestrateExecutions(o, circuits, execute, aggregate).Ok?
  {
    OrchestrationsLength(circuits, o.containers);
    AggregateResultsSpec(o.results, Orchestrations(circuits, o.containers),
                         ExecuteAll(Partitions(o.containers, circuits), execute), aggregate);
  }

  /** A device reports counts for every variant it was given. */
  ghost predicate CompleteExecution(execute: (Device, seq<Variant>) -> Execution) {
    forall d, vs, v :: v in vs ==> v in execute(d, vs)
  }

  lemma {:induction false} OrchestrationsMembers(circuits: seq<Circuit>, cs: seq<Container>)
    ensures forall k :: 0 <= k < |Orchestrations(circuits, cs)| ==>
              && Orchestrations(circuits, cs)[k].circuit in circuits
              && Orchestrations(circuits, cs)[k].container in cs
              && Orchestrations(circuits, cs)[k].channels == Dedup(Orchestrations(circuits, cs)[k].container.channels)
  {
    if circuits != [] {
      OrchestrationsMembers(circuits[1..], cs);
      assert forall c :: c in circuits[1..] ==> c in circuits;
    }
  }

  lemma {:induction false} VariantInContainerVariants(circuit: Circuit, cs: seq<Container>, c: Container, ch: Channel)
    requires c in cs && ch in c.channels
    ensures Variant(circuit, ch) in ContainerVariants(circuit, cs)
  {
    if cs[0] != c {
      VariantInContainerVariants(circuit, cs[1..], c, ch);
    } else {
      var i :| 0 <= i < |c.channels| && c.channels[i] == ch;
      assert ChannelVariants(circuit, c.channels)[i] == Variant(circuit, ch);
    }
  }

  lemma {:induction false} VariantScheduled(circuits: seq<Circuit>, cs: seq<Container>, circuit: Circuit, c: Container, ch: Channel)
    requires circuit in circuits && c in cs && ch in c.channels
    ensures Variant(circuit, ch) in Schedule(circuits, cs)
  {
    if circuits[0] == circuit {
      VariantInContainerVariants(circuit, cs, c, ch);
    } else {
      VariantScheduled(circuits[1..], cs, circuit, c, ch);
    }
  }

  /** With devices that answer for every variant they are sent, every
      channel of every orchestration finds its counts. */
  lemma CompleteExecutionResolvesAll(cs: seq<Container>, circuits: seq<Circuit>,
                                     execute: (Device, seq<Variant>) -> Execution)
    requires CompleteExecution(execute)
    ensures AllResolved(Orchestrations(circuits, cs), ExecuteAll(Partitions(cs, circuits), execute))
  {
    var orchs := Orchestrations(circuits, cs);
    var parts := Partitions(cs, circuits);
    var results := ExecuteAll(parts, execute);
    OrchestrationsMembers(circuits, cs);
    PartitionsSpec(cs, circuits);
    ScheduleOnKnownDevices(circuits, cs);
    forall k, i | 0 <= k < |orchs| && 0 <= i < |orchs[k].channels|
      ensures Resolved(results, orchs[k].circuit, orchs[k].channels[i])
    {
      var o := orchs[k];
      var ch := o.channels[i];
      assert ch in Elems(Dedup(o.container.channels));
      VariantScheduled(circuits, cs, o.circuit, o.container, ch);
      var v := Variant(o.circuit, ch);
      assert ch.device in parts;
      assert v in parts[ch.device];
    }
  }

  /** A batch run with devices that answer for every variant and an
      aggregator that never raises succeeds, and afterwards every
      (circuit, container) pair of the batch can be looked up, including
      containers that were passed twice under one id. */
  lemma CompleteRunAnswersEveryPair(qcontainers: seq<Container>, circuits: seq<Circuit>,
                                    execute: (Device, seq<Variant>) -> Execution,
                                    aggregate: (Container, seq<Measurements>) -> Result<Measurements>)
    requires CompleteExecution(execute)
    requires TotalAggregator(aggregate)
    ensures OrchestrateExecutions(NewOrchestrator(qcontainers), circuits, execute, aggregate).Ok?
    ensures forall i, c :: 0 <= i < |circuits| && c in qcontainers ==>
              GetResultFor(OrchestrateExecutions(NewOrchestrator(qcontainers), circuits, execute, aggregate).value.results,
                           circuits[i], c).Ok?
  {
    var o := NewOrchestrator(qcontainers);
    var cs := o.containers;
    var orchs := Orchestrations(circuits, cs);
    var results := ExecuteAll(Partitions(cs, circuits), execute);
    CompleteExecutionResolvesAll(cs, circuits, execute);
    AggregateResultsSpec([], orchs, results, aggregate);
    var table := AggregateResults([], orchs, results, aggregate).value;
    OrchestrationsSpec(cs, circuits);
    forall i, c | 0 <= i < |circuits| && c in qcontainers
      ensures GetResultFor(table, circuits[i], c).Ok?
    {
      var n :| 0 <= n < |qcontainers| && qcontainers[n] == c;
      assert HasId(qcontainers, c.id);
      var j :| 0 <= j < |cs| && cs[j].id == c.id;
      var k := Slot(i, j, |cs|);
      assert EntryFor(table[0 + k], orchs[k], results, aggregate);
      assert Answers(table[k], circuits[i], c);
      GetResultForSpec(table, circuits[i], c);
    }
  }
}
