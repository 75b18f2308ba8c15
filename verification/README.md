# Fault-tolerant quantum computing experiments, modelled in Dafny

The modelled system runs quantum circuits redundantly. A *fault-tolerant
container* holds several redundancy channels, each bound to a quantum
device. The container's records are merged by an aggregator, for example a
linear opinion pool. The *orchestrator* does three things for each batch of
circuits:

- it sends every circuit through every channel of every container;
- it partitions the resulting circuit variants by device and runs each
  device's partition at once;
- it collects, per (circuit, container) pair, the records of the container's
  channels and their aggregate.

An experiment repeats this for every batch a circuit provider hands out. For
each pair it records the aggregate and the single records together with the
simulator's best states. Metrics then count where the correct state ranks.
Around this core sit four further pieces:

- conformal sets (the top-n states of a record);
- majority voting over their pairwise intersections;
- a conformity score;
- a redundancy switch that swaps an operational unit for a spare.

The Dafny project models these pieces as pure functions over immutable
datatypes. Every exception the code raises becomes an `Error` value in a
`Result`. Devices, channels and circuits are opaque identities. Running a
device, aggregating, simulating and detecting faults are parameters of the
operations that use them.

| file | module | models |
|---|---|---|
| failures.dfy | Failures | the exceptions raised, `Result`/`Option`, a raise-on-first-failure loop |
| seqs.dfy | Seqs | sequence helpers: distinctness, element sets, de-duplication, sums |
| entities.dfy | Entities | devices, channels, circuits, records and their ranking, containers, Python's set of containers |
| orchestrator.dfy | Orchestrator | `QuantumContainerOrchestrator` |
| combiner.dfy | Combiner | `LinearOpinionPool` |
| conformal.dfy | Conformal | conformal sets, the pair iterator, majority voting, the conformity score |
| switches.dfy | Switches | `QuantumSwitchUnit`, `QuantumRedundancySwitch` |
| builder.dfy | Builder | `FaultTolerantPatternBuilder`, `CombinerPatternBuilder` |
| experiment.dfy | Experiment | `determine_position`, `getbinary`, `ExperimentResult`, `run_experiment` |
| metrics.dfy | Metrics | the three counting metrics |
| provider.dfy | Provider | `CircuitProvider`, `CircuitBatch`, `RandomCircuitProvider.get` |

## Model

| member | source | states |
|---|---|---|
| Entities.GetCountFor | ftqc/core/entities.py:28-31 | the stored count of a measured state and 0.0 for any other state; on a well-formed record the count is never negative and is positive only for measured states |
| Entities.SortByCountSpec | ftqc/core/entities.py:33-35 | sorting by count gives non-increasing counts, and the states of each count value keep their original relative order (a stable sort) |
| Entities.RankIsStableSort | ftqc/core/entities.py:33-35 | `rank()` is a permutation of the measured states with no state twice, ordered by non-increasing count, and equal counts keep insertion order |
| Entities.ContainerSet | ftqc/core/entities.py:126-136 | `set(qcontainers)` keeps one container per id, the first one inserted, and holds exactly the ids of the input |
| Orchestrator.NewOrchestrator | ftqc/core/entities.py:135-137 | a new orchestrator holds the input's containers with no id twice and every input id present, and has no results |
| Orchestrator.OrchestrationsSpec | ftqc/core/entities.py:151-162 | there is one orchestration per (circuit, container) pair, circuits outer and containers inner; each holds the container's channels once each, as the keys of its dictionary |
| Orchestrator.PartitionsSpec | ftqc/core/entities.py:151-163 | the partition dictionary has as keys exactly the devices that `get_devices` (entities.py:123-124) gives for the containers, the devices of their channels; each device's list is the variants sent to it, in append order |
| Orchestrator.DistributeAppends | ftqc/core/entities.py:157-160 | appending variants to their devices' lists leaves each list as it was, followed by exactly the new variants for that device, in order |
| Orchestrator.PartitionsTotal | ftqc/core/entities.py:151-163 | every appended variant lands in exactly one partition: the partitions together hold circuits x channels variants |
| Orchestrator.RecordsOf | ftqc/core/entities.py:174-181 | one record per channel, in channel order, each built from the counts of that channel's variant on that channel's device; it raises exactly when some channel has no counts |
| Orchestrator.AggregateResultsSpec | ftqc/core/entities.py:168-184 | aggregation keeps earlier results and appends one entry per orchestration, in order, with its records and aggregate; it succeeds only when every channel has counts, and always does then if the aggregator never raises |
| Orchestrator.GetResultForSpec | ftqc/core/entities.py:139-144 | a lookup succeeds exactly when some entry matches the circuit and container ids, and then returns the first match's aggregate and records |
| Orchestrator.OrchestrateExecutionsAppends | ftqc/core/entities.py:146-149 | a batch keeps the containers and appends circuits x containers entries after the earlier results; it succeeds only when every channel has counts, and always does then if the aggregator never raises |
| Orchestrator.CompleteExecutionResolvesAll | ftqc/core/entities.py:151-177 | when `execute` runs every device once on its whole partition and devices return counts for every variant they are sent, every channel of every orchestration finds its counts |
| Orchestrator.CompleteRunAnswersEveryPair | ftqc/core/entities.py:134-184 | with such devices and an aggregator that never raises, a batch succeeds and every (circuit, container) pair can be looked up, including containers passed twice under one id |
| Combiner.UniformWeightsSum | ftqc/core/combiner.py:11-14 | `with_uniform_weights` gives each listed channel 1/n, where n counts the list's entries: for n distinct channels the weights sum to one; with a repeated channel the distinct weights sum to less than one |
| Combiner.ProbabilityBounds | ftqc/core/combiner.py:25 | the per-record probability used by pooling (count over total) lies between 0 and 1 on a well-formed record |
| Combiner.ProbabilitiesSumToOne | ftqc/core/combiner.py:25 | over a record with some count, the probabilities of its states add up to one |
| Combiner.AssertEqualDevices | ftqc/core/combiner.py:36-45 | the check passes exactly when the set of record origins equals the set of devices of the weighted channels, and otherwise raises |
| Combiner.ChannelRecordsRejected | ftqc/core/combiner.py:36-45 | the check rejects every non-empty list of records produced by channels, which is what the orchestrator builds (entities.py:181) |
| Combiner.Pool | ftqc/core/combiner.py:19-33 | pooling raises on an empty list, and raises a missing key exactly when the first record measured something and some record's origin has no weight; otherwise the result has exactly the first record's states, in order, each with the sum over the records of probability x weight |
| Combiner.PooledValueBounds | ftqc/core/combiner.py:22-29 | with non-negative weights and well-formed records, a pooled value lies between 0 and the total weight of the records' origins |
| Combiner.PoolIsMixture | ftqc/core/combiner.py:19-33 | every state of a pooled record gets a value between 0 and the records' total weight, so weights that add up to one over the records give probabilities |
| Combiner.CombineNeverPoolsAState | ftqc/core/combiner.py:16-33 | any result `combine` returns has no states: a list of records that passes the check cannot be weighted |
| Combiner.UniformPoolIdempotent | ftqc/core/combiner.py:19-29 | n records with uniform weights 1/n and one shared distribution pool back to that distribution |
| Conformal.TopNFromSpec | ftqc/core/conformal_measurements.py:4-16 | `top_n_from` raises exactly when n <= 0, in the constructor; otherwise the top-n set of a well-formed record has min(n, #states) distinct measured states, and none of the states left out has a larger count than a kept one |
| Conformal.Intersection | ftqc/core/conformal_measurements.py:18-23 | the intersection holds each shared state once; it raises exactly when the two sets are disjoint |
| Conformal.IntersectionSymmetric | ftqc/core/conformal_measurements.py:18-23 | intersecting in either order raises alike and gives the same states |
| Conformal.SelfIntersection | ftqc/core/conformal_measurements.py:18-23 | a set of distinct states intersected with itself keeps all of its states |
| Conformal.PairWalkSpec | ftqc/core/conformal_measurements.py:43-62 | the iterator over k >= 2 sets yields every pair i < j once, row by row, and then the last set paired with itself; one set yields nothing, and no sets raise |
| Conformal.UpperPairsSpec | ftqc/core/conformal_measurements.py:52-62 | the row-by-row pairs are exactly the pairs i < j < k, k(k-1)/2 of them |
| Conformal.CastVotes | ftqc/core/conformal_measurements.py:32-39 | the voting loop raises exactly when some pair is disjoint; otherwise each state gains one vote per pair that holds it and shares at least `threshold` states |
| Conformal.Vote | ftqc/core/conformal_measurements.py:29-41 | voting raises on no sets or a disjoint pair; otherwise the table holds every state of every set, each with the number of agreeing pairs of the walk |
| Conformal.VotesBounded | ftqc/core/conformal_measurements.py:29-41 | no state gets more votes than there are pairs, and a single set casts no vote |
| Conformal.LastSetVotesForItself | ftqc/core/conformal_measurements.py:29-62 | every state of the last set gets at least one vote when that set has at least `threshold` states, because the walk pairs it with itself |
| Conformal.ScoreOver | ftqc/core/conformal_measurements.py:66-77 | the score loop raises exactly when some pair is disjoint or top_n is zero; otherwise it equals the sum over the pairs of 2 x matches / top_n - 1 |
| Conformal.ConformityScore | ftqc/core/conformal_measurements.py:65-82 | the raw score raises exactly on no sets, a disjoint pair, or a zero top_n with two or more sets; otherwise it is the sum of the pair terms over the walk |
| Conformal.ScoreSumBounds | ftqc/core/conformal_measurements.py:66-77 | with sets of at most top_n states, the score lies between minus and plus the number of pairs |
| Conformal.TwoEqualSetsScoreTwo | ftqc/core/conformal_measurements.py:43-82 | two equal sets of top_n states score 2, not 1: the walk also pairs the last set with itself |
| Switches.Remove | ftqc/core/qswitches.py:18 | `list.remove` raises exactly when the unit is not a spare; otherwise it drops the unit's first occurrence and keeps the rest in order |
| Switches.SwitchIfNecessary | ftqc/core/qswitches.py:14-23 | the switch raises exactly when the policy picks nothing or a non-spare; otherwise the pick becomes operational and leaves the spares, the old unit joins the end of the spares, the units are a permutation of the old ones, and the pick's record is returned |
| Switches.SwitchWithoutFault | ftqc/core/qswitches.py:6-16 | a switch happens even when the operational unit's detector reports no fault: the guard never calls it |
| Switches.BaseSwitchRaises | ftqc/core/qswitches.py:14-26 | with the base class's `do_switch`, which returns None, every call raises |
| Switches.SwitchToFirstSpareRotates | ftqc/core/qswitches.py:14-23 | switching to the first spare rotates the units |
| Builder.AddChannelsAppends | ftqc/builder/ft_builder.py:9-11 | adding channels one at a time appends one entry per channel and keeps the name and the earlier entries |
| Builder.BuildCombiner | ftqc/builder/ft_builder.py:17-48 | a build raises first on a missing or empty name, then on an empty channel list (the base class's validation); it succeeds exactly when the builder is valid, every entry is a single channel, and a combiner is set or uniform pooling is asked for; the container has the builder's name, its channels in order, and the chosen combiner or the uniform pool over the channels, and the builder stores that combiner; each error case raises its own error |
| Builder.BuildAgainSameContainer | ftqc/builder/ft_builder.py:39-48 | building again after a successful build gives the same container |
| Builder.UniformBuildFromChannels | ftqc/builder/ft_builder.py:9-48 | a named builder given channels one at a time and asked for uniform pooling builds exactly that container |
| Builder.GroupNeverBuilds | ftqc/builder/ft_builder.py:13-48 | `add_n_channels` appends its whole list as one entry, so the builder never builds: after the name check it raises for want of a combiner, or because the uniform pool cannot key its dictionary by a list |
| Experiment.PositionInSpec | ftqc/experiment/util.py:23-31 | the search raises exactly when no state matches, and otherwise returns the index of the first match |
| Experiment.DeterminePositionSpec | ftqc/experiment/util.py:23-31 | for a well-formed record and one correct state, the position exists exactly when the state was measured; it is then the one index of `rank()` holding that state |
| Experiment.ListTruthNeverFound | ftqc/experiment/util.py:23-31 | a list of states given as the correct answer is never found, because a string never equals a list |
| Experiment.GetBinary | ftqc/experiment/util.py:20 | the label is binary digits: x's binary form left-padded with zeros to n, never shortened |
| Experiment.GetBinaryRoundTrip | ftqc/experiment/util.py:20 | reading the padded label as binary gives back x |
| Experiment.GetBinaryWidth | ftqc/experiment/util.py:18-21 | an index below 2^n gets exactly n digits |
| Experiment.PositionsSpec | ftqc/experiment/ftqc_experiment.py:39-42 | positions exist exactly when every single record holds the correct answer, and then the k-th is the position in record k |
| Experiment.AvgPosition | ftqc/experiment/ftqc_experiment.py:37-44 | the mean raises when some record lacks the correct answer, and divides by zero when there are no records |
| Experiment.AvgPositionBetween | ftqc/experiment/ftqc_experiment.py:37-44 | the mean position lies between the smallest and the largest single position |
| Experiment.ClosestFromSpec | ftqc/experiment/ftqc_experiment.py:46-53 | for every list of records the loop either stops at a record, after records that all resolved to non-zero positions, or passes all of them; stopping raises when that record lacks the correct answer and returns 0 when it ranks it first, whatever later records hold; passing all returns the last record's position, or the start value without records |
| Experiment.PositionOfClosestSpec | ftqc/experiment/ftqc_experiment.py:46-53 | `position_of_closest` is 0 exactly when a record ranks the state first before any record lacks it, and raises exactly when a record lacks it before any 0; when every record holds it and none ranks it first, the result is the LAST record's position, not the smallest |
| Experiment.ListTruthViewsRaise | ftqc/experiment/ftqc_experiment.py:37-57 | with a list of states as the correct answer, `position_of_agg` and `avg_postion` raise, and `position_of_closest` raises unless there are no records |
| Experiment.ResultsForCircuitSpec | ftqc/experiment/ftqc_experiment.py:19-21 | a circuit's results exist exactly when every container can be looked up; the j-th is container j's lookup, labelled with its id and the circuit's best states |
| Experiment.ResultsForCircuitsOk | ftqc/experiment/ftqc_experiment.py:17-21 | a batch's results exist exactly when every (circuit, container) pair can be looked up |
| Experiment.ResultsForCircuitsAt | ftqc/experiment/ftqc_experiment.py:17-21 | there are circuits x containers results; result i x |cs| + j is circuit i's lookup for container j |
| Experiment.RunExperimentLength | ftqc/experiment/ftqc_experiment.py:12-22 | a run yields one result per container for every circuit of every batch |
| Experiment.CompleteRunSucceeds | ftqc/experiment/ftqc_experiment.py:12-22 | with devices that report every variant and an aggregator that never raises, a run succeeds |
| Experiment.RunResultsHaveNoPosition | ftqc/experiment/ftqc_experiment.py:12-22 | no result a run yields has a position in its aggregate: the run gives each result the simulator's list of best states as its correct answer |
| Metrics.NumberOfCorrectCircuits | ftqc/evaluation/metrics.py:7-13 | the loop counts the positions equal to 0 |
| Metrics.ZeroCountBounded | ftqc/evaluation/metrics.py:7-13 | the count is at most the number of positions, and equals it exactly when every position is 0 |
| Metrics.NumberOfTopTenCircuits | ftqc/evaluation/metrics.py:15-21 | the loop counts the positions within their bound; it raises exactly when the bounds list is shorter than the positions |
| Metrics.TalliesSpec | ftqc/evaluation/metrics.py:28-36 | `greater` + `less` counts every pair, ties are also counted in `less`, and `equal` == `less` exactly when the aggregate is never worse |
| Metrics.DirectComparison | ftqc/evaluation/metrics.py:23-40 | the comparison raises on unequal lengths and divides by zero on empty lists; otherwise it returns each tally over greater + 2 x less |
| Metrics.FractionsSumToOne | ftqc/evaluation/metrics.py:23-40 | the three fractions sum to one exactly when the aggregate never ranks the state worse than the single record |
| Provider.TruncDivSpec | ftqc/provider/circuit_provider.py:9 | `int(a / b)` truncates toward zero: it is the floor on non-negative operands and is odd in each operand |
| Provider.NewCircuitProvider | ftqc/provider/circuit_provider.py:6-9 | the constructor raises exactly on batch size 0; otherwise the batch count times the batch size capped at 25 is the largest such multiple within the circuit count |
| Provider.BatchesFrom | ftqc/provider/circuit_provider.py:15-39 | with generator bounds `random.randint` accepts, the batches from i on are numbered in order, each of the announced size with ids batch{i}_randomcircuit{j}; a negative size gives no circuits, so the `CircuitBatch` size check raises |
| Provider.Get | ftqc/provider/circuit_provider.py:29-39 | with generator bounds `random.randint` accepts, `get` yields `num_batches` batches (none when it is not positive) of `batch_size` circuits named by batch and position, and raises only when batches are due and the size is negative |
| Provider.RandomGet | ftqc/provider/circuit_provider.py:23-39 | `get` with its generator bounds raises exactly when batches are due and either the size is negative (the batch's size check) or circuits are drawn and `max_num_qubits` < 2 or `max_depth` < 5 (`random.randint` on an empty range) |
| Provider.RandomGetIsGet | ftqc/provider/circuit_provider.py:23-39 | with valid generator bounds, or nothing to draw, `get` hands out exactly the batches of `Provider.Get` |
| Provider.OneQubitBoundRaises | ftqc/provider/circuit_provider.py:23-39 | `RandomCircuitProvider(50, 25, max_num_qubits=1).get()` raises on its first circuit |
| Provider.ParseDecOfDec | ftqc/provider/circuit_provider.py:35 | the decimal digits `format` writes read back as the number |
| Provider.CircuitIdInjective | ftqc/provider/circuit_provider.py:35 | different (batch, position) pairs get different ids |
| Provider.GetIdsDistinct | ftqc/provider/circuit_provider.py:29-39 | no two circuits handed out share an id |
| Provider.GetAtMostRequested | ftqc/provider/circuit_provider.py:6-39 | with batch sizes 1 to 25 the provider hands out at most the requested number of circuits |
| Provider.LargeBatchesOvershoot | ftqc/provider/circuit_provider.py:9 | above 25 the count still divides by 25: 100 circuits in batches of 50 become 200 circuits |

## Left out

- Running circuits: Qiskit execution, transpilation (`channel.apply`), backends, noise models and shot counts are left out. A device's run is the parameter `execute`, which maps a list of variants to counts per variant. A variant is the pair (circuit, channel).
- The aggregator that `FaultTolerantQuantumContainer.aggregate` calls is the parameter `aggregate`. Its opinion-pool instance is `Combiner.Combine`.
- Random circuits: their gates, qubit counts and depths come from a random generator, so a circuit is its id. Only the generator bounds' effect on raising is modelled (`Provider.RandomGet`).
- Provider.Get and Provider.BatchesFrom: their error statements hold for generator bounds `random.randint` accepts; the `ValueError` for `max_num_qubits` < 2 or `max_depth` < 5 is stated by `Provider.RandomGet` instead.
- `simulate_and_retrieve_best_solution`: it needs a statevector simulator and a float argmax, so it is the parameter `groundTruth`. Only its `getbinary` labels are modelled.
- Fault detectors (qerror_detection.py) are not part of this model. A detector's verdict is the parameter `accept`, and the switching policy `do_switch` of subclasses is the parameter `doSwitch`.
- Conformal.ConformityScore: it is the score before the final map. `calculate_conformity` ends with the logistic function, which uses floating-point `exp`.
- Metrics.NumberOfCorrectCircuits: positions are reals, so a `None` from `position_of_closest` (a result without single records) is not modelled. The code compares `None == 0`, which is False, so it counts `None` as not correct without raising; any non-zero real behaves the same way in the model.
- Metrics.NumberOfTopTenCircuits: positions are reals. A `None` from `position_of_closest` (a result without single records) is not a position; the code's `None <= x` raises `TypeError`, and the model does not take `None`.
- Metrics.DirectComparison: likewise, a `None` position is not modelled; the code's `None < x` raises `TypeError`.
- Floating-point arithmetic: probabilities, weights, scores and the metrics' fractions are exact reals, so rounding is not modelled.
- Provider.TruncDiv: models `int(a / b)` as exact truncation toward zero. It does not model the float rounding of operands beyond 2^53.
- Python's set and dictionary iteration order is not modelled. Three places depend on it:
  - the orchestrator's set of containers is visited in first-occurrence order;
  - an intersection lists the shared states in the first set's order;
  - the vote table is a map.
- Combiner.Probability: the pooling loop calls `Measurements.get_probabilitiy`, which entities.py does not define, so as written every pooled state raises `AttributeError` before the weight lookup. The model uses count over total instead, and 0.0 for a record whose counts add up to 0. Because of this, `Combiner.Pool` reports a missing weight where the code would report the missing method.
- Combiner.Pool: the model stops after the pooling loop and gives the pooled record the abstract origin `Pooled`. As written, combiner.py:31 reads `unique_name` from every weight key. The keys are channels, which have no `unique_name` (qchannels.py:7-9), so that line raises `AttributeError` whenever there is a weight. Without weights, line 32 calls `QuantumDevice(name)` without the required `shots` argument and raises `TypeError`. So the code's `combine` never returns, while the model's `Combine` returns `Ok` for a list that passes the check and whose first record measured nothing.
- Builder.BuildCombiner: with an explicitly set combiner, a builder holding an `add_n_channels` list builds a container whose channel list holds a list, and the code fails only later, when something reads that list's `.device`. The model raises `NotAChannel` at build time instead.
- Builder.GroupNeverBuilds: holds of the code only when no combiner was set explicitly. With one set, the code builds (ft_builder.py:48) and the lemma states the model's `NotAChannel` instead.
- Experiment.AvgPosition: the contract gives the error cases. For the value it states only the bounds proved in `Experiment.AvgPositionBetween` (between the smallest and largest position), not the exact mean.
- The type checks that raise on a non-qiskit circuit (entities.py:11-12) and on intersecting with a non-conformal-set (conformal_measurements.py:19-20) are enforced by Dafny's types instead. The pair iterator's `list()` conversion of a non-list argument (conformal_measurements.py:45) is covered by its `seq` parameter.
- Trivial setters (`combine_measurements_with`, `combine_measurements_uniformly`) are fields of `Builder.CombinerBuilder`. The constructors of the entities are their datatypes.
- I/O is left out: `save_results`, the JSON encoder, printing, and the experiment's `save`/`evaluate`.
- The mutating methods (the switch, the builders, the orchestrator's results list) return the updated value instead of changing an object in place. Two effects of in-place change are therefore not modelled:
  - `aggregate_results` appends entry by entry (entities.py:168-184). When a later orchestration raises, the code keeps the earlier entries of the batch in `aggregated_results`. The model's `OrchestrateExecutions` returns the error and no partial results.
  - A built container shares the builder's `channels` list (ft_builder.py:48). A later `add_channel` on the builder changes containers already built; in the model a built container never changes.
