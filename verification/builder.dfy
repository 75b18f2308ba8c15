/** The pattern builders (ftqc/builder/ft_builder.py): collect channels
    under a pattern name, validate, and build a container whose records
    are combined by a chosen or a uniform linear opinion pool. */
module Builder {
  import opened Failures
  import opened Entities
  import opened Combiner

  /** An entry of the builder's channel list: `add_channel` appends one
      channel, `add_n_channels` appends its whole list as one entry. */
  datatype ChannelItem = Single(channel: Channel) | Group(channels: seq<Channel>)

  /** `FaultTolerantPatternBuilder`: the pattern name (None or a string)
      and the channel list. */
  datatype PatternBuilder = PatternBuilder(name: Option<string>, items: seq<ChannelItem>)

  /** `CombinerPatternBuilder`: the base builder, the explicitly chosen
      combiner (an opaque key, None until set) and the uniform flag. */
  datatype CombinerBuilder = CombinerBuilder(base: PatternBuilder, combiner: Option<Aggregator>, uniform: bool)

  /** What `CombinerPatternBuilder.build` returns, with the builder as the
      call leaves it (it stores the uniform pool it creates). */
  datatype Built = Built(builder: CombinerBuilder, container: Container)

  function NewPatternBuilder(name: Option<string>): PatternBuilder {
    PatternBuilder(name, [])
  }

  function NewCombinerBuilder(name: Option<string>): CombinerBuilder {
    CombinerBuilder(NewPatternBuilder(name), None, false)
  }

  /** `add_channel`: one more entry at the end. */
  function AddChannel(b: PatternBuilder, ch: Channel): PatternBuilder {
    b.(items := b.items + [Single(ch)])
  }

  /** `add_n_channels`: the list is appended as ONE entry, not element-wise. */
  function AddNChannels(b: PatternBuilder, chs: seq<Channel>): PatternBuilder {
    b.(items := b.items + [Group(chs)])
  }

  /** `add_channel` called once per channel, in order. */
  function AddChannels(b: PatternBuilder, chs: seq<Channel>): PatternBuilder
    decreases |chs|
  {
    if chs == [] then b else AddChannels(AddChannel(b, chs[0]), chs[1..])
  }

  /** The entries of a list of single channels. */
  function Singles(chs: seq<Channel>): (r: seq<ChannelItem>)
    ensures |r| == |chs| && forall k :: 0 <= k < |chs| ==> r[k] == Single(chs[k])
  {
    seq(|chs|, k requires 0 <= k < |chs| => Single(chs[k]))
  }

  /** Adding channels one by one appends one single entry per channel,
      keeps the earlier entries, and leaves the name alone. */
  lemma {:induction false} AddChannelsAppends(b: PatternBuilder, chs: seq<Channel>)
    ensures AddChannels(b, chs) == b.(items := b.items + Singles(chs))
    decreases |chs|
  {
    if chs == [] {
      assert b.items + Singles(chs) == b.items;
    } else {
      AddChannelsAppends(AddChannel(b, chs[0]), chs[1..]);
      assert b.items + [Single(chs[0])] + Singles(chs[1..]) == b.items + Singles(chs);
    }
  }

  /** `add_n_channels` grows the list by exactly one entry, whatever the
      number of channels it is given. */
  lemma AddNChannelsAddsOneEntry(b: PatternBuilder, chs: seq<Channel>)
    ensures |AddNChannels(b, chs).items| == |b.items| + 1
    ensures AddNChannels(b, chs).items[..|b.items|] == b.items
    ensures AddNChannels(b, chs).items[|b.items|] == Group(chs)
  {
  }

  /** The name check of `FaultTolerantPatternBuilder.build`. */
  predicate Named(b: PatternBuilder) {
    b.name.Some? && b.name.value != ""
  }

  /** `FaultTolerantPatternBuilder.build`: raises on a missing or empty
      name, then on an empty channel list; it builds nothing itself. */
  function ValidatePattern(b: PatternBuilder): (r: Result<()>)
    ensures r.Ok? <==> Named(b) && b.items != []
    ensures r.Err? ==> r.error == (if Named(b) then NoChannels else MissingPatternName)
  {
    if b.name == Some("") || b.name.None? then Err(MissingPatternName)
    else if |b.items| < 1 then Err(NoChannels)
    else Ok(())
  }

  /** Every entry is a single channel. */
  predicate AllSingle(items: seq<ChannelItem>) {
    forall k :: 0 <= k < |items| ==> items[k].Single?
  }

  /** The channels of a list of single entries. */
  function ChannelsOf(items: seq<ChannelItem>): (r: seq<Channel>)
    requires AllSingle(items)
    ensures |r| == |items| && forall k :: 0 <= k < |items| ==> r[k] == items[k].channel
  {
    seq(|items|, k requires 0 <= k < |items| => items[k].channel)
  }

  /** `CombinerPatternBuilder.build`: validate, then take the explicitly
      set combiner, else (when asked for) a uniform pool over the channel
      list, else raise. A list entry from `add_n_channels` is a list,
      which cannot key the pool's dictionary; and a container holding one
      is refused here rather than when its devices are first read. */
  function BuildCombiner(cb: CombinerBuilder): (r: Result<Built>)
    ensures r.Ok? <==> Named(cb.base) && cb.base.items != [] && AllSingle(cb.base.items) &&
                       (cb.combiner.Some? || cb.uniform)
    ensures r.Ok? ==> r.value.container.id == cb.base.name.value
    ensures r.Ok? ==> |r.value.container.channels| == |cb.base.items| &&
                      forall k :: 0 <= k < |cb.base.items| ==>
                        cb.base.items[k] == Single(r.value.container.channels[k])
    ensures r.Ok? && cb.combiner.Some? ==> r.value.container.aggregator == cb.combiner.value
    ensures r.Ok? && cb.combiner.None? ==>
              r.value.container.aggregator == Pool(WithUniformWeights(r.value.container.channels))
    ensures r.Ok? ==> r.value.builder.base == cb.base && r.value.builder.combiner == Some(r.value.container.aggregator)
    ensures !Named(cb.base) ==> r == Err(MissingPatternName)
    ensures Named(cb.base) && cb.base.items == [] ==> r == Err(NoChannels)
    ensures r.Err? && Named(cb.base) && cb.base.items != [] ==>
              r.error == (if cb.combiner.None? && !cb.uniform then NoCombiner
                          else if cb.combiner.None? then UnhashableChannel else NotAChannel)
  {
    var _ :- ValidatePattern(cb.base);
    var items := cb.base.items;
    var aggregator :-
      if cb.combiner.Some? then Ok(cb.combiner.value)
      else if !cb.uniform then Err(NoCombiner)
      else if !AllSingle(items) then Err(UnhashableChannel)
      else Ok(Pool(WithUniformWeights(ChannelsOf(items))));
    if !AllSingle(items) then Err(NotAChannel)
    else
      var container := Container(cb.base.name.value, ChannelsOf(items), aggregator);
      Ok(Built(cb.(combiner := Some(aggregator)), container))
  }

  /** Building again after a successful build gives the same container:
      the stored pool is reused. */
  lemma BuildAgainSameContainer(cb: CombinerBuilder)
    requires BuildCombiner(cb).Ok?
    ensures BuildCombiner(BuildCombiner(cb).value.builder).Ok?
    ensures BuildCombiner(BuildCombiner(cb).value.builder).value.container == BuildCombiner(cb).value.container
  {
  }

  /** A named builder given channels one by one and asked for uniform
      pooling builds the container with that name, those channels in that
      order, and the uniform pool over them. */
  lemma UniformBuildFromChannels(name: string, chs: seq<Channel>)
    requires name != "" && chs != []
    ensures BuildCombiner(CombinerBuilder(AddChannels(NewPatternBuilder(Some(name)), chs), None, true)).Ok?
    ensures BuildCombiner(CombinerBuilder(AddChannels(NewPatternBuilder(Some(name)), chs), None, true)).value.container
            == Container(name, chs, Pool(WithUniformWeights(chs)))
  {
    AddChannelsAppends(NewPatternBuilder(Some(name)), chs);
    var items := AddChannels(NewPatternBuilder(Some(name)), chs).items;
    assert items == Singles(chs);
    assert ChannelsOf(items) == chs;
  }

  /** A builder that used `add_n_channels` never builds. Without an
      explicit combiner the build raises for want of one, or because the
      uniform pool cannot key its dictionary by a list; with one, the model
      refuses the list entry at build time. */
  lemma GroupNeverBuilds(cb: CombinerBuilder, chs: seq<Channel>)
    ensures BuildCombiner(cb.(base := AddNChannels(cb.base, chs))).Err?
    ensures BuildCombiner(cb.(base := AddNChannels(cb.base, chs))).error ==
              if !Named(cb.base) then MissingPatternName
              else if cb.combiner.Some? then NotAChannel
              else if cb.uniform then UnhashableChannel
              else NoCombiner
  {
    var items := AddNChannels(cb.base, chs).items;
    assert !items[|items| - 1].Single?;
  }
}
