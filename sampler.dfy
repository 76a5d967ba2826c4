/** `FlowSampler`: deterministic 1-in-N flow sampling driven by a counter. */
module Sampling {
  import opened NetflowConfig
  import opened Arith

  /** The sampler's three counters. */
  datatype SamplerCounters = SamplerCounters(sampleCounter: int, totalFlows: int, sampledFlows: int)

  const ZERO: SamplerCounters := SamplerCounters(0, 0, 0)

  /** One call of `should_sample`: its verdict and the counters afterwards. */
  function Step(c: SamplerCounters, enabled: bool, rate: int): (bool, SamplerCounters) {
    if !enabled then (true, c)
    else
      var counter := c.sampleCounter + 1;
      if counter >= rate then (true, SamplerCounters(0, c.totalFlows + 1, c.sampledFlows + 1))
      else (false, SamplerCounters(counter, c.totalFlows + 1, c.sampledFlows))
  }

  /** What the counters satisfy at every point, having started at zero.
      With sampling disabled they never move; with a rate of at least one the
      counter is the remainder of the flows seen; with a rate below one every
      flow is sampled. */
  predicate Consistent(c: SamplerCounters, enabled: bool, rate: int) {
    if !enabled then c == ZERO
    else if rate >= 1 then
      0 <= c.sampleCounter < rate && 0 <= c.sampledFlows &&
      c.totalFlows == c.sampledFlows * rate + c.sampleCounter
    else c.sampleCounter == 0 && 0 <= c.sampledFlows == c.totalFlows
  }

  /** Starting from zero, the counters stay consistent. */
  lemma ZeroConsistent(enabled: bool, rate: int)
    ensures Consistent(ZERO, enabled, rate)
  {
  }

  /** A call of `should_sample` keeps the counters consistent. */
  lemma StepConsistent(c: SamplerCounters, enabled: bool, rate: int)
    requires Consistent(c, enabled, rate)
    ensures Consistent(Step(c, enabled, rate).1, enabled, rate)
  {
    if enabled && rate >= 1 && c.sampleCounter + 1 >= rate {
      assert (c.sampledFlows + 1) * rate == c.sampledFlows * rate + rate;
    }
  }

  /** With a rate of at least one, the sampled count is the number of flows
      seen divided by the rate and the counter is the remainder. */
  lemma ConsistentQuotient(c: SamplerCounters, rate: int)
    requires rate >= 1 && Consistent(c, true, rate)
    ensures c.sampledFlows == c.totalFlows / rate
    ensures c.sampleCounter == c.totalFlows % rate
  {
    DivModUnique(c.totalFlows, rate, c.sampledFlows, c.sampleCounter);
  }

  /** With a rate of at least one, a flow is sampled exactly when it is the
      rate-th, 2·rate-th, ... flow seen. */
  lemma StepVerdict(c: SamplerCounters, rate: int)
    requires rate >= 1 && Consistent(c, true, rate)
    ensures Step(c, true, rate).1.totalFlows == c.totalFlows + 1
    ensures Step(c, true, rate).0 <==> (c.totalFlows + 1) % rate == 0
  {
    StepConsistent(c, true, rate);
    ConsistentQuotient(Step(c, true, rate).1, rate);
  }

  /** The sampling loop of `send_flows`: the flows kept, in order, and the
      counters after one call per flow. */
  function Select<T>(flows: seq<T>, c: SamplerCounters, enabled: bool, rate: int): (seq<T>, SamplerCounters)
    decreases |flows|
  {
    if flows == [] then ([], c)
    else
      var (kept, before) := Select(flows[..|flows| - 1], c, enabled, rate);
      var (sampled, after) := Step(before, enabled, rate);
      (if sampled then kept + [flows[|flows| - 1]] else kept, after)
  }

  /** The flows whose position, counted from `seen` flows already observed,
      is a multiple of `rate`. */
  function EveryNth<T>(flows: seq<T>, seen: int, rate: int): seq<T>
    requires rate >= 1
    decreases |flows|
  {
    if flows == [] then []
    else
      var kept := EveryNth(flows[..|flows| - 1], seen, rate);
      if (seen + |flows|) % rate == 0 then kept + [flows[|flows| - 1]] else kept
  }

  /** With sampling disabled every flow is kept and no counter moves. */
  lemma {:induction false} SelectDisabled<T>(flows: seq<T>, c: SamplerCounters, rate: int)
    ensures Select(flows, c, false, rate) == (flows, c)
    decreases |flows|
  {
    if flows != [] {
      SelectDisabled(flows[..|flows| - 1], c, rate);
      assert flows[..|flows| - 1] + [flows[|flows| - 1]] == flows;
    }
  }

  /** With a rate of at least one, the loop keeps exactly every rate-th flow
      (counting all flows the sampler has seen), and the counters advance by
      the number of flows and stay consistent. */
  lemma {:induction false} SelectEveryNth<T>(flows: seq<T>, c: SamplerCounters, rate: int)
    requires rate >= 1 && Consistent(c, true, rate)
    ensures Select(flows, c, true, rate).0 == EveryNth(flows, c.totalFlows, rate)
    ensures Select(flows, c, true, rate).1.totalFlows == c.totalFlows + |flows|
    ensures Consistent(Select(flows, c, true, rate).1, true, rate)
    decreases |flows|
  {
    if flows != [] {
      var init := flows[..|flows| - 1];
      SelectEveryNth(init, c, rate);
      var before := Select(init, c, true, rate).1;
      StepVerdict(before, rate);
      StepConsistent(before, true, rate);
    }
  }

  /** How many flows of a batch are kept: the multiples of `rate` passed
      between `seen` and `seen + |flows|`. */
  lemma {:induction false} EveryNthCount<T>(flows: seq<T>, seen: int, rate: int)
    requires rate >= 1
    ensures |EveryNth(flows, seen, rate)| == (seen + |flows|) / rate - seen / rate
    decreases |flows|
  {
    if flows != [] {
      var n := seen + |flows|;
      EveryNthCount(flows[..|flows| - 1], seen, rate);
      DivModUnique(n - 1, rate, (n - 1) / rate, (n - 1) % rate);
      if (n - 1) % rate == rate - 1 {
        DivModUnique(n, rate, (n - 1) / rate + 1, 0);
      } else {
        DivModUnique(n, rate, (n - 1) / rate, (n - 1) % rate + 1);
      }
    }
  }

  class FlowSampler {
    const config: NetFlowConfig
    var sampleCounter: int
    var totalFlows: int
    var sampledFlows: int

    function Counters(): SamplerCounters
      reads this
    {
      SamplerCounters(sampleCounter, totalFlows, sampledFlows)
    }

    ghost predicate Valid()
      reads this
    {
      Consistent(Counters(), config.settings.enableSampling, config.settings.samplingRate)
    }

    constructor (config: NetFlowConfig)
      ensures this.config == config
      ensures Counters() == ZERO && Valid()
    {
      this.config := config;
      sampleCounter, totalFlows, sampledFlows := 0, 0, 0;
    }

    /** `should_sample`. Disabled sampling keeps every flow and touches no
        counter; otherwise the flow is counted and kept when the counter
        reaches the rate, which resets the counter. */
    method ShouldSample() returns (sampled: bool)
      requires Valid()
      modifies this
      ensures Valid()
      ensures (sampled, Counters()) ==
              Step(old(Counters()), config.settings.enableSampling, config.settings.samplingRate)
      ensures !config.settings.enableSampling ==> sampled && Counters() == old(Counters())
      ensures config.settings.enableSampling ==> totalFlows == old(totalFlows) + 1
      ensures config.settings.enableSampling && config.settings.samplingRate >= 1 ==>
                (sampled <==> totalFlows % config.settings.samplingRate == 0) &&
                sampledFlows == totalFlows / config.settings.samplingRate &&
                0 <= sampleCounter < config.settings.samplingRate
    {
      var enabled, rate := config.settings.enableSampling, config.settings.samplingRate;
      ghost var before := Counters();
      if !enabled {
        return true;
      }
      totalFlows := totalFlows + 1;
      sampleCounter := sampleCounter + 1;
      if sampleCounter >= rate {
        sampleCounter := 0;
        sampledFlows := sampledFlows + 1;
        sampled := true;
      } else {
        sampled := false;
      }
      StepConsistent(before, enabled, rate);
      if rate >= 1 {
        StepVerdict(before, rate);
        ConsistentQuotient(Counters(), rate);
      }
    }
  }
}
