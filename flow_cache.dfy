/** `FlowCache`: the table of active flows keyed by their 5-tuple, updated
    per packet and drained by timeout or at shutdown. */
module Cache {
  import opened Wrappers
  import opened NetflowConfig
  import opened FlowRecords

  function Max(a: int, b: int): int {
    if a >= b then a else b
  }

  /** Where the entry for `key` sits in the table, if anywhere. */
  function IndexOf(entries: seq<FlowRecord>, key: FlowKey): (r: Option<nat>)
    ensures r.Some? ==> r.value < |entries| && entries[r.value].Key() == key
    ensures r.Some? ==> forall j :: 0 <= j < r.value ==> entries[j].Key() != key
    ensures r.None? <==> forall j :: 0 <= j < |entries| ==> entries[j].Key() != key
  {
    if entries == [] then None
    else if entries[0].Key() == key then Some(0)
    else match IndexOf(entries[1..], key)
      case None => None
      case Some(j) => Some(j + 1)
  }

  // The table invariant: one entry per key, every entry seen at least once,
  // flow ids drawn from the counter and never repeated.

  predicate KeysDistinct(entries: seq<FlowRecord>) {
    forall i, j :: 0 <= i < j < |entries| ==> entries[i].Key() != entries[j].Key()
  }

  predicate IdsDistinct(entries: seq<FlowRecord>) {
    forall i, j :: 0 <= i < j < |entries| ==> entries[i].flowId.counter != entries[j].flowId.counter
  }

  predicate EntryOk(f: FlowRecord, counter: int) {
    f.packets >= 1 && 1 <= f.flowId.counter <= counter
  }

  predicate Table(entries: seq<FlowRecord>, counter: int) {
    KeysDistinct(entries) && IdsDistinct(entries) &&
    forall i :: 0 <= i < |entries| ==> EntryOk(entries[i], counter)
  }

  /** Appending an entry with a fresh key and a fresh id keeps the invariant. */
  lemma TableSnoc(entries: seq<FlowRecord>, f: FlowRecord, counter: int)
    requires Table(entries, counter) && EntryOk(f, counter)
    requires forall i :: 0 <= i < |entries| ==> entries[i].Key() != f.Key() && entries[i].flowId.counter != f.flowId.counter
    ensures Table(entries + [f], counter)
  {
  }

  /** The table invariant holds for any counter at least as large. */
  lemma TableGrow(entries: seq<FlowRecord>, counter: int, counter': int)
    requires Table(entries, counter) && counter <= counter'
    ensures Table(entries, counter')
  {
  }

  /** An existing flow seeing one more packet: counted, its bytes added, and
      its last timestamp moved to the later of the previous one plus the
      delay and the current time. */
  function Touch(f: FlowRecord, packetSize: int, delayMs: int, nowMs: int): (g: FlowRecord)
    ensures g.Key() == f.Key() && g.flowId == f.flowId && g.firstSwitched == f.firstSwitched
    ensures g.packets == f.packets + 1 && g.bytes == f.bytes + packetSize
    ensures g.lastSwitched >= f.lastSwitched + delayMs && g.lastSwitched >= nowMs
    ensures g.lastSwitched == f.lastSwitched + delayMs || g.lastSwitched == nowMs
  {
    f.(packets := f.packets + 1, bytes := f.bytes + packetSize,
       lastSwitched := Max(f.lastSwitched + delayMs, nowMs))
  }

  /** A new flow from its first packet. */
  function Open(key: FlowKey, packetSize: int, nowMs: int, durationMs: int, id: FlowId): FlowRecord {
    FlowRecord(key.srcIp, key.dstIp, key.srcPort, key.dstPort, key.protocol,
               1, packetSize, nowMs, nowMs + durationMs, id)
  }

  /** A `random.randint` draw within the range the repair of `f` uses. */
  predicate DrawFits(f: FlowRecord, d: int, s: Settings) {
    if f.packets == 1 then s.minFlowDuration <= d <= s.maxSinglePacketDuration
    else s.durationPerPacket.0 <= d <= s.durationPerPacket.1
  }

  /** A flow has timed out when its inactive or its active age, in seconds,
      reaches the configured timeout. The ages are millisecond differences
      divided by 1000 in floating point; comparing the undivided difference
      with 1000 times the timeout is the same test while both timeouts are
      below 2^43 seconds in magnitude. Beyond that a difference just short of
      the timeout can round up to it. */
  predicate Expired(f: FlowRecord, nowMs: int, s: Settings) {
    nowMs - f.lastSwitched >= 1000 * s.inactiveTimeout ||
    nowMs - f.firstSwitched >= 1000 * s.activeTimeout
  }

  /** The duration fix-up `get_expired_flows` applies before returning a
      flow: only a non-positive duration is changed, and the final check
      makes it at least `min_flow_duration`. */
  function RepairOnExpiry(f: FlowRecord, draw: int, s: Settings): (g: FlowRecord)
    ensures g == f.(lastSwitched := g.lastSwitched)
    ensures f.lastSwitched > f.firstSwitched ==> g == f
    ensures g.lastSwitched > g.firstSwitched || g.lastSwitched == g.firstSwitched + s.minFlowDuration
    ensures s.minFlowDuration >= 1 ==> g.lastSwitched > g.firstSwitched
  {
    var f1 :=
      if f.lastSwitched > f.firstSwitched then f
      else if f.packets == 1 then f.(lastSwitched := f.firstSwitched + draw)
      else f.(lastSwitched := f.firstSwitched + Max(s.minFlowDuration, (f.packets - 1) * draw));
    if f1.lastSwitched <= f1.firstSwitched then f1.(lastSwitched := f1.firstSwitched + s.minFlowDuration)
    else f1
  }

  /** The duration fix-up `get_all_flows` applies: a non-positive duration
      becomes at least `min_flow_duration`; there is no final check. */
  function RepairOnDrain(f: FlowRecord, draw: int, s: Settings): (g: FlowRecord)
    ensures g == f.(lastSwitched := g.lastSwitched)
    ensures f.lastSwitched > f.firstSwitched ==> g == f
    ensures f.lastSwitched <= f.firstSwitched ==> g.lastSwitched >= g.firstSwitched + s.minFlowDuration
  {
    if f.lastSwitched > f.firstSwitched then f
    else
      var duration := if f.packets == 1 then draw else (f.packets - 1) * draw;
      f.(lastSwitched := f.firstSwitched + Max(duration, s.minFlowDuration))
  }

  /** The entries that have timed out, in table order. */
  function ExpiredAmong(entries: seq<FlowRecord>, nowMs: int, s: Settings): seq<FlowRecord>
    decreases |entries|
  {
    if entries == [] then []
    else
      var rest := ExpiredAmong(entries[..|entries| - 1], nowMs, s);
      var f := entries[|entries| - 1];
      if Expired(f, nowMs, s) then rest + [f] else rest
  }

  /** The entries that have not timed out, in table order. */
  function KeptAmong(entries: seq<FlowRecord>, nowMs: int, s: Settings): seq<FlowRecord>
    decreases |entries|
  {
    if entries == [] then []
    else
      var rest := KeptAmong(entries[..|entries| - 1], nowMs, s);
      var f := entries[|entries| - 1];
      if Expired(f, nowMs, s) then rest else rest + [f]
  }

  /** Timing out splits the table in two: every entry goes to exactly one
      side, the expired side holds exactly the entries that reached a
      timeout, and the kept side exactly the others. */
  lemma {:induction false} ExpirePartition(entries: seq<FlowRecord>, nowMs: int, s: Settings)
    ensures multiset(ExpiredAmong(entries, nowMs, s)) + multiset(KeptAmong(entries, nowMs, s)) == multiset(entries)
    ensures forall f :: f in ExpiredAmong(entries, nowMs, s) <==> f in entries && Expired(f, nowMs, s)
    ensures forall f :: f in KeptAmong(entries, nowMs, s) <==> f in entries && !Expired(f, nowMs, s)
    decreases |entries|
  {
    if entries != [] {
      var init, f := entries[..|entries| - 1], entries[|entries| - 1];
      ExpirePartition(init, nowMs, s);
      assert entries == init + [f];
    }
  }

  /** Keeping a sub-list of a table keeps the table invariant. */
  lemma {:induction false} KeptTable(entries: seq<FlowRecord>, nowMs: int, s: Settings, counter: int)
    requires Table(entries, counter)
    ensures Table(KeptAmong(entries, nowMs, s), counter)
    decreases |entries|
  {
    if entries != [] {
      var init, f := entries[..|entries| - 1], entries[|entries| - 1];
      assert Table(init, counter);
      KeptTable(init, nowMs, s, counter);
      if !Expired(f, nowMs, s) {
        var kept := KeptAmong(init, nowMs, s);
        ExpirePartition(init, nowMs, s);
        forall i | 0 <= i < |kept|
          ensures kept[i].Key() != f.Key() && kept[i].flowId.counter != f.flowId.counter
        {
          assert kept[i] in init;
        }
        TableSnoc(kept, f, counter);
      }
    }
  }

  /** How one more entry of the table extends the two sides. */
  lemma ExpireStep(entries: seq<FlowRecord>, i: nat, nowMs: int, s: Settings)
    requires i < |entries|
    ensures var f := entries[i];
      if Expired(f, nowMs, s) then
        ExpiredAmong(entries[..i + 1], nowMs, s) == ExpiredAmong(entries[..i], nowMs, s) + [f] &&
        KeptAmong(entries[..i + 1], nowMs, s) == KeptAmong(entries[..i], nowMs, s)
      else
        ExpiredAmong(entries[..i + 1], nowMs, s) == ExpiredAmong(entries[..i], nowMs, s) &&
        KeptAmong(entries[..i + 1], nowMs, s) == KeptAmong(entries[..i], nowMs, s) + [f]
  {
    assert entries[..i + 1][..i] == entries[..i];
  }

  /** Removing the first entry of the unvisited part of the table. */
  lemma DropFirstOfRest(done: seq<FlowRecord>, rest: seq<FlowRecord>)
    requires rest != []
    ensures var e := done + rest; e[..|done|] + e[|done| + 1..] == done + rest[1..]
    ensures done + rest == (done + [rest[0]]) + rest[1..]
  {
    var e := done + rest;
    assert e[..|done|] == done;
    assert e[|done| + 1..] == rest[1..];
  }

  function RepairExpired(flows: seq<FlowRecord>, draws: FlowKey -> int, s: Settings): (r: seq<FlowRecord>)
    ensures |r| == |flows|
  {
    seq(|flows|, i requires 0 <= i < |flows| => RepairOnExpiry(flows[i], draws(flows[i].Key()), s))
  }

  function RepairDrained(flows: seq<FlowRecord>, draws: FlowKey -> int, s: Settings): (r: seq<FlowRecord>)
    ensures |r| == |flows|
  {
    seq(|flows|, i requires 0 <= i < |flows| => RepairOnDrain(flows[i], draws(flows[i].Key()), s))
  }

  lemma RepairExpiredSnoc(flows: seq<FlowRecord>, f: FlowRecord, draws: FlowKey -> int, s: Settings)
    ensures RepairExpired(flows + [f], draws, s) ==
            RepairExpired(flows, draws, s) + [RepairOnExpiry(f, draws(f.Key()), s)]
  {
    var l, r := RepairExpired(flows + [f], draws, s), RepairExpired(flows, draws, s) + [RepairOnExpiry(f, draws(f.Key()), s)];
    assert forall i :: 0 <= i < |flows| ==> (flows + [f])[i] == flows[i];
    assert |l| == |r|;
    assert forall i :: 0 <= i < |l| ==> l[i] == r[i];
  }

  /** With a positive `min_flow_duration`, every flow `get_expired_flows`
      returns reports a positive `duration_ms`. */
  lemma ExpiredDurationsPositive(entries: seq<FlowRecord>, nowMs: int, draws: FlowKey -> int, s: Settings)
    requires s.minFlowDuration >= 1
    ensures forall f :: f in RepairExpired(ExpiredAmong(entries, nowMs, s), draws, s) ==> ToDict(f).durationMs > 0
  {
    var expired := ExpiredAmong(entries, nowMs, s);
    var r := RepairExpired(expired, draws, s);
    forall f | f in r
      ensures ToDict(f).durationMs > 0
    {
      var i :| 0 <= i < |r| && r[i] == f;
      assert f == RepairOnExpiry(expired[i], draws(expired[i].Key()), s);
    }
  }

  /** With a positive `min_flow_duration`, every flow `get_all_flows`
      returns reports a positive `duration_ms`. */
  lemma DrainedDurationsPositive(entries: seq<FlowRecord>, draws: FlowKey -> int, s: Settings)
    requires s.minFlowDuration >= 1
    ensures forall f :: f in RepairDrained(entries, draws, s) ==> ToDict(f).durationMs > 0
  {
    var r := RepairDrained(entries, draws, s);
    forall f | f in r
      ensures ToDict(f).durationMs > 0
    {
      var i :| 0 <= i < |r| && r[i] == f;
      assert f == RepairOnDrain(entries[i], draws(entries[i].Key()), s);
    }
  }

  class FlowCache {
    const config: NetFlowConfig
    /** `self.flows`, in insertion order; the key of an entry is `Key()`. */
    var entries: seq<FlowRecord>
    var flowCounter: nat

    ghost predicate Valid()
      reads this
    {
      Table(entries, flowCounter)
    }

    constructor (config: NetFlowConfig)
      ensures this.config == config && entries == [] && flowCounter == 0 && Valid()
    {
      this.config := config;
      entries, flowCounter := [], 0;
    }

    /** `add_packet`. `draw` is the `random.randint` result: the delay for
        a known flow, the initial duration for a new one. A known flow is
        updated where it stands; a new one gets the next flow id and goes at
        the end. No other entry changes. */
    method AddPacket(key: FlowKey, packetSize: int, nowMs: int, unixSecs: int, draw: int)
      requires Valid()
      requires IndexOf(entries, key).Some? ==> config.settings.minPacketDelay <= draw <= config.settings.maxPacketDelay
      requires IndexOf(entries, key).None? ==> config.settings.minFlowDuration <= draw <= config.settings.maxSinglePacketDuration
      modifies this
      ensures Valid()
      ensures match IndexOf(old(entries), key)
        case Some(i) =>
          entries == old(entries)[i := Touch(old(entries)[i], packetSize, draw, nowMs)] &&
          flowCounter == old(flowCounter) &&
          entries[i].lastSwitched >= old(entries)[i].lastSwitched + config.settings.minPacketDelay
        case None =>
          flowCounter == old(flowCounter) + 1 &&
          entries == old(entries) + [Open(key, packetSize, nowMs, draw, FlowId(flowCounter, unixSecs))] &&
          entries[|entries| - 1].lastSwitched >= entries[|entries| - 1].firstSwitched + config.settings.minFlowDuration
    {
      var found := IndexOf(entries, key);
      if found.Some? {
        var i := found.value;
        var flow := entries[i];
        flow := flow.(packets := flow.packets + 1, bytes := flow.bytes + packetSize);
        var newLastSwitched := Max(flow.lastSwitched + draw, nowMs);
        flow := flow.(lastSwitched := newLastSwitched);
        entries := entries[i := flow];
        assert forall j :: 0 <= j < |entries| ==>
          entries[j].Key() == old(entries)[j].Key() && entries[j].flowId == old(entries)[j].flowId;
      } else {
        flowCounter := flowCounter + 1;
        var flowId := FlowId(flowCounter, unixSecs);
        var flow := Open(key, packetSize, nowMs, draw, flowId);
        TableGrow(entries, flowCounter - 1, flowCounter);
        TableSnoc(entries, flow, flowCounter);
        entries := entries + [flow];
      }
    }

    /** `get_expired_flows`: removes every entry that has timed out and
        returns them, repaired, in table order; the other entries stay as
        they were, in the same order. `draws` gives the `random.randint`
        result used for each flow whose duration needs repair. */
    method GetExpiredFlows(nowMs: int, draws: FlowKey -> int) returns (expired: seq<FlowRecord>)
      requires Valid()
      requires forall i :: 0 <= i < |entries| ==>
                 (Expired(entries[i], nowMs, config.settings) && entries[i].lastSwitched <= entries[i].firstSwitched ==>
                  DrawFits(entries[i], draws(entries[i].Key()), config.settings))
      modifies this
      ensures Valid()
      ensures expired == RepairExpired(ExpiredAmong(old(entries), nowMs, config.settings), draws, config.settings)
      ensures entries == KeptAmong(old(entries), nowMs, config.settings)
      ensures flowCounter == old(flowCounter)
    {
      KeptTable(entries, nowMs, config.settings, flowCounter);
      expired := RemoveExpired(nowMs, draws);
    }

    /** The loop of `get_expired_flows` over a snapshot of the table,
        deleting each timed-out entry as it is met. */
    method RemoveExpired(nowMs: int, draws: FlowKey -> int) returns (expired: seq<FlowRecord>)
      modifies this
      ensures expired == RepairExpired(ExpiredAmong(old(entries), nowMs, config.settings), draws, config.settings)
      ensures entries == KeptAmong(old(entries), nowMs, config.settings)
      ensures flowCounter == old(flowCounter)
    {
      var s := config.settings;
      var snapshot := entries;
      expired := [];
      var kept := 0;
      for i := 0 to |snapshot|
        invariant flowCounter == old(flowCounter)
        invariant entries == KeptAmong(snapshot[..i], nowMs, s) + snapshot[i..]
        invariant kept == |KeptAmong(snapshot[..i], nowMs, s)|
        invariant expired == RepairExpired(ExpiredAmong(snapshot[..i], nowMs, s), draws, s)
      {
        ExpireStep(snapshot, i, nowMs, s);
        assert snapshot[i..][0] == snapshot[i] && snapshot[i..][1..] == snapshot[i + 1..];
        DropFirstOfRest(KeptAmong(snapshot[..i], nowMs, s), snapshot[i..]);
        var flow := snapshot[i];
        var inactiveMs := nowMs - flow.lastSwitched;
        var activeMs := nowMs - flow.firstSwitched;
        if inactiveMs >= 1000 * s.inactiveTimeout || activeMs >= 1000 * s.activeTimeout {
          var repaired := RepairOnExpiry(flow, draws(flow.Key()), s);
          RepairExpiredSnoc(ExpiredAmong(snapshot[..i], nowMs, s), flow, draws, s);
          expired := expired + [repaired];
          entries := entries[..kept] + entries[kept + 1..];
        } else {
          kept := kept + 1;
        }
      }
      assert snapshot[..|snapshot|] == snapshot;
    }

    /** `get_all_flows`: returns every entry, in table order, with any
        non-positive duration repaired, and empties the table; the flow
        counter is kept. */
    method GetAllFlows(draws: FlowKey -> int) returns (flows: seq<FlowRecord>)
      requires Valid()
      requires forall i :: 0 <= i < |entries| ==>
                 (entries[i].lastSwitched <= entries[i].firstSwitched ==>
                  DrawFits(entries[i], draws(entries[i].Key()), config.settings))
      modifies this
      ensures Valid()
      ensures flows == RepairDrained(old(entries), draws, config.settings)
      ensures entries == [] && flowCounter == old(flowCounter)
    {
      var s := config.settings;
      flows := entries;
      for i := 0 to |flows|
        invariant |flows| == |entries|
        invariant forall j :: 0 <= j < i ==> flows[j] == RepairOnDrain(entries[j], draws(entries[j].Key()), s)
        invariant forall j :: i <= j < |flows| ==> flows[j] == entries[j]
      {
        var flow := flows[i];
        flows := flows[i := RepairOnDrain(flow, draws(flow.Key()), s)];
      }
      entries := [];
    }
  }
}
