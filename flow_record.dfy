/** Flow keys and flow records as the flow cache stores them. */
module FlowRecords {

  /** IPv4 addresses are carried as their 32-bit value. */
  type uint32 = x: int | 0 <= x < 0x1_0000_0000

  /** The 5-tuple `FlowKey` that identifies a flow in the cache. */
  datatype FlowKey = FlowKey(srcIp: uint32, dstIp: uint32, srcPort: int, dstPort: int, protocol: int)

  /** `flow_id`, which the source renders as "flow_<counter>_<unix seconds>". */
  datatype FlowId = FlowId(counter: nat, unixSecs: int)

  /** `FlowRecord`; timestamps are milliseconds since the epoch. */
  datatype FlowRecord = FlowRecord(
    srcIp: uint32,
    dstIp: uint32,
    srcPort: int,
    dstPort: int,
    protocol: int,
    packets: int,
    bytes: int,
    firstSwitched: int,
    lastSwitched: int,
    flowId: FlowId)
  {
    function Key(): FlowKey {
      FlowKey(srcIp, dstIp, srcPort, dstPort, protocol)
    }
  }

  /** The dictionary `to_dict` returns. */
  datatype FlowDict = FlowDict(
    srcIp: uint32,
    dstIp: uint32,
    srcPort: int,
    dstPort: int,
    protocol: int,
    packets: int,
    bytes: int,
    firstSwitched: int,
    lastSwitched: int,
    flowId: FlowId,
    durationMs: int)

  /** `to_dict`: every field of the record, plus the duration between the
      first and the last packet. */
  function ToDict(r: FlowRecord): (d: FlowDict)
    ensures d.srcIp == r.srcIp && d.dstIp == r.dstIp && d.srcPort == r.srcPort
    ensures d.dstPort == r.dstPort && d.protocol == r.protocol
    ensures d.packets == r.packets && d.bytes == r.bytes && d.flowId == r.flowId
    ensures d.firstSwitched == r.firstSwitched && d.lastSwitched == r.lastSwitched
    ensures d.firstSwitched + d.durationMs == d.lastSwitched
    ensures d.durationMs > 0 <==> r.lastSwitched > r.firstSwitched
  {
    FlowDict(r.srcIp, r.dstIp, r.srcPort, r.dstPort, r.protocol, r.packets, r.bytes,
             r.firstSwitched, r.lastSwitched, r.flowId, r.lastSwitched - r.firstSwitched)
  }
}
