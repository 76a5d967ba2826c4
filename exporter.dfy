/** `NetFlowV9Exporter`: builds template and data packets and decides, per
    batch of flows, whether a template goes first. The UDP socket is
    replaced by delivery flags, the clock by parameters. */
module Exporter {
  import opened Wrappers
  import opened Struct
  import opened NetflowConfig
  import opened FlowRecords
  import opened Packets
  import opened Sampling

  /** Exceptions that leave `send_flows`. */
  datatype Escape =
    | ZeroTemplateRefresh                 // `packets_sent % template_refresh` with a zero interval
    | TemplatePackFailed(error: PackError) // `struct.error` from `create_template_packet`

  /** What `send_flows` did with the sampled flows. */
  datatype SendOutcome =
    | NothingToSend                       // no flows, or none sampled
    | Raised(escape: Escape)
    | DataPackFailed(error: PackError)    // caught and logged
    | DataSendFailed(packet: seq<byte>)   // `sendto` failed; caught and logged
    | DataSent(packet: seq<byte>)

  /** The clock as one packet builder reads it: `int(time.time() * 1000)`
      for `sys_uptime` and `int(time.time())` for `unix_secs`, two separate
      readings. Each builder reads the clock afresh, so the template and the
      data packet of one batch carry readings of their own. */
  datatype Clock = Clock(nowMs: int, unixSecs: int)

  /** The exporter's counters. */
  datatype ExporterState = ExporterState(sequence: int, templateSent: bool, packetsSent: int)
  {
    /** Every data packet carries at least one record. */
    predicate Valid() {
      0 <= packetsSent <= sequence
    }
  }

  /** One call of `send_flows` after sampling: the template packet built
      (when one was due), the outcome, and the counters afterwards. */
  datatype SendStep = SendStep(template: Option<Result<seq<byte>, PackError>>, outcome: SendOutcome, after: ExporterState)

  /** Whether a template goes before the data: always until one has been
      delivered, then whenever the packet count is a multiple of the
      refresh interval (Python's `%` is zero exactly when Dafny's is). */
  function TemplateDue(s: ExporterState, refresh: int): Result<bool, Escape> {
    if !s.templateSent then Success(true)
    else if refresh == 0 then Failure(ZeroTemplateRefresh)
    else Success(s.packetsSent % refresh == 0)
  }

  /** `send_flows` from the sampled list on; `templateClock` and `dataClock`
      are the readings taken while building each packet. */
  function SendSampled(s: ExporterState, sampled: seq<FlowRecord>, templateClock: Clock, dataClock: Clock,
                       sourceId: int, refresh: int, templateDelivered: bool, dataDelivered: bool): SendStep
  {
    if sampled == [] then SendStep(None, NothingToSend, s)
    else match TemplateDue(s, refresh)
      case Failure(e) => SendStep(None, Raised(e), s)
      case Success(due) =>
        var template := if due then Some(TemplatePacket(templateClock.nowMs, templateClock.unixSecs, s.sequence, sourceId)) else None;
        if template.Some? && template.value.Failure? then
          SendStep(template, Raised(TemplatePackFailed(template.value.error)), s)
        else
          var s1 := if template.Some? && templateDelivered then s.(templateSent := true) else s;
          var data := DataPacket(dataClock.nowMs, dataClock.unixSecs, s.sequence, sourceId, sampled);
          if data.Failure? then SendStep(template, DataPackFailed(data.error), s1)
          else if !dataDelivered then SendStep(template, DataSendFailed(data.value), s1)
          else SendStep(template, DataSent(data.value),
                        s1.(sequence := s.sequence + |sampled|, packetsSent := s.packetsSent + 1))
  }

  /** The counters move only on a delivered data packet: the sequence by the
      number of records in it, the packet count by one. The template flag is
      set by a delivered template and never cleared. Nothing is sent exactly
      when nothing was sampled. */
  lemma SendSampledCounters(s: ExporterState, sampled: seq<FlowRecord>, templateClock: Clock, dataClock: Clock,
                            sourceId: int, refresh: int, templateDelivered: bool, dataDelivered: bool)
    requires s.Valid()
    ensures var step := SendSampled(s, sampled, templateClock, dataClock, sourceId, refresh, templateDelivered, dataDelivered);
      step.after.Valid() &&
      step.after.sequence == s.sequence + (if step.outcome.DataSent? then |sampled| else 0) &&
      step.after.packetsSent == s.packetsSent + (if step.outcome.DataSent? then 1 else 0) &&
      (step.after.templateSent <==>
        s.templateSent || (step.template.Some? && step.template.value.Success? && templateDelivered)) &&
      (step.outcome.NothingToSend? <==> sampled == [])
  {
  }

  /** Template schedule: with something to send, a template is built until
      one has been delivered and afterwards every `refresh` data packets; a
      zero interval raises once a template has been delivered. */
  lemma TemplateSchedule(s: ExporterState, sampled: seq<FlowRecord>, templateClock: Clock, dataClock: Clock,
                         sourceId: int, refresh: int, templateDelivered: bool, dataDelivered: bool)
    requires sampled != []
    ensures var step := SendSampled(s, sampled, templateClock, dataClock, sourceId, refresh, templateDelivered, dataDelivered);
      (step.outcome == Raised(ZeroTemplateRefresh) <==> s.templateSent && refresh == 0) &&
      (step.template.Some? <==> !s.templateSent || (refresh != 0 && s.packetsSent % refresh == 0)) &&
      (step.template.Some? ==> step.template.value == TemplatePacket(templateClock.nowMs, templateClock.unixSecs, s.sequence, sourceId))
  {
  }

  /** A delivered data packet is a valid packet for the template: it reads
      back as the header carrying the number of records exported before it,
      followed by the sampled flows in order. */
  lemma DataSentContents(s: ExporterState, sampled: seq<FlowRecord>, templateClock: Clock, dataClock: Clock,
                         sourceId: int, refresh: int, templateDelivered: bool, dataDelivered: bool)
    ensures var step := SendSampled(s, sampled, templateClock, dataClock, sourceId, refresh, templateDelivered, dataDelivered);
      step.outcome.DataSent? ==>
        var b := step.outcome.packet;
        dataDelivered && ParseDataPacket(b) == Some(DataView(
          ExportHeader(dataClock.nowMs, dataClock.unixSecs, s.sequence, sourceId),
          TEMPLATE_ID, |b| - HEADER_LENGTH, RecordRows(sampled)))
  {
    var step := SendSampled(s, sampled, templateClock, dataClock, sourceId, refresh, templateDelivered, dataDelivered);
    var data := DataPacket(dataClock.nowMs, dataClock.unixSecs, s.sequence, sourceId, sampled);
    if step.outcome.DataSent? {
      assert sampled != [] && data.Success? && step.outcome.packet == data.value && dataDelivered;
      DataPacketRoundTrip(dataClock.nowMs, dataClock.unixSecs, s.sequence, sourceId, sampled);
    }
  }

  /** The sequence number is never wrapped: once 2^32 records have been
      exported every data packet fails to pack. */
  lemma SequenceExhaustion(s: ExporterState, sampled: seq<FlowRecord>, templateClock: Clock, dataClock: Clock,
                           sourceId: int, refresh: int, templateDelivered: bool, dataDelivered: bool)
    requires s.sequence >= TWO_32
    ensures !SendSampled(s, sampled, templateClock, dataClock, sourceId, refresh, templateDelivered, dataDelivered).outcome.DataSent?
  {
    if sampled != [] {
      DataPacketSucceedsIff(dataClock.nowMs, dataClock.unixSecs, s.sequence, sourceId, sampled);
    }
  }

  class NetFlowV9Exporter {
    const config: NetFlowConfig
    const sampler: FlowSampler
    var sequence: int
    var templateSent: bool
    var packetsSent: int
    /** The flows of every data packet delivered so far. */
    ghost var exported: seq<FlowRecord>

    function State(): ExporterState
      reads this
    {
      ExporterState(sequence, templateSent, packetsSent)
    }

    /** The counters are consistent and the sequence number counts the
        records delivered so far. */
    ghost predicate CountersValid()
      reads this
    {
      State().Valid() && sequence == |exported|
    }

    ghost predicate Valid()
      reads this, sampler
    {
      sampler.Valid() && sampler.config == config && CountersValid()
    }

    constructor (config: NetFlowConfig)
      ensures this.config == config && fresh(sampler)
      ensures State() == ExporterState(0, false, 0) && exported == []
      ensures sampler.Counters() == ZERO && Valid()
    {
      this.config := config;
      sequence, templateSent, packetsSent := 0, false, 0;
      exported := [];
      sampler := new FlowSampler(config);
    }

    /** `create_template_packet`, with `nowMs` and `unixSecs` the clock
        readings. */
    method CreateTemplatePacket(nowMs: int, unixSecs: int) returns (r: Result<seq<byte>, PackError>)
      ensures r == TemplatePacket(nowMs, unixSecs, sequence, config.settings.sourceId)
    {
      var header :- Pack(HEADER_FORMAT, ExportHeader(nowMs, unixSecs, sequence, config.settings.sourceId).Values());
      var flowsetHeader :- Pack(PAIR_FORMAT, [TEMPLATE_FLOWSET_ID, TEMPLATE_FLOWSET_LENGTH]);
      var templateHeader :- Pack(PAIR_FORMAT, [TEMPLATE_ID, TEMPLATE_FIELD_COUNT]);
      ghost var rows := PairRows(TEMPLATE_FIELDS);
      var fieldData: seq<byte> := [];
      for i := 0 to |TEMPLATE_FIELDS|
        invariant PackAll(PAIR_FORMAT, rows[..i]) == Success(fieldData)
      {
        var field := TEMPLATE_FIELDS[i];
        var pair := Pack(PAIR_FORMAT, [field.0, field.1]);
        PackAllStep(PAIR_FORMAT, rows, i, fieldData);
        if pair.Failure? {
          return Failure(pair.error);
        }
        fieldData := fieldData + pair.value;
      }
      assert rows[..|TEMPLATE_FIELDS|] == rows;
      r := Success(header + flowsetHeader + templateHeader + fieldData);
    }

    /** `create_data_packet`, with the addresses already 32-bit values. */
    method CreateDataPacket(flows: seq<FlowRecord>, nowMs: int, unixSecs: int) returns (r: Result<seq<byte>, PackError>)
      ensures r == DataPacket(nowMs, unixSecs, sequence, config.settings.sourceId, flows)
    {
      if flows == [] {
        return Success([]);
      }
      var header :- Pack(HEADER_FORMAT, ExportHeader(nowMs, unixSecs, sequence, config.settings.sourceId).Values());
      var flowsetLength := 4 + |flows| * RECORD_LENGTH;
      var flowsetHeader :- Pack(PAIR_FORMAT, [TEMPLATE_ID, flowsetLength]);
      var recordsData :- PackRecords(flows);
      r := Success(header + flowsetHeader + recordsData);
    }

    /** The record loop of `create_data_packet`: one `!IIHHBIIII` record per
        flow, timestamps masked to 32 bits. */
    static method PackRecords(flows: seq<FlowRecord>) returns (r: Result<seq<byte>, PackError>)
      ensures r == PackAll(RECORD_FORMAT, RecordRows(flows))
    {
      ghost var rows := RecordRows(flows);
      var recordsData: seq<byte> := [];
      for i := 0 to |flows|
        invariant PackAll(RECORD_FORMAT, rows[..i]) == Success(recordsData)
      {
        var flow := flows[i];
        var firstSwitched := flow.firstSwitched % TWO_32;
        var lastSwitched := flow.lastSwitched % TWO_32;
        var record := Pack(RECORD_FORMAT, [flow.srcIp, flow.dstIp, flow.srcPort, flow.dstPort, flow.protocol,
                                           flow.packets, flow.bytes, firstSwitched, lastSwitched]);
        assert rows[i] == [flow.srcIp, flow.dstIp, flow.srcPort, flow.dstPort, flow.protocol,
                           flow.packets, flow.bytes, firstSwitched, lastSwitched];
        PackAllStep(RECORD_FORMAT, rows, i, recordsData);
        if record.Failure? {
          return Failure(record.error);
        }
        recordsData := recordsData + record.value;
      }
      assert rows[..|flows|] == rows;
      r := Success(recordsData);
    }

    /** `send_template`: a packing error propagates to the caller; a
        delivered packet marks the template as sent. */
    method SendTemplate(nowMs: int, unixSecs: int, delivered: bool) returns (r: Result<seq<byte>, PackError>)
      requires CountersValid()
      modifies this
      ensures CountersValid()
      ensures r == TemplatePacket(nowMs, unixSecs, sequence, config.settings.sourceId)
      ensures State() == old(State()).(templateSent := old(templateSent) || (r.Success? && delivered))
      ensures exported == old(exported)
    {
      r := CreateTemplatePacket(nowMs, unixSecs);
      if r.Failure? {
        return;
      }
      if delivered {
        templateSent := true;
      }
    }

    /** The sampling step of `send_flows`: the flows `should_sample`
        keeps, in order. */
    method SampleFlows(flows: seq<FlowRecord>) returns (sampled: seq<FlowRecord>)
      requires sampler.Valid() && sampler.config == config
      modifies sampler
      ensures sampler.Valid()
      ensures (sampled, sampler.Counters()) ==
              Select(flows, old(sampler.Counters()), config.settings.enableSampling, config.settings.samplingRate)
    {
      sampled := [];
      for i := 0 to |flows|
        invariant sampler.Valid()
        invariant (sampled, sampler.Counters()) ==
                  Select(flows[..i], old(sampler.Counters()), config.settings.enableSampling, config.settings.samplingRate)
      {
        assert flows[..i + 1][..i] == flows[..i];
        var keep := sampler.ShouldSample();
        if keep {
          sampled := sampled + [flows[i]];
        }
      }
      assert flows[..|flows|] == flows;
    }

    /** `send_flows`: samples the flows, sends a template when one is due
        and then the data packet of the sampled flows. `templateDelivered`
        and `dataDelivered` stand for the outcome of each `sendto`. */
    method SendFlows(flows: seq<FlowRecord>, templateClock: Clock, dataClock: Clock, templateDelivered: bool, dataDelivered: bool)
      returns (sampled: seq<FlowRecord>, template: Option<Result<seq<byte>, PackError>>, outcome: SendOutcome)
      requires Valid()
      modifies this, sampler
      ensures Valid()
      ensures (sampled, sampler.Counters()) ==
              Select(flows, old(sampler.Counters()), config.settings.enableSampling, config.settings.samplingRate)
      ensures SendStep(template, outcome, State()) ==
              SendSampled(old(State()), sampled, templateClock, dataClock, config.settings.sourceId,
                          config.settings.templateRefresh, templateDelivered, dataDelivered)
      ensures exported == old(exported) + (if outcome.DataSent? then sampled else [])
    {
      if flows == [] {
        return [], None, NothingToSend;
      }
      sampled := SampleFlows(flows);
      template, outcome := SendSampledFlows(sampled, templateClock, dataClock, templateDelivered, dataDelivered);
    }

    /** `send_flows` from the sampled list on. */
    method SendSampledFlows(sampled: seq<FlowRecord>, templateClock: Clock, dataClock: Clock, templateDelivered: bool, dataDelivered: bool)
      returns (template: Option<Result<seq<byte>, PackError>>, outcome: SendOutcome)
      requires CountersValid()
      modifies this
      ensures CountersValid()
      ensures SendStep(template, outcome, State()) ==
              SendSampled(old(State()), sampled, templateClock, dataClock, config.settings.sourceId,
                          config.settings.templateRefresh, templateDelivered, dataDelivered)
      ensures exported == old(exported) + (if outcome.DataSent? then sampled else [])
    {
      template := None;
      if sampled == [] {
        return template, NothingToSend;
      }
      var refresh := config.settings.templateRefresh;
      if templateSent && refresh == 0 {
        return template, Raised(ZeroTemplateRefresh);
      }
      if !templateSent || packetsSent % refresh == 0 {
        var t := SendTemplate(templateClock.nowMs, templateClock.unixSecs, templateDelivered);
        template := Some(t);
        if t.Failure? {
          return template, Raised(TemplatePackFailed(t.error));
        }
      }
      var data := CreateDataPacket(sampled, dataClock.nowMs, dataClock.unixSecs);
      if data.Failure? {
        return template, DataPackFailed(data.error);
      }
      if !dataDelivered {
        return template, DataSendFailed(data.value);
      }
      sequence := sequence + |sampled|;
      packetsSent := packetsSent + 1;
      exported := exported + sampled;
      outcome := DataSent(data.value);
    }
  }
}
