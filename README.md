# NetFlow v9 traffic simulator — a Dafny model

This project models the core of the NetFlow v9 traffic simulator in
`server/netflow-simulation/`. That core has four parts:

- **Flow cache** (`FlowCache`). A table of active flows keyed by their
  5-tuple. `add_packet` updates it per packet. `get_expired_flows` drains it
  by timeout and `get_all_flows` drains it at shutdown.
- **1-in-N sampler** (`FlowSampler`). A counter state machine that keeps
  every N-th flow.
- **Exporter** (`NetFlowV9Exporter`). It builds the template and data
  export packets byte for byte with Python's `struct` module. Per batch of
  flows, `send_flows` decides whether a template goes first and keeps the
  `sequence`, `packets_sent` and `template_sent` counters.
- **Configuration** (`NetFlowConfig`). The dataclass defaults, the
  `__post_init__` fill-in of the three collection fields, the `validate`
  checks, and the protocol and NetFlow v9 constants.

The packets follow the code where it departs from RFC 3954:

- the header is seven words, 24 bytes;
- `count` is always 1;
- the data FlowSet is not padded;
- the sequence number counts records delivered, not packets;
- the sequence number is never wrapped at 2^32: once it leaves the 32-bit
  range every packet fails to pack (`Exporter.SequenceExhaustion`).

The files are:

| file | module | contents |
|---|---|---|
| `wrappers.dfy` | `Wrappers` | `Option` and `Result` |
| `arith.dfy` | `Arith` | small division lemmas |
| `struct_pack.dfy` | `Struct` | network-order `struct.pack` for the `B`, `H` and `I` codes, with `struct.error` as a `Failure` |
| `config.dfy` | `NetflowConfig` | constants, `Settings`, `NetFlowConfig`, `validate` |
| `flow_record.dfy` | `FlowRecords` | `FlowKey`, `FlowRecord`, `to_dict` |
| `sampler.dfy` | `Sampling` | `FlowSampler` |
| `packets.dfy` | `Packets` | the packet layouts as functions |
| `exporter.dfy` | `Exporter` | `NetFlowV9Exporter` |
| `flow_cache.dfy` | `Cache` | `FlowCache` |

Where the source mutates objects, the model uses classes:

- `FlowSampler`, `FlowCache`, `NetFlowV9Exporter` and `NetFlowConfig` are
  classes whose methods update their fields.
- Each method is proved against a specification function: `Step`/`Select`
  for the sampler; `ExpiredAmong`, `KeptAmong`, `RepairOnExpiry` and
  `RepairOnDrain` for the cache; `TemplatePacket`, `DataPacket` and
  `SendSampled` for the exporter.
- The properties of those functions are proved as lemmas.

The packet builders' accumulation loops are methods proved equal to the
packet functions.

The clock, `random.randint` and the outcome of each UDP `sendto` are
parameters:

- each packet builder reads the clock twice, for `sys_uptime` and for
  `unix_secs`. These are the two independent parameters `nowMs`
  (`int(time.time() * 1000)`) and `unixSecs` (`int(time.time())`);
- in `send_flows` the template and the data packet each get their own pair of
  readings (`templateClock` and `dataClock`);
- `draw`/`draws` are the `randint` results, required to lie in the range
  the source draws from;
- `templateDelivered`/`dataDelivered` say whether the send raised.

IPv4 addresses are carried as their 32-bit value.

Two definitions belong to the model, not the source:

- `ParseTemplatePacket` and `ParseDataPacket` read a packet the way a
  collector does. They exist to state what the built bytes contain.
- The template field type ids are written as numbers in `TEMPLATE_FIELDS`.
  `TemplateFieldTypes` proves each one is the `FIELD_TYPES` entry for its
  field name.

## Model

| member | source | states |
|---|---|---|
| Struct.Pack | server/netflow-simulation/script.py:335-337 | definition of `struct.pack` for network-order formats of `B`, `H` and `I`: the big-endian encodings of the values in turn, or an error for a value out of range; properties in `PackSucceedsIff`, `PackRoundTrip`, `UnpackRoundTrip` and `PackConcat` |
| Struct.PackAll | server/netflow-simulation/script.py:393-412 | definition of an accumulation loop `data += struct.pack(fmt, *row)` over rows; properties in `PackAllSucceedsIff`, `PackAllLength`, `PackAllRoundTrip`, `PackAllFailurePropagates` and `PackAllStep` |
| Struct.PackSucceedsIff | server/netflow-simulation/script.py:335-337 | `struct.pack` succeeds exactly when every value lies in the range of its code; on failure the error carries the position of the first value out of range (the position is the model's own; Python's `struct.error` names only the range) |
| Struct.PackRoundTrip | server/netflow-simulation/script.py:335-337 | a packed record is `calcsize` bytes long and unpacks to the values given |
| Struct.UnpackRoundTrip | server/netflow-simulation/script.py:335-337 | any byte string of the format's size unpacks to values that pack back to the same bytes |
| Struct.PackConcat | server/netflow-simulation/script.py:335-337 | a format packs iff each of two parts packs, and then to the bytes of the first part followed by those of the second |
| Struct.PackAllSucceedsIff | server/netflow-simulation/script.py:393-412 | packing a list of rows, each appended to the last, succeeds exactly when every row fits |
| Struct.PackAllLength | server/netflow-simulation/script.py:393-412 | the bytes of n packed rows are n times the format size |
| Struct.PackAllRoundTrip | server/netflow-simulation/script.py:393-412 | the packed rows read back as the same rows, in order |
| Struct.PackAllFailurePropagates | server/netflow-simulation/script.py:393-412 | once a prefix of the rows fails to pack, the whole accumulation fails with the same error |
| Struct.PackAllStep | server/netflow-simulation/script.py:361-363 | one more iteration of an accumulation loop extends the packed prefix by the next row, or fails with that row's error |
| NetflowConfig.NetFlowConfig.constructor | server/netflow-simulation/config.py:82-172 | keeps the scalar settings given and defaults exactly the collections passed as `None` |
| NetflowConfig.NetFlowConfig.PostInit | server/netflow-simulation/config.py:142-172 | replaces only `None` networks and weights with the built-in lists; supplied values stay unchanged |
| NetflowConfig.NetFlowConfig.Check | server/netflow-simulation/config.py:196-232 | check k can only report the error belonging to position k |
| NetflowConfig.NetFlowConfig.Checks | server/netflow-simulation/config.py:192-232 | nine check outcomes, each at its own position |
| NetflowConfig.CollectInOrder | server/netflow-simulation/config.py:194-234 | appending the errors check by check keeps them in check order without repeats |
| NetflowConfig.CollectMembers | server/netflow-simulation/config.py:194-234 | the appended list holds the error of every failed check and nothing else |
| NetflowConfig.InOrderPairwise | server/netflow-simulation/config.py:194-234 | in an ordered error list, any earlier error comes from an earlier check |
| NetflowConfig.NetFlowConfig.Validate | server/netflow-simulation/config.py:192-234 | definition of `validate`: the errors of the nine checks, appended in check order; properties in `ValidateSpec`, `ReportedIff`, `ValidateReportsEachCheck` and `ValidateReportsWeightsAndNetworks` |
| NetflowConfig.NetFlowConfig.ValidateSpec | server/netflow-simulation/config.py:192-234 | `validate` never stops early: its errors are exactly those of the failed checks, in check order, and the list is empty iff every check passes |
| NetflowConfig.NetFlowConfig.ReportedIff | server/netflow-simulation/config.py:192-234 | a check's error is in the list iff that check fails |
| NetflowConfig.NetFlowConfig.ValidateReportsEachCheck | server/netflow-simulation/config.py:196-232 | sampling rate below 1, each non-positive timeout, a bad delay range, a bad duration range, an unknown output format and an unknown log level each add their own error iff their condition holds, independently of the others |
| NetflowConfig.NetFlowConfig.ValidateReportsWeightsAndNetworks | server/netflow-simulation/config.py:206-224 | a weight error (carrying the total) is reported iff a non-empty weight table misses 1.0 by more than 0.01; a network error (carrying the parser's message) iff the parser raised |
| NetflowConfig.DefaultConfigErrors | server/netflow-simulation/config.py:334-344 | a configuration built entirely from defaults validates with no error, given that the default network strings parse (the parser's outcome is passed as no error) |
| FlowRecords.ToDict | server/netflow-simulation/script.py:53-72 | the dictionary carries every field of the record, and `duration_ms` is last minus first switched, positive iff the last packet is later than the first |
| Sampling.Step | server/netflow-simulation/script.py:219-232 | definition of one `should_sample` call on the three counters; properties in `StepConsistent`, `ConsistentQuotient` and `StepVerdict`; `FlowSampler.ShouldSample` is proved to compute it |
| Sampling.Select | server/netflow-simulation/script.py:431-435 | definition of the sampling loop of `send_flows`; properties in `SelectDisabled`, `SelectEveryNth` and `EveryNthCount`; `NetFlowV9Exporter.SampleFlows` is proved to compute it |
| Sampling.ZeroConsistent | server/netflow-simulation/script.py:213-217 | the initial zero counters satisfy the sampler invariant |
| Sampling.StepConsistent | server/netflow-simulation/script.py:219-232 | one `should_sample` call keeps the invariant: disabled counters stay zero; with a rate of at least 1 the counter stays in `[0, rate)` and `total == sampled * rate + counter` |
| Sampling.ConsistentQuotient | server/netflow-simulation/script.py:224-232 | under the invariant, `sampled_flows == total_flows / rate` and `sample_counter == total_flows % rate` |
| Sampling.StepVerdict | server/netflow-simulation/script.py:224-232 | with sampling on and a rate of at least 1, a call counts the flow and samples it iff the new total is a multiple of the rate |
| Sampling.SelectDisabled | server/netflow-simulation/script.py:431-435 | with sampling disabled the sampling loop keeps every flow and moves no counter |
| Sampling.SelectEveryNth | server/netflow-simulation/script.py:431-435 | with a rate of at least 1 the loop keeps exactly every rate-th flow seen since start, advances the total by the batch size and keeps the invariant |
| Sampling.EveryNthCount | server/netflow-simulation/script.py:431-435 | a batch keeps as many flows as there are multiples of the rate between the totals before and after it |
| Sampling.FlowSampler.constructor | server/netflow-simulation/script.py:213-217 | all three counters start at zero |
| Sampling.FlowSampler.ShouldSample | server/netflow-simulation/script.py:219-232 | disabled: returns true and changes no counter; enabled: counts the flow; with a rate of at least 1, samples iff the total is a multiple of the rate, keeps the counter in `[0, rate)` and `sampled == total / rate` |
| Packets.ExportHeader | server/netflow-simulation/script.py:327-337 | definition of the header words both builders pack; properties in `HeaderPack` |
| Packets.TemplatePacket | server/netflow-simulation/script.py:325-365 | definition of `create_template_packet`; properties in `TemplatePacketRoundTrip` and `TemplatePacketSucceedsIff`; `NetFlowV9Exporter.CreateTemplatePacket` is proved to compute it |
| Packets.DataPacket | server/netflow-simulation/script.py:367-414 | definition of `create_data_packet`; properties in `DataPacketLength`, `DataPacketRoundTrip`, `DataPacketSucceedsIff` and `DataPacketUnpadded`; `NetFlowV9Exporter.CreateDataPacket` is proved to compute it |
| Packets.TemplateFieldTypes | server/netflow-simulation/script.py:349-359 | each field type the template announces is the `FIELD_TYPES` id of its field name, in the listed order |
| Packets.HeaderSize | server/netflow-simulation/script.py:335-337 | the header format packs to 24 bytes |
| Packets.PairSize | server/netflow-simulation/script.py:343 | a `!HH` pair packs to 4 bytes |
| Packets.RecordSize | server/netflow-simulation/script.py:386 | the record format packs to `record_length`, 29 bytes |
| Packets.TemplateDescribesRecords | server/netflow-simulation/script.py:349-411 | the template lists nine fields, as its header declares, with the widths the records are packed with, field by field |
| Packets.TemplateRecordLength | server/netflow-simulation/script.py:349-387 | the declared field lengths add up to the 29-byte record length |
| Packets.TemplateFlowsetLength | server/netflow-simulation/script.py:339-346 | the declared template FlowSet length (44) counts its header, the template header and one pair per field |
| Packets.HeaderPack | server/netflow-simulation/script.py:327-337 | the header packs iff `unix_secs`, `sequence` and `source_id` fit 32 bits, and then reads back as version 9, count 1, the masked uptime, those words and a trailing 0 |
| Packets.PairPack | server/netflow-simulation/script.py:343-346 | two 16-bit values pack to 4 bytes that read back |
| Packets.RecordPack | server/netflow-simulation/script.py:396-411 | a record packs iff ports fit 16 bits, the protocol 8 bits and the counts 32 bits (addresses and masked timestamps always fit) |
| Packets.TemplatePacketRoundTrip | server/netflow-simulation/script.py:325-365 | a built template packet is 68 bytes and reads back as the header, FlowSet id 0 with a length equal to the bytes after the header, template 256 with 9 fields, and the nine (type, length) pairs in order |
| Packets.TemplatePacketSucceedsIff | server/netflow-simulation/script.py:325-365 | `create_template_packet` raises exactly when a header word is out of range |
| Packets.FlowsetLengthFits | server/netflow-simulation/script.py:386-389 | the 16-bit data FlowSet length holds at most 2259 records |
| Packets.DataPacketSucceedsIff | server/netflow-simulation/script.py:367-414 | for a non-empty list, `create_data_packet` raises exactly when a header word or a record field is out of range or there are more than 2259 records |
| Packets.DataPacketLength | server/netflow-simulation/script.py:367-414 | a built data packet is `24 + 4 + 29·n` bytes for n flows |
| Packets.DataPacketRoundTrip | server/netflow-simulation/script.py:367-414 | a built data packet reads back as the header, FlowSet id 256 with a length equal to the bytes after the header, and one record per flow in order, fields in template order, timestamps mod 2^32 |
| Packets.DataPacketUnpadded | server/netflow-simulation/script.py:386-389 | the data packet is a multiple of 4 bytes only when the flow count is, so the FlowSet is not padded |
| Exporter.TemplateDue | server/netflow-simulation/script.py:441 | definition of the template condition, with the `ZeroDivisionError` of a zero refresh; properties in `TemplateSchedule` |
| Exporter.SendSampled | server/netflow-simulation/script.py:437-453 | definition of `send_flows` from the sampled list on; properties in `SendSampledCounters`, `TemplateSchedule`, `DataSentContents` and `SequenceExhaustion`; `NetFlowV9Exporter.SendSampledFlows` is proved to compute it |
| Exporter.SendSampledCounters | server/netflow-simulation/script.py:437-453 | only a delivered data packet moves the counters: `sequence` by the number of sampled flows, `packets_sent` by one; only a delivered template sets `template_sent`, which is never cleared; nothing is sent iff nothing was sampled |
| Exporter.TemplateSchedule | server/netflow-simulation/script.py:440-442 | a template is built iff none was delivered yet or `packets_sent % template_refresh == 0`; a zero refresh raises once a template was delivered |
| Exporter.DataSentContents | server/netflow-simulation/script.py:444-449 | a delivered data packet reads back as a header carrying the records exported before it, followed by the sampled flows in order |
| Exporter.SequenceExhaustion | server/netflow-simulation/script.py:444-449 | the sequence is not wrapped: once 2^32 records have gone out, no data packet can be built again |
| Exporter.NetFlowV9Exporter.constructor | server/netflow-simulation/script.py:309-323 | sequence 0, no template sent, no packets sent, and a fresh sampler at zero |
| Exporter.NetFlowV9Exporter.CreateTemplatePacket | server/netflow-simulation/script.py:325-365 | the accumulation loop builds exactly the template packet |
| Exporter.NetFlowV9Exporter.CreateDataPacket | server/netflow-simulation/script.py:367-414 | builds exactly the data packet: no bytes for no flows, otherwise header, FlowSet header and records |
| Exporter.NetFlowV9Exporter.PackRecords | server/netflow-simulation/script.py:393-412 | the record loop packs every flow, in order, with timestamps masked to 32 bits, and fails at the first record out of range |
| Exporter.NetFlowV9Exporter.SendTemplate | server/netflow-simulation/script.py:416-424 | a packing error propagates; a delivered template sets `template_sent`; nothing else changes |
| Exporter.NetFlowV9Exporter.SampleFlows | server/netflow-simulation/script.py:431-435 | the flows kept and the sampler's counters are those of one `should_sample` call per flow, in order |
| Exporter.NetFlowV9Exporter.SendFlows | server/netflow-simulation/script.py:426-453 | samples the batch, then behaves as `SendSampled`; the records exported so far grow by the sampled flows exactly when the data packet was delivered |
| Exporter.NetFlowV9Exporter.SendSampledFlows | server/netflow-simulation/script.py:437-453 | from the sampled list on, the template decision, the packets and the new counters are those of `SendSampled`, and the sequence keeps counting the records exported |
| Cache.IndexOf | server/netflow-simulation/script.py:512 | finds the entry with the key if there is one, and reports none exactly when no entry has the key |
| Cache.Touch | server/netflow-simulation/script.py:514-521 | a known flow gains one packet and the packet's bytes; its key, id and first timestamp stay; its last timestamp becomes the later of the old one plus the delay and now |
| Cache.Open | server/netflow-simulation/script.py:523-537 | definition of a new flow from its first packet; properties in `FlowCache.AddPacket` |
| Cache.Expired | server/netflow-simulation/script.py:546-549 | definition of the timeout test; properties in `ExpirePartition` |
| Cache.ExpiredAmong | server/netflow-simulation/script.py:544-571 | definition of the timed-out entries in table order; properties in `ExpirePartition`; `FlowCache.RemoveExpired` is proved to return them |
| Cache.KeptAmong | server/netflow-simulation/script.py:544-571 | definition of the entries left behind, in table order; properties in `ExpirePartition` and `KeptTable`; `FlowCache.RemoveExpired` is proved to leave them |
| Cache.RepairExpired | server/netflow-simulation/script.py:549-570 | one repaired flow per expired flow, each with its own draw; properties in `ExpiredDurationsPositive` |
| Cache.RepairDrained | server/netflow-simulation/script.py:580-588 | one repaired flow per drained flow, each with its own draw; properties in `DrainedDurationsPositive` |
| Cache.RepairOnExpiry | server/netflow-simulation/script.py:551-568 | only the last timestamp changes, and only when the duration was not positive; afterwards the duration is positive or equal to `min_flow_duration` |
| Cache.RepairOnDrain | server/netflow-simulation/script.py:581-588 | only the last timestamp changes, and only when the duration was not positive; it then becomes at least `min_flow_duration` |
| Cache.ExpirePartition | server/netflow-simulation/script.py:544-571 | expired plus kept is the original table as a multiset; a flow expires iff its inactive or active age reaches its timeout |
| Cache.KeptTable | server/netflow-simulation/script.py:544-571 | the flows left behind keep the table invariant: distinct keys, distinct ids, at least one packet each |
| Cache.ExpiredDurationsPositive | server/netflow-simulation/script.py:539-573 | with `min_flow_duration >= 1`, every expired flow has a positive `duration_ms` |
| Cache.DrainedDurationsPositive | server/netflow-simulation/script.py:575-591 | with `min_flow_duration >= 1`, every drained flow has a positive `duration_ms` |
| Cache.FlowCache.constructor | server/netflow-simulation/script.py:501-504 | an empty table and a zero flow counter |
| Cache.FlowCache.AddPacket | server/netflow-simulation/script.py:506-537 | a known key: that entry alone is touched, so `last_switched` grows by at least `min_packet_delay`; a new key: the counter grows by one and a one-packet flow with the new id is appended, lasting at least `min_flow_duration`; the table invariant is kept |
| Cache.FlowCache.GetExpiredFlows | server/netflow-simulation/script.py:539-573 | returns the timed-out flows, repaired, in table order; leaves exactly the other entries, unchanged and in order; keeps the counter and the invariant |
| Cache.FlowCache.RemoveExpired | server/netflow-simulation/script.py:544-571 | the loop over a snapshot that deletes each timed-out entry as it meets it, repairing it with `RepairOnExpiry`, ends with the same result as the partition |
| Cache.FlowCache.GetAllFlows | server/netflow-simulation/script.py:575-591 | returns every entry in table order with non-positive durations repaired by `RepairOnDrain`, empties the table and keeps the counter |

## Left out

- `send_flows` storage and streaming: writing through `FlowDataStorage` and broadcasting through `FlowStreamer` are file and socket I/O with no effect on the counters.
- UDP `sendto`: each send is a delivery flag; socket errors, the address and logging are not modelled.
- Clock: the readings are unconstrained parameters. The model does not require `unixSecs` to be `nowMs / 1000`, nor a later reading to be no earlier than an earlier one.
- `random.randint` raises `ValueError` when its lower bound exceeds its upper bound. The methods that draw require the draw to lie in the range instead, so that error path is not modelled.
- `FlowRecord.__post_init__` defaults are not modelled: the cache always sets both timestamps itself.
- `first_packet_time` is a float with no effect on the cache, the packets or `to_dict`, so it is not modelled.
- `flow_id` is carried as its counter and its seconds, not as the rendered string.
- `FlowKey` is the 5-tuple with 32-bit addresses. Resolving dotted-quad strings with `socket.inet_aton` is a foreign call, so a malformed address string is not modelled.
- Network strings in `validate` are parsed by `ipaddress`, a foreign library. Its outcome is the `networkError` parameter.
- NetflowConfig.NetFlowConfig.ValidateReportsWeightsAndNetworks: the weight sum uses exact reals, not floats, so a sum within rounding error of the 0.01 tolerance may be judged differently. The message renders no total.
- `get_stats` and its float `actual_ratio` are left out. `ConsistentQuotient` states the integer relation the counters keep.
- `get_internal_networks`, `get_external_networks`, `get_application_profiles`, `to_dict`, `save_to_file` and `load_from_file` of the configuration are not part of this model.
- `DATA_FLOWSET_ID` is declared but unused: data FlowSets carry `template_id`, which is also 256.
- `self.flows` is a dictionary in insertion order, modelled as a sequence of records, each keyed by its own 5-tuple.
- Flow records are values, not shared objects. The source hands out the same objects it removed from the table and mutates them in the repair; nothing uses them in the table afterwards, so no aliasing is modelled.
- Timeout test: the source divides the ages by 1000 in floating point; the model compares the undivided millisecond ages with 1000 times the timeout. The two agree while both timeouts are below 2^43 seconds in magnitude; beyond that, float rounding is not modelled.
- `draws` gives one draw per key; the source draws once per repaired flow, and keys are distinct in the table.
- `RealisticTrafficGenerator`, `NetworkSession`, `main`, `setup_logging`, signal handlers, `parse_args`, `print_usage` and `simple_listener` are process plumbing and random traffic generation, not part of this model.
- `server/ioc_service.py` and `server/ioc_fetch/` are not part of this model.
