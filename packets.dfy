/** The byte layout of the export packets `create_template_packet` and
    `create_data_packet` build, as pure functions over `struct.pack`, with
    parsers that read the fields back. */
module Packets {
  import opened Wrappers
  import opened Struct
  import opened NetflowConfig
  import opened FlowRecords
  import opened Arith

  /** `!HHIIIII`: version, count, sys_uptime, unix_secs, sequence, source_id
      and a trailing zero word, 24 bytes in all. */
  const HEADER_FORMAT: seq<Code> := [H, H, I, I, I, I, I]
  const HEADER_LENGTH: nat := 24
  /** `!HH`, used for FlowSet headers, the template header and each field. */
  const PAIR_FORMAT: seq<Code> := [H, H]

  /** The template (and data FlowSet) id the exporter uses. */
  const TEMPLATE_ID: int := 256
  const TEMPLATE_FIELD_COUNT: int := 9
  /** FlowSet header, template header and nine fields of four bytes. */
  const TEMPLATE_FLOWSET_LENGTH: int := 4 + 4 + 9 * 4

  /** The information elements the template announces, in record order. */
  const TEMPLATE_FIELD_NAMES: seq<string> := [
    "IPV4_SRC_ADDR", "IPV4_DST_ADDR", "L4_SRC_PORT", "L4_DST_PORT", "PROTOCOL",
    "IN_PKTS", "IN_BYTES", "FIRST_SWITCHED", "LAST_SWITCHED"
  ]

  /** The (field type, field length) pairs of the template, in record order;
      each type is the `FIELD_TYPES` entry of the matching name
      (`TemplateFieldTypes`). */
  const TEMPLATE_FIELDS: seq<(int, int)> :=
    [(8, 4), (12, 4), (7, 2), (11, 2), (4, 1), (2, 4), (1, 4), (22, 4), (21, 4)]

  lemma {:induction false} TemplateFieldTypes()
    ensures |TEMPLATE_FIELD_NAMES| == |TEMPLATE_FIELDS|
    ensures forall i :: 0 <= i < |TEMPLATE_FIELDS| ==>
      TEMPLATE_FIELD_NAMES[i] in FIELD_TYPES && TEMPLATE_FIELDS[i].0 == FIELD_TYPES[TEMPLATE_FIELD_NAMES[i]]
  {
  }

  /** `!IIHHBIIII`: one data record. */
  const RECORD_FORMAT: seq<Code> := [I, I, H, H, B, I, I, I, I]
  const RECORD_LENGTH: int := 4 + 4 + 2 + 2 + 1 + 4 + 4 + 4 + 4

  /** The packet header fields, in wire order. */
  datatype Header = Header(
    version: int, count: int, sysUptime: int, unixSecs: int,
    sequence: int, sourceId: int, reserved: int)
  {
    function Values(): seq<int> {
      [version, count, sysUptime, unixSecs, sequence, sourceId, reserved]
    }
  }

  /** The header both packet builders write: `nowMs` is the wall clock in
      milliseconds, masked to 32 bits as `sys_uptime`, and `count` is always 1. */
  function ExportHeader(nowMs: int, unixSecs: int, sequence: int, sourceId: int): Header {
    Header(NETFLOW_VERSION, 1, nowMs % TWO_32, unixSecs, sequence, sourceId, 0)
  }

  /** The header fields that `struct.pack` can reject. */
  predicate HeaderFits(unixSecs: int, sequence: int, sourceId: int) {
    Fits(I, unixSecs) && Fits(I, sequence) && Fits(I, sourceId)
  }

  function PairRows(pairs: seq<(int, int)>): (rows: seq<seq<int>>)
    ensures |rows| == |pairs| && Rows(PAIR_FORMAT, rows)
  {
    seq(|pairs|, i requires 0 <= i < |pairs| => [pairs[i].0, pairs[i].1])
  }

  /** The record fields of one flow; the timestamps are masked to 32 bits. */
  function RecordValues(f: FlowRecord): seq<int> {
    [f.srcIp, f.dstIp, f.srcPort, f.dstPort, f.protocol, f.packets, f.bytes,
     f.firstSwitched % TWO_32, f.lastSwitched % TWO_32]
  }

  function RecordRows(flows: seq<FlowRecord>): (rows: seq<seq<int>>)
    ensures |rows| == |flows| && Rows(RECORD_FORMAT, rows)
  {
    seq(|flows|, i requires 0 <= i < |flows| => RecordValues(flows[i]))
  }

  /** The record fields that `struct.pack` can reject: masked timestamps and
      32-bit addresses always fit. */
  predicate RecordFits(f: FlowRecord) {
    Fits(H, f.srcPort) && Fits(H, f.dstPort) && Fits(B, f.protocol) &&
    Fits(I, f.packets) && Fits(I, f.bytes)
  }

  /** `create_template_packet`: header, template FlowSet header, template
      header and the nine field descriptions. */
  function TemplatePacket(nowMs: int, unixSecs: int, sequence: int, sourceId: int): Result<seq<byte>, PackError> {
    var header :- Pack(HEADER_FORMAT, ExportHeader(nowMs, unixSecs, sequence, sourceId).Values());
    var flowsetHeader :- Pack(PAIR_FORMAT, [TEMPLATE_FLOWSET_ID, TEMPLATE_FLOWSET_LENGTH]);
    var templateHeader :- Pack(PAIR_FORMAT, [TEMPLATE_ID, TEMPLATE_FIELD_COUNT]);
    var fieldData :- PackAll(PAIR_FORMAT, PairRows(TEMPLATE_FIELDS));
    Success(header + flowsetHeader + templateHeader + fieldData)
  }

  /** `create_data_packet`: nothing for no flows; otherwise header, data
      FlowSet header and one record per flow, with no padding. */
  function DataPacket(nowMs: int, unixSecs: int, sequence: int, sourceId: int, flows: seq<FlowRecord>): Result<seq<byte>, PackError> {
    if flows == [] then Success([])
    else
      var header :- Pack(HEADER_FORMAT, ExportHeader(nowMs, unixSecs, sequence, sourceId).Values());
      var flowsetHeader :- Pack(PAIR_FORMAT, [TEMPLATE_ID, 4 + |flows| * RECORD_LENGTH]);
      var records :- PackAll(RECORD_FORMAT, RecordRows(flows));
      Success(header + flowsetHeader + records)
  }

  // Sizes of the three formats, as `struct.calcsize` gives them.

  lemma {:induction false} HeaderSize()
    ensures FormatSize(HEADER_FORMAT) == HEADER_LENGTH
  {
  }

  lemma {:induction false} PairSize()
    ensures FormatSize(PAIR_FORMAT) == 4
  {
  }

  lemma {:induction false} RecordSize()
    ensures FormatSize(RECORD_FORMAT) == RECORD_LENGTH == 29
  {
  }

  // Parsers, as a collector reads the packets.

  function ParseHeader(b: seq<byte>): Header
    requires |b| == HEADER_LENGTH
  {
    HeaderSize();
    var v := Unpack(HEADER_FORMAT, b);
    Header(v[0], v[1], v[2], v[3], v[4], v[5], v[6])
  }

  datatype TemplateView = TemplateView(
    header: Header, flowsetId: int, flowsetLength: int,
    templateId: int, fieldCount: int, fields: seq<seq<int>>)

  datatype DataView = DataView(header: Header, flowsetId: int, flowsetLength: int, records: seq<seq<int>>)

  /** Reads a header, a FlowSet header, a template header and the field
      pairs that fill the rest of the buffer. */
  function ParseTemplatePacket(b: seq<byte>): Option<TemplateView> {
    if |b| < 32 then None
    else
      PairSize();
      var fields :- UnpackRows(PAIR_FORMAT, b[32..]);
      var flowset := Unpack(PAIR_FORMAT, b[24..28]);
      var template := Unpack(PAIR_FORMAT, b[28..32]);
      Some(TemplateView(ParseHeader(b[..24]), flowset[0], flowset[1], template[0], template[1], fields))
  }

  /** Reads a header, a FlowSet header and the 29-byte records that fill the
      rest of the buffer. */
  function ParseDataPacket(b: seq<byte>): Option<DataView> {
    if |b| < 28 then None
    else
      RecordSize();
      var records :- UnpackRows(RECORD_FORMAT, b[28..]);
      var flowset := Unpack(PAIR_FORMAT, b[24..28]);
      Some(DataView(ParseHeader(b[..24]), flowset[0], flowset[1], records))
  }

  // Properties of the layout.

  /** The template announces, field by field, the widths the data records
      are packed with, and its declared field count matches its contents. */
  lemma {:induction false} TemplateDescribesRecords()
    ensures |TEMPLATE_FIELDS| == |RECORD_FORMAT| == TEMPLATE_FIELD_COUNT
    ensures forall i :: 0 <= i < |TEMPLATE_FIELDS| ==> TEMPLATE_FIELDS[i].1 == Size(RECORD_FORMAT[i])
  {
  }

  /** Sum of the declared field lengths of a template. */
  function FieldLengths(fields: seq<(int, int)>): int {
    if fields == [] then 0 else fields[0].1 + FieldLengths(fields[1..])
  }

  /** Field lengths that agree one by one with a format add up to its size. */
  lemma {:induction false} FieldLengthsMatch(fields: seq<(int, int)>, fmt: seq<Code>)
    requires |fields| == |fmt|
    requires forall i :: 0 <= i < |fields| ==> fields[i].1 == Size(fmt[i])
    ensures FieldLengths(fields) == FormatSize(fmt)
  {
    if fields != [] {
      FieldLengthsMatch(fields[1..], fmt[1..]);
    }
  }

  /** The field lengths the template declares add up to the 29 bytes of a
      data record. */
  lemma {:induction false} TemplateRecordLength()
    ensures FieldLengths(TEMPLATE_FIELDS) == RECORD_LENGTH
  {
    TemplateDescribesRecords();
    FieldLengthsMatch(TEMPLATE_FIELDS, RECORD_FORMAT);
    RecordSize();
  }

  /** The template FlowSet length counts its own header, the template header
      and one pair per field. */
  lemma {:induction false} TemplateFlowsetLength()
    ensures TEMPLATE_FLOWSET_LENGTH == 4 + FormatSize(PAIR_FORMAT) * (1 + |TEMPLATE_FIELDS|)
  {
    PairSize();
    assert |TEMPLATE_FIELDS| == 9;
  }

  /** Pack's verdict on a header. */
  lemma {:induction false} HeaderPack(nowMs: int, unixSecs: int, sequence: int, sourceId: int)
    ensures var h := ExportHeader(nowMs, unixSecs, sequence, sourceId);
      (Pack(HEADER_FORMAT, h.Values()).Success? <==> HeaderFits(unixSecs, sequence, sourceId)) &&
      (Pack(HEADER_FORMAT, h.Values()).Success? ==>
        var b := Pack(HEADER_FORMAT, h.Values()).value;
        |b| == HEADER_LENGTH && ParseHeader(b) == h)
  {
    var h := ExportHeader(nowMs, unixSecs, sequence, sourceId);
    var v := h.Values();
    assert AllFit(HEADER_FORMAT, v) <==> HeaderFits(unixSecs, sequence, sourceId) by {
      if HeaderFits(unixSecs, sequence, sourceId) {
        forall i | 0 <= i < |HEADER_FORMAT|
          ensures Fits(HEADER_FORMAT[i], v[i])
        {
        }
      } else {
        assert !Fits(HEADER_FORMAT[3], v[3]) || !Fits(HEADER_FORMAT[4], v[4]) || !Fits(HEADER_FORMAT[5], v[5]);
      }
    }
    PackSucceedsIff(HEADER_FORMAT, v);
    if Pack(HEADER_FORMAT, v).Success? {
      PackRoundTrip(HEADER_FORMAT, v);
      HeaderSize();
      var b := Pack(HEADER_FORMAT, v).value;
      assert Unpack(HEADER_FORMAT, b) == v;
    }
  }

  /** A pair of 16-bit values packs to four bytes that read back. */
  lemma {:induction false} PairPack(x: int, y: int)
    requires Fits(H, x) && Fits(H, y)
    ensures Pack(PAIR_FORMAT, [x, y]).Success?
    ensures |Pack(PAIR_FORMAT, [x, y]).value| == 4
    ensures Unpack(PAIR_FORMAT, Pack(PAIR_FORMAT, [x, y]).value) == [x, y]
  {
    PackSucceedsIff(PAIR_FORMAT, [x, y]);
    PackRoundTrip(PAIR_FORMAT, [x, y]);
  }

  /** A record packs exactly when `RecordFits` holds. */
  lemma {:induction false} RecordPack(f: FlowRecord)
    ensures AllFit(RECORD_FORMAT, RecordValues(f)) <==> RecordFits(f)
  {
    var v := RecordValues(f);
    if RecordFits(f) {
      forall i | 0 <= i < |RECORD_FORMAT|
        ensures Fits(RECORD_FORMAT[i], v[i])
      {
      }
    } else {
      assert !Fits(RECORD_FORMAT[2], v[2]) || !Fits(RECORD_FORMAT[3], v[3]) ||
             !Fits(RECORD_FORMAT[4], v[4]) || !Fits(RECORD_FORMAT[5], v[5]) ||
             !Fits(RECORD_FORMAT[6], v[6]);
    }
  }

  /** The template packet is its four packed parts; only the header can
      fail to pack. */
  lemma {:induction false} TemplatePacketParts(nowMs: int, unixSecs: int, sequence: int, sourceId: int)
    ensures Pack(PAIR_FORMAT, [TEMPLATE_FLOWSET_ID, TEMPLATE_FLOWSET_LENGTH]).Success?
    ensures Pack(PAIR_FORMAT, [TEMPLATE_ID, TEMPLATE_FIELD_COUNT]).Success?
    ensures PackAll(PAIR_FORMAT, PairRows(TEMPLATE_FIELDS)).Success?
    ensures var hp := Pack(HEADER_FORMAT, ExportHeader(nowMs, unixSecs, sequence, sourceId).Values());
      (TemplatePacket(nowMs, unixSecs, sequence, sourceId).Success? <==> hp.Success?) &&
      (hp.Success? ==>
        (TemplatePacket(nowMs, unixSecs, sequence, sourceId).value ==
         hp.value +
         Pack(PAIR_FORMAT, [TEMPLATE_FLOWSET_ID, TEMPLATE_FLOWSET_LENGTH]).value +
         Pack(PAIR_FORMAT, [TEMPLATE_ID, TEMPLATE_FIELD_COUNT]).value +
         PackAll(PAIR_FORMAT, PairRows(TEMPLATE_FIELDS)).value))
  {
    PairPack(TEMPLATE_FLOWSET_ID, TEMPLATE_FLOWSET_LENGTH);
    PairPack(TEMPLATE_ID, TEMPLATE_FIELD_COUNT);
    var rows := PairRows(TEMPLATE_FIELDS);
    assert forall i :: 0 <= i < |rows| ==> AllFit(PAIR_FORMAT, rows[i]);
    PackAllSucceedsIff(PAIR_FORMAT, rows);
  }

  /** What the template parser reads from a buffer holding `n` field pairs. */
  lemma {:induction false} ParseTemplatePacketOf(b: seq<byte>, n: nat)
    requires |b| >= 32 && |b| - 32 == n * FormatSize(PAIR_FORMAT)
    ensures ParseTemplatePacket(b) == Some(TemplateView(
      ParseHeader(b[..24]), Unpack(PAIR_FORMAT, b[24..28])[0], Unpack(PAIR_FORMAT, b[24..28])[1],
      Unpack(PAIR_FORMAT, b[28..32])[0], Unpack(PAIR_FORMAT, b[28..32])[1],
      UnpackAll(PAIR_FORMAT, n, b[32..])))
  {
    PairSize();
    UnpackRowsOf(PAIR_FORMAT, n, b[32..]);
  }

  /** Parsing a header, a FlowSet header, a template header and field pairs
      laid end to end. */
  lemma {:induction false} ParseTemplateParts(h: seq<byte>, f: seq<byte>, t: seq<byte>, d: seq<byte>, view: TemplateView)
    requires |h| == HEADER_LENGTH && |f| == 4 && |t| == 4 && |d| == |view.fields| * FormatSize(PAIR_FORMAT)
    requires ParseHeader(h) == view.header
    requires Unpack(PAIR_FORMAT, f) == [view.flowsetId, view.flowsetLength]
    requires Unpack(PAIR_FORMAT, t) == [view.templateId, view.fieldCount]
    requires UnpackAll(PAIR_FORMAT, |view.fields|, d) == view.fields
    ensures ParseTemplatePacket(h + f + t + d) == Some(view)
  {
    var b := h + f + t + d;
    SplitFour(h, f, t, d);
    ParseTemplatePacketOf(b, |view.fields|);
  }

  /** A template packet is a 68-byte packet whose FlowSet length covers
      everything after the header and whose field count matches the fields
      that follow. */
  lemma {:induction false} TemplatePacketRoundTrip(nowMs: int, unixSecs: int, sequence: int, sourceId: int)
    requires TemplatePacket(nowMs, unixSecs, sequence, sourceId).Success?
    ensures var b := TemplatePacket(nowMs, unixSecs, sequence, sourceId).value;
      |b| == 68 &&
      ParseTemplatePacket(b) == Some(TemplateView(
        ExportHeader(nowMs, unixSecs, sequence, sourceId),
        TEMPLATE_FLOWSET_ID, |b| - HEADER_LENGTH,
        TEMPLATE_ID, |TEMPLATE_FIELDS|, PairRows(TEMPLATE_FIELDS)))
  {
    var header := ExportHeader(nowMs, unixSecs, sequence, sourceId);
    var rows := PairRows(TEMPLATE_FIELDS);
    TemplatePacketParts(nowMs, unixSecs, sequence, sourceId);
    var h := Pack(HEADER_FORMAT, header.Values()).value;
    var f := Pack(PAIR_FORMAT, [TEMPLATE_FLOWSET_ID, TEMPLATE_FLOWSET_LENGTH]).value;
    var t := Pack(PAIR_FORMAT, [TEMPLATE_ID, TEMPLATE_FIELD_COUNT]).value;
    var d := PackAll(PAIR_FORMAT, rows).value;
    assert |h| == HEADER_LENGTH && ParseHeader(h) == header by {
      HeaderPack(nowMs, unixSecs, sequence, sourceId);
    }
    assert |f| == 4 && Unpack(PAIR_FORMAT, f) == [TEMPLATE_FLOWSET_ID, TEMPLATE_FLOWSET_LENGTH] by {
      PairPack(TEMPLATE_FLOWSET_ID, TEMPLATE_FLOWSET_LENGTH);
    }
    assert |t| == 4 && Unpack(PAIR_FORMAT, t) == [TEMPLATE_ID, TEMPLATE_FIELD_COUNT] by {
      PairPack(TEMPLATE_ID, TEMPLATE_FIELD_COUNT);
    }
    assert |d| == |rows| * FormatSize(PAIR_FORMAT) && UnpackAll(PAIR_FORMAT, |rows|, d) == rows by {
      PackAllRoundTrip(PAIR_FORMAT, rows);
    }
    assert |d| == 36 by {
      PairSize();
    }
    var b := TemplatePacket(nowMs, unixSecs, sequence, sourceId).value;
    assert b == h + f + t + d;
    assert |b| == 68;
    var view := TemplateView(header, TEMPLATE_FLOWSET_ID, TEMPLATE_FLOWSET_LENGTH, TEMPLATE_ID, TEMPLATE_FIELD_COUNT, rows);
    ParseTemplateParts(h, f, t, d, view);
    assert ParseTemplatePacket(b) == Some(view);
  }

  /** `create_template_packet` raises only when a header word is out of
      range. */
  lemma {:induction false} TemplatePacketSucceedsIff(nowMs: int, unixSecs: int, sequence: int, sourceId: int)
    ensures TemplatePacket(nowMs, unixSecs, sequence, sourceId).Success? <==>
            HeaderFits(unixSecs, sequence, sourceId)
  {
    TemplatePacketParts(nowMs, unixSecs, sequence, sourceId);
    HeaderPack(nowMs, unixSecs, sequence, sourceId);
  }

  /** The most records one data FlowSet can declare in its 16-bit length. */
  const MAX_RECORDS: nat := 2259

  lemma {:induction false} FlowsetLengthFits(n: nat)
    ensures Fits(H, 4 + n * RECORD_LENGTH) <==> n <= MAX_RECORDS
  {
  }

  /** `create_data_packet` on a non-empty list raises exactly when a header
      word or a record field is out of range or there are too many records
      for the 16-bit FlowSet length. */
  lemma {:induction false} DataPacketSucceedsIff(nowMs: int, unixSecs: int, sequence: int, sourceId: int, flows: seq<FlowRecord>)
    requires flows != []
    ensures DataPacket(nowMs, unixSecs, sequence, sourceId, flows).Success? <==>
            HeaderFits(unixSecs, sequence, sourceId) && |flows| <= MAX_RECORDS &&
            forall i :: 0 <= i < |flows| ==> RecordFits(flows[i])
  {
    HeaderPack(nowMs, unixSecs, sequence, sourceId);
    FlowsetLengthFits(|flows|);
    PackSucceedsIff(PAIR_FORMAT, [TEMPLATE_ID, 4 + |flows| * RECORD_LENGTH]);
    var rows := RecordRows(flows);
    forall i | 0 <= i < |flows|
      ensures AllFit(RECORD_FORMAT, rows[i]) <==> RecordFits(flows[i])
    {
      RecordPack(flows[i]);
    }
    PackAllSucceedsIff(RECORD_FORMAT, rows);
  }

  /** What the data parser reads from a buffer holding `n` records. */
  lemma {:induction false} ParseDataPacketOf(b: seq<byte>, n: nat)
    requires |b| >= 28 && |b| - 28 == n * FormatSize(RECORD_FORMAT)
    ensures ParseDataPacket(b) == Some(DataView(
      ParseHeader(b[..24]), Unpack(PAIR_FORMAT, b[24..28])[0], Unpack(PAIR_FORMAT, b[24..28])[1],
      UnpackAll(RECORD_FORMAT, n, b[28..])))
  {
    RecordSize();
    UnpackRowsOf(RECORD_FORMAT, n, b[28..]);
  }

  /** Parsing a header, a FlowSet header and records laid end to end. */
  lemma {:induction false} ParseDataParts(h: seq<byte>, f: seq<byte>, d: seq<byte>, view: DataView)
    requires |h| == HEADER_LENGTH && |f| == 4 && |d| == |view.records| * RECORD_LENGTH
    requires ParseHeader(h) == view.header
    requires Unpack(PAIR_FORMAT, f) == [view.flowsetId, view.flowsetLength]
    requires UnpackAll(RECORD_FORMAT, |view.records|, d) == view.records
    ensures ParseDataPacket(h + f + d) == Some(view)
  {
    var b := h + f + d;
    SplitThree(h, f, d);
    RecordSize();
    ParseDataPacketOf(b, |view.records|);
  }

  /** A successful data packet is its three packed parts, each of which
      succeeded. */
  lemma {:induction false} DataPacketParts(nowMs: int, unixSecs: int, sequence: int, sourceId: int, flows: seq<FlowRecord>)
    requires flows != [] && DataPacket(nowMs, unixSecs, sequence, sourceId, flows).Success?
    ensures Pack(HEADER_FORMAT, ExportHeader(nowMs, unixSecs, sequence, sourceId).Values()).Success?
    ensures Pack(PAIR_FORMAT, [TEMPLATE_ID, 4 + |flows| * RECORD_LENGTH]).Success?
    ensures PackAll(RECORD_FORMAT, RecordRows(flows)).Success?
    ensures DataPacket(nowMs, unixSecs, sequence, sourceId, flows).value ==
      Pack(HEADER_FORMAT, ExportHeader(nowMs, unixSecs, sequence, sourceId).Values()).value +
      Pack(PAIR_FORMAT, [TEMPLATE_ID, 4 + |flows| * RECORD_LENGTH]).value +
      PackAll(RECORD_FORMAT, RecordRows(flows)).value
  {
  }

  /** A data packet is 24 bytes of header, four of FlowSet header and 29
      per record, with no padding. */
  lemma {:induction false} DataPacketLength(nowMs: int, unixSecs: int, sequence: int, sourceId: int, flows: seq<FlowRecord>)
    requires flows != [] && DataPacket(nowMs, unixSecs, sequence, sourceId, flows).Success?
    ensures |DataPacket(nowMs, unixSecs, sequence, sourceId, flows).value| == HEADER_LENGTH + 4 + |flows| * RECORD_LENGTH
  {
    var header := ExportHeader(nowMs, unixSecs, sequence, sourceId);
    var length := 4 + |flows| * RECORD_LENGTH;
    var rows := RecordRows(flows);
    DataPacketParts(nowMs, unixSecs, sequence, sourceId, flows);
    assert |Pack(HEADER_FORMAT, header.Values()).value| == HEADER_LENGTH by {
      HeaderPack(nowMs, unixSecs, sequence, sourceId);
    }
    assert |Pack(PAIR_FORMAT, [TEMPLATE_ID, length]).value| == 4 by {
      PackSucceedsIff(PAIR_FORMAT, [TEMPLATE_ID, length]);
      PairPack(TEMPLATE_ID, length);
    }
    assert |PackAll(RECORD_FORMAT, rows).value| == |rows| * RECORD_LENGTH by {
      PackAllLength(RECORD_FORMAT, rows);
      RecordSize();
    }
  }

  /** Each packed part of a data packet reads back as what was packed. */
  lemma {:induction false} DataPacketPieces(nowMs: int, unixSecs: int, sequence: int, sourceId: int, flows: seq<FlowRecord>)
    requires flows != [] && DataPacket(nowMs, unixSecs, sequence, sourceId, flows).Success?
    ensures Pack(HEADER_FORMAT, ExportHeader(nowMs, unixSecs, sequence, sourceId).Values()).Success?
    ensures Pack(PAIR_FORMAT, [TEMPLATE_ID, 4 + |flows| * RECORD_LENGTH]).Success?
    ensures PackAll(RECORD_FORMAT, RecordRows(flows)).Success?
    ensures var h := Pack(HEADER_FORMAT, ExportHeader(nowMs, unixSecs, sequence, sourceId).Values()).value;
      |h| == HEADER_LENGTH && ParseHeader(h) == ExportHeader(nowMs, unixSecs, sequence, sourceId)
    ensures var f := Pack(PAIR_FORMAT, [TEMPLATE_ID, 4 + |flows| * RECORD_LENGTH]).value;
      |f| == 4 && Unpack(PAIR_FORMAT, f) == [TEMPLATE_ID, 4 + |flows| * RECORD_LENGTH]
    ensures var d := PackAll(RECORD_FORMAT, RecordRows(flows)).value;
      |d| == |flows| * RECORD_LENGTH &&
      |d| == |flows| * FormatSize(RECORD_FORMAT) &&
      UnpackAll(RECORD_FORMAT, |flows|, d) == RecordRows(flows)
  {
    var length := 4 + |flows| * RECORD_LENGTH;
    var rows := RecordRows(flows);
    DataPacketParts(nowMs, unixSecs, sequence, sourceId, flows);
    HeaderPack(nowMs, unixSecs, sequence, sourceId);
    assert Fits(H, length) by {
      PackSucceedsIff(PAIR_FORMAT, [TEMPLATE_ID, length]);
    }
    PairPack(TEMPLATE_ID, length);
    PackAllRoundTrip(RECORD_FORMAT, rows);
    RecordSize();
  }

  /** A data packet reads back as the export header, a data FlowSet header
      declaring everything after the packet header, and one record per flow,
      in order. */
  lemma {:induction false} DataPacketRoundTrip(nowMs: int, unixSecs: int, sequence: int, sourceId: int, flows: seq<FlowRecord>)
    requires flows != [] && DataPacket(nowMs, unixSecs, sequence, sourceId, flows).Success?
    ensures var b := DataPacket(nowMs, unixSecs, sequence, sourceId, flows).value;
      ParseDataPacket(b) == Some(DataView(
        ExportHeader(nowMs, unixSecs, sequence, sourceId),
        TEMPLATE_ID, |b| - HEADER_LENGTH, RecordRows(flows)))
  {
    var header := ExportHeader(nowMs, unixSecs, sequence, sourceId);
    var length := 4 + |flows| * RECORD_LENGTH;
    var rows := RecordRows(flows);
    DataPacketParts(nowMs, unixSecs, sequence, sourceId, flows);
    DataPacketPieces(nowMs, unixSecs, sequence, sourceId, flows);
    var h := Pack(HEADER_FORMAT, header.Values()).value;
    var f := Pack(PAIR_FORMAT, [TEMPLATE_ID, length]).value;
    var d := PackAll(RECORD_FORMAT, rows).value;
    var b := DataPacket(nowMs, unixSecs, sequence, sourceId, flows).value;
    assert b == h + f + d;
    assert |b| - HEADER_LENGTH == length;
    ParseDataParts(h, f, d, DataView(header, TEMPLATE_ID, length, rows));
    assert ParseDataPacket(b) == Some(DataView(header, TEMPLATE_ID, length, rows));
  }

  lemma {:induction false} UnpaddedLength(n: nat)
    ensures (HEADER_LENGTH + 4 + n * RECORD_LENGTH) % 4 == n % 4
  {
    var q, r := n / 4, n % 4;
    assert n == q * 4 + r;
    assert HEADER_LENGTH + 4 + n * RECORD_LENGTH == (7 + 29 * q + 7 * r) * 4 + r;
    DivModUnique(HEADER_LENGTH + 4 + n * RECORD_LENGTH, 4, 7 + 29 * q + 7 * r, r);
  }

  /** The data packet is not padded to a four-byte boundary: its length is a
      multiple of four only when the number of records is. */
  lemma {:induction false} DataPacketUnpadded(nowMs: int, unixSecs: int, sequence: int, sourceId: int, flows: seq<FlowRecord>)
    requires flows != [] && DataPacket(nowMs, unixSecs, sequence, sourceId, flows).Success?
    ensures |DataPacket(nowMs, unixSecs, sequence, sourceId, flows).value| % 4 == 0 <==> |flows| % 4 == 0
  {
    DataPacketLength(nowMs, unixSecs, sequence, sourceId, flows);
    UnpaddedLength(|flows|);
  }
}
