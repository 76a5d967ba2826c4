/** The simulator's configuration: the dataclass `NetFlowConfig`, its
    defaults, its `validate` checks, and the protocol and NetFlow v9
    constants shared by the exporter. */
module NetflowConfig {
  import opened Wrappers

  /** IP protocol numbers used by the generator. */
  const PROTOCOLS: map<string, int> := map["TCP" := 6, "UDP" := 17, "ICMP" := 1]

  const NETFLOW_VERSION: int := 9
  const TEMPLATE_FLOWSET_ID: int := 0
  /** Declared for data FlowSets; the exporter uses its own template id (also 256). */
  const DATA_FLOWSET_ID: int := 256

  /** Field type ids of section 8 of RFC 3954 for the nine exported fields. */
  const FIELD_TYPES: map<string, int> := map[
    "IPV4_SRC_ADDR" := 8,
    "IPV4_DST_ADDR" := 12,
    "L4_SRC_PORT" := 7,
    "L4_DST_PORT" := 11,
    "PROTOCOL" := 4,
    "IN_PKTS" := 2,
    "IN_BYTES" := 1,
    "FIRST_SWITCHED" := 22,
    "LAST_SWITCHED" := 21
  ]

  /** The scalar fields of the dataclass, each with its declared default.
      Timing values are milliseconds, timeouts seconds. */
  datatype Settings = Settings(
    collectorHost: string := "127.0.0.1",
    collectorPort: int := 2055,
    sourceId: int := 1,
    samplingRate: int := 10,
    enableSampling: bool := true,
    sessionsPerMinute: int := 80,
    packetsPerSecond: int := 200,
    activeTimeout: int := 300,
    inactiveTimeout: int := 15,
    templateRefresh: int := 20,
    maxFlowsPerPacket: int := 50,
    enableBidirectional: bool := true,
    realisticTiming: bool := true,
    variablePacketSizes: bool := true,
    enableFlowFragmentation: bool := true,
    minPacketDelay: int := 1,
    maxPacketDelay: int := 100,
    minFlowDuration: int := 1,
    maxSinglePacketDuration: int := 10,
    durationPerPacket: (int, int) := (10, 100),
    outputDir: string := "netflow_data",
    logFile: string := "netflow_simulator.log",
    saveFlows: bool := true,
    outputFormat: string := "jsonl",
    logLevel: string := "INFO",
    consoleLogging: bool := true,
    fileLogging: bool := true,
    batchSize: int := 300,
    memoryLimitMb: int := 512)

  const DEFAULT_INTERNAL_NETWORKS: seq<string> :=
    ["192.168.1.0/24", "10.0.0.0/24", "172.16.0.0/24", "192.168.100.0/24"]

  const DEFAULT_EXTERNAL_NETWORKS: seq<string> :=
    ["8.8.8.0/24", "1.1.1.0/24", "151.101.0.0/24", "104.244.42.0/24",
     "31.13.64.0/24", "13.107.42.0/24", "172.217.0.0/24", "52.84.0.0/24"]

  /** Application weights as (name, weight) pairs in dictionary order. */
  const DEFAULT_APPLICATION_WEIGHTS: seq<(string, real)> :=
    [("web", 0.45), ("video", 0.25), ("dns", 0.15), ("email", 0.10), ("file_transfer", 0.05)]

  function WeightTotal(weights: seq<(string, real)>): real {
    if weights == [] then 0.0 else weights[0].1 + WeightTotal(weights[1..])
  }

  function Abs(x: real): real {
    if x < 0.0 then -x else x
  }

  /** One error per failed check of `validate`. */
  datatype ConfigError =
    | SamplingRateBelowOne
    | ActiveTimeoutNotPositive
    | InactiveTimeoutNotPositive
    | WeightsDoNotSumToOne(total: real)
    | PacketDelayRangeInvalid
    | DurationPerPacketRangeInvalid
    | InvalidNetworks(reason: string)
    | UnknownOutputFormat
    | UnknownLogLevel
  {
    /** Position of the check that reports this error. */
    function Rank(): nat {
      match this
      case SamplingRateBelowOne => 0
      case ActiveTimeoutNotPositive => 1
      case InactiveTimeoutNotPositive => 2
      case WeightsDoNotSumToOne(_) => 3
      case PacketDelayRangeInvalid => 4
      case DurationPerPacketRangeInvalid => 5
      case InvalidNetworks(_) => 6
      case UnknownOutputFormat => 7
      case UnknownLogLevel => 8
    }

    /** The message text; the weight total is not rendered. */
    function Message(): string {
      match this
      case SamplingRateBelowOne => "Sampling rate must be >= 1"
      case ActiveTimeoutNotPositive => "Active timeout must be > 0"
      case InactiveTimeoutNotPositive => "Inactive timeout must be > 0"
      case WeightsDoNotSumToOne(_) => "Application weights must sum to 1.0, got "
      case PacketDelayRangeInvalid => "min_packet_delay must be < max_packet_delay"
      case DurationPerPacketRangeInvalid => "duration_per_packet range is invalid"
      case InvalidNetworks(reason) => "Invalid network configuration: " + reason
      case UnknownOutputFormat => "output_format must be 'jsonl' or 'csv'"
      case UnknownLogLevel => "log_level must be DEBUG, INFO, WARNING, or ERROR"
    }
  }

  /** Each error comes from a later check than the error before it, so the
      errors follow the order of the checks and none is repeated. */
  predicate InOrder(errors: seq<ConfigError>)
    decreases |errors|
  {
    |errors| <= 1 ||
    (InOrder(errors[..|errors| - 1]) && errors[|errors| - 2].Rank() < errors[|errors| - 1].Rank())
  }

  /** Every error in the list comes from a check numbered below `k`. */
  predicate Before(errors: seq<ConfigError>, k: nat) {
    errors == [] || errors[|errors| - 1].Rank() < k
  }

  /** The order in pairwise form: any earlier error has a smaller rank. */
  lemma {:induction false} InOrderPairwise(errors: seq<ConfigError>, i: nat, j: nat)
    requires InOrder(errors) && i < j < |errors|
    ensures errors[i].Rank() < errors[j].Rank()
    decreases |errors|
  {
    var init := errors[..|errors| - 1];
    if j < |errors| - 1 {
      InOrderPairwise(init, i, j);
    } else if i < j - 1 {
      InOrderPairwise(init, i, j - 1);
    }
  }

  /** Number of checks `validate` performs. */
  const CHECK_COUNT: nat := 9

  /** Check results in check order: an error at position `j` comes from
      check `j`. */
  predicate Ranked(results: seq<Option<ConfigError>>) {
    forall j :: 0 <= j < |results| ==> results[j].Some? ==> results[j].value.Rank() == j
  }

  /** The errors of the failed checks, appended one check after another. */
  function Collect(results: seq<Option<ConfigError>>): seq<ConfigError>
    decreases |results|
  {
    if results == [] then []
    else
      var errors := Collect(results[..|results| - 1]);
      match results[|results| - 1]
      case Some(e) => errors + [e]
      case None => errors
  }

  /** Collecting keeps the errors in check order, so none is repeated. */
  lemma {:induction false} CollectInOrder(results: seq<Option<ConfigError>>)
    requires Ranked(results)
    ensures InOrder(Collect(results)) && Before(Collect(results), |results|)
    decreases |results|
  {
    if results != [] {
      var init := results[..|results| - 1];
      assert Ranked(init) by {
        assert forall j :: 0 <= j < |init| ==> init[j] == results[j];
      }
      CollectInOrder(init);
      var errors := Collect(init);
      match results[|results| - 1]
      case Some(e) =>
        assert (errors + [e])[..|errors|] == errors;
      case None =>
    }
  }

  /** Collecting keeps the error of every failed check and nothing else. */
  lemma {:induction false} CollectMembers(results: seq<Option<ConfigError>>)
    ensures forall e :: e in Collect(results) <==> exists j :: 0 <= j < |results| && results[j] == Some(e)
    decreases |results|
  {
    if results != [] {
      var init := results[..|results| - 1];
      CollectMembers(init);
      assert forall j :: 0 <= j < |init| ==> init[j] == results[j];
    }
  }

  class NetFlowConfig {
    const settings: Settings
    var internalNetworks: Option<seq<string>>
    var externalNetworks: Option<seq<string>>
    var applicationWeights: Option<seq<(string, real)>>

    /** Dataclass construction, which ends by running `__post_init__`. */
    constructor (settings: Settings := Settings(),
                 internalNetworks: Option<seq<string>> := None,
                 externalNetworks: Option<seq<string>> := None,
                 applicationWeights: Option<seq<(string, real)>> := None)
      ensures this.settings == settings
      ensures this.internalNetworks == if internalNetworks.None? then Some(DEFAULT_INTERNAL_NETWORKS) else internalNetworks
      ensures this.externalNetworks == if externalNetworks.None? then Some(DEFAULT_EXTERNAL_NETWORKS) else externalNetworks
      ensures this.applicationWeights == if applicationWeights.None? then Some(DEFAULT_APPLICATION_WEIGHTS) else applicationWeights
    {
      this.settings := settings;
      this.internalNetworks := internalNetworks;
      this.externalNetworks := externalNetworks;
      this.applicationWeights := applicationWeights;
      new;
      PostInit();
    }

    /** `__post_init__`: fills in only the collections left as `None`. */
    method PostInit()
      modifies this
      ensures internalNetworks == if old(internalNetworks).None? then Some(DEFAULT_INTERNAL_NETWORKS) else old(internalNetworks)
      ensures externalNetworks == if old(externalNetworks).None? then Some(DEFAULT_EXTERNAL_NETWORKS) else old(externalNetworks)
      ensures applicationWeights == if old(applicationWeights).None? then Some(DEFAULT_APPLICATION_WEIGHTS) else old(applicationWeights)
    {
      if internalNetworks.None? {
        internalNetworks := Some(DEFAULT_INTERNAL_NETWORKS);
      }
      if externalNetworks.None? {
        externalNetworks := Some(DEFAULT_EXTERNAL_NETWORKS);
      }
      if applicationWeights.None? {
        applicationWeights := Some(DEFAULT_APPLICATION_WEIGHTS);
      }
    }

    /** True when the weight check runs and fails: it runs only for a
        non-empty dictionary. */
    predicate WeightsOff()
      reads this
    {
      applicationWeights.Some? && applicationWeights.value != [] &&
      Abs(WeightTotal(applicationWeights.value) - 1.0) > 0.01
    }

    /** Check `k` of `validate`, numbered in the order the checks are
        written: the error it appends, or `None` when it passes.
        `networkError` is the message of the exception the address parser
        raised, if any. */
    function Check(k: nat, networkError: Option<string>): (r: Option<ConfigError>)
      reads this
      requires k < CHECK_COUNT
      ensures r.Some? ==> r.value.Rank() == k
    {
      match k
      case 0 => if settings.samplingRate < 1 then Some(SamplingRateBelowOne) else None
      case 1 => if settings.activeTimeout <= 0 then Some(ActiveTimeoutNotPositive) else None
      case 2 => if settings.inactiveTimeout <= 0 then Some(InactiveTimeoutNotPositive) else None
      case 3 => if WeightsOff() then Some(WeightsDoNotSumToOne(WeightTotal(applicationWeights.value))) else None
      case 4 => if settings.minPacketDelay >= settings.maxPacketDelay then Some(PacketDelayRangeInvalid) else None
      case 5 => if settings.durationPerPacket.0 >= settings.durationPerPacket.1 then Some(DurationPerPacketRangeInvalid) else None
      case 6 => if networkError.Some? then Some(InvalidNetworks(networkError.value)) else None
      case 7 => if settings.outputFormat !in ["jsonl", "csv"] then Some(UnknownOutputFormat) else None
      case _ => if settings.logLevel !in ["DEBUG", "INFO", "WARNING", "ERROR"] then Some(UnknownLogLevel) else None
    }

    /** The outcome of every check, in check order. */
    function Checks(networkError: Option<string>): (results: seq<Option<ConfigError>>)
      reads this
      ensures |results| == CHECK_COUNT && Ranked(results)
    {
      [Check(0, networkError), Check(1, networkError), Check(2, networkError),
       Check(3, networkError), Check(4, networkError), Check(5, networkError),
       Check(6, networkError), Check(7, networkError), Check(8, networkError)]
    }

    /** `validate`: runs every check and returns the errors appended. */
    function Validate(networkError: Option<string>): seq<ConfigError>
      reads this
    {
      Collect(Checks(networkError))
    }

    /** `validate` never stops early: its errors are exactly those of the
        failed checks, in the order of the checks, so it is empty exactly
        when every check passes. */
    lemma ValidateSpec(networkError: Option<string>)
      ensures InOrder(Validate(networkError))
      ensures forall e :: e in Validate(networkError) <==>
                exists k :: 0 <= k < CHECK_COUNT && Check(k, networkError) == Some(e)
      ensures Validate(networkError) == [] <==>
                forall k :: 0 <= k < CHECK_COUNT ==> Check(k, networkError).None?
    {
      var results := Checks(networkError);
      CollectInOrder(results);
      CollectMembers(results);
      assert forall k :: 0 <= k < CHECK_COUNT ==> results[k] == Check(k, networkError);
      var errors := Validate(networkError);
      if errors != [] {
        assert errors[0] in errors;
      }
    }

    /** The error of check `k` is in the list exactly when check `k` fails. */
    lemma ReportedIff(networkError: Option<string>, k: nat, e: ConfigError)
      requires k < CHECK_COUNT && e.Rank() == k
      ensures e in Validate(networkError) <==> Check(k, networkError) == Some(e)
    {
      ValidateSpec(networkError);
      if Check(k, networkError) == Some(e) {
        assert exists j :: 0 <= j < CHECK_COUNT && Check(j, networkError) == Some(e);
      }
    }

    /** Each check with a fixed message reports its own condition,
        independently of the others. */
    lemma ValidateReportsEachCheck(networkError: Option<string>)
      ensures (SamplingRateBelowOne in Validate(networkError)) <==> settings.samplingRate < 1
      ensures (ActiveTimeoutNotPositive in Validate(networkError)) <==> settings.activeTimeout <= 0
      ensures (InactiveTimeoutNotPositive in Validate(networkError)) <==> settings.inactiveTimeout <= 0
      ensures (PacketDelayRangeInvalid in Validate(networkError)) <==> settings.minPacketDelay >= settings.maxPacketDelay
      ensures (DurationPerPacketRangeInvalid in Validate(networkError)) <==> settings.durationPerPacket.0 >= settings.durationPerPacket.1
      ensures (UnknownOutputFormat in Validate(networkError)) <==> settings.outputFormat !in ["jsonl", "csv"]
      ensures (UnknownLogLevel in Validate(networkError)) <==> settings.logLevel !in ["DEBUG", "INFO", "WARNING", "ERROR"]
    {
      ReportedIff(networkError, 0, SamplingRateBelowOne);
      ReportedIff(networkError, 1, ActiveTimeoutNotPositive);
      ReportedIff(networkError, 2, InactiveTimeoutNotPositive);
      ReportedIff(networkError, 4, PacketDelayRangeInvalid);
      ReportedIff(networkError, 5, DurationPerPacketRangeInvalid);
      ReportedIff(networkError, 7, UnknownOutputFormat);
      ReportedIff(networkError, 8, UnknownLogLevel);
    }

    /** The weight check and the network check report their own
        conditions, carrying the total and the parser's message. */
    lemma ValidateReportsWeightsAndNetworks(networkError: Option<string>)
      ensures (exists e :: e in Validate(networkError) && e.WeightsDoNotSumToOne?) <==> WeightsOff()
      ensures WeightsOff() ==> WeightsDoNotSumToOne(WeightTotal(applicationWeights.value)) in Validate(networkError)
      ensures (exists e :: e in Validate(networkError) && e.InvalidNetworks?) <==> networkError.Some?
      ensures networkError.Some? ==> InvalidNetworks(networkError.value) in Validate(networkError)
    {
      var errors := Validate(networkError);
      if WeightsOff() {
        ReportedIff(networkError, 3, WeightsDoNotSumToOne(WeightTotal(applicationWeights.value)));
      }
      if exists e :: e in errors && e.WeightsDoNotSumToOne? {
        var e :| e in errors && e.WeightsDoNotSumToOne?;
        ReportedIff(networkError, 3, e);
      }
      if networkError.Some? {
        ReportedIff(networkError, 6, InvalidNetworks(networkError.value));
      }
      if exists e :: e in errors && e.InvalidNetworks? {
        var e :| e in errors && e.InvalidNetworks?;
        ReportedIff(networkError, 6, e);
      }
    }
  }

  /** The module's self-test: a configuration built entirely from defaults
      validates with no error (given that the default network strings parse). */
  method DefaultConfigErrors() returns (errors: seq<ConfigError>)
    ensures errors == []
  {
    var config := new NetFlowConfig();
    config.ValidateSpec(None);
    errors := config.Validate(None);
  }
}
