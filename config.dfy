/** The frozen configuration records of hotplots/hotplots_config.py.
    Frozen dataclasses are immutable values compared field by field, which
    is what Dafny datatypes are; that is also what lets them serve as map
    keys in the pairing state. */
module Config {

  datatype LoggingFileConfig = LoggingFileConfig(enabled: bool := false, path: string := "hotplots.log")
  datatype LoggingStdoutConfig = LoggingStdoutConfig(enabled: bool := true)
  datatype LoggingConfig = LoggingConfig(
    level: string := "INFO",
    stdout: LoggingStdoutConfig := LoggingStdoutConfig(),
    file: LoggingFileConfig := LoggingFileConfig())

  /** The source `selection_strategy` values. `LeastAvailableSpace` is the
      configured default, "least_available_space", which no branch of the
      source ranking recognises; it also stands for any other string the
      ranking does not recognise, which behaves the same. */
  datatype SourceSelectionStrategy =
    | PlotWithOldestTimestamp
    | SourceDriveWithLeastSpaceRemaining
    | SourceDriveWithLowestPercentSpaceRemaining
    | SourceConfigOrder
    | SourceRandom
    | LeastAvailableSpace

  /** The targets `selection_strategy` values; `UnrecognizedTargetStrategy`
      stands for any other string, which the target ranking does not
      handle. */
  datatype TargetSelectionStrategy =
    | TargetConfigOrder
    | TargetDriveWithLeastSpaceRemaining
    | TargetDriveWithMostSpaceRemaining
    | TargetDriveWithLowestPercentSpaceRemaining
    | TargetDriveWithHighestPercentSpaceRemaining
    | TargetRandom
    | UnrecognizedTargetStrategy

  /** The `target_host_preference` values; `UnrecognizedPreference` stands
      for any other string, which the target ranking does not handle. */
  datatype HostPreference = Unspecified | PreferLocal | PreferRemote | UnrecognizedPreference

  datatype SourceDriveConfig = SourceDriveConfig(path: string, maxConcurrentOutboundTransfers: int := 1)

  datatype SourceConfig = SourceConfig(
    drives: seq<SourceDriveConfig>,
    checkSourceDrivesSleepSeconds: int := 60,
    selectionStrategy: SourceSelectionStrategy := LeastAvailableSpace)

  datatype PlotReplacementConfig = PlotReplacementConfig(
    enabled: bool := false,
    replacementType: string := "",
    value: string := "")

  datatype TargetDriveConfig = TargetDriveConfig(
    path: string,
    maxConcurrentInboundTransfers: int,
    plotReplacement: PlotReplacementConfig := PlotReplacementConfig())

  /** An inbound-transfer limit: the local host has none. */
  datatype Limit = Unbounded | AtMost(n: int)

  /** `LocalHostConfig` and `RemoteHostConfig` as one sum type. */
  datatype HostConfig =
    | LocalHostConfig(drives: seq<TargetDriveConfig>)
    | RemoteHostConfig(
        hostname: string,
        username: string,
        port: int,
        maxConcurrentInboundTransfers: int,
        drives: seq<TargetDriveConfig>,
        password: string := "")
  {
    function IsLocal(): (r: bool)
      ensures r <==> LocalHostConfig?
    {
      match this
      case LocalHostConfig(_) => true
      case RemoteHostConfig(_, _, _, _, _, _) => false
    }

    /** `max_concurrent_inbound_transfers`; unbounded for the local host. */
    function InboundLimit(): (r: Limit)
      ensures r.Unbounded? <==> IsLocal()
      ensures !IsLocal() ==> r == AtMost(maxConcurrentInboundTransfers)
    {
      if LocalHostConfig? then Unbounded else AtMost(maxConcurrentInboundTransfers)
    }
  }

  type LocalHost = h: HostConfig | h.LocalHostConfig? witness LocalHostConfig([])
  type RemoteHost = h: HostConfig | h.RemoteHostConfig? witness RemoteHostConfig("", "", 0, 0, [], "")

  datatype RemoteTargetsConfig = RemoteTargetsConfig(maxConcurrentOutboundTransfers: int, hosts: seq<RemoteHost>)

  datatype TargetsConfig = TargetsConfig(
    selectionStrategy: TargetSelectionStrategy,
    local: LocalHost,
    remote: RemoteTargetsConfig,
    targetHostPreference: HostPreference := PreferLocal)

  datatype HotplotsConfig = HotplotsConfig(logging: LoggingConfig, source: SourceConfig, targets: TargetsConfig)

  /** The defaults the dataclasses declare. */
  lemma ConfigDefaults(path: string, drives: seq<SourceDriveConfig>, limit: int, strategy: TargetSelectionStrategy,
                       local: LocalHost, remote: RemoteTargetsConfig)
    ensures SourceDriveConfig(path).maxConcurrentOutboundTransfers == 1
    ensures SourceConfig(drives).selectionStrategy == LeastAvailableSpace
    ensures SourceConfig(drives).checkSourceDrivesSleepSeconds == 60
    ensures TargetDriveConfig(path, limit).plotReplacement == PlotReplacementConfig(false, "", "")
    ensures TargetsConfig(strategy, local, remote).targetHostPreference == PreferLocal
  {
  }
}
