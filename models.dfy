/** The per-cycle snapshot records of hotplots/models.py. Several of them
    (`HotPlot`, `HotPlotTargetDrive`, `TargetsInfo`, the `total_bytes`
    fields, `SourcePlot.plot_name_metadata()`) are used by
    hotplots/pairing_state.py without being defined in models.py; they are
    defined here from those uses. Byte counts are natural numbers. */
module Models {
  import opened Wrappers
  import opened Config
  import opened PlotNames

  /** A partially written hidden file on a target drive; its metadata is
      parsed when the snapshot is collected. */
  datatype InFlightTransfer = InFlightTransfer(filename: string, currentFileSize: nat, plotNameMetadata: PlotNameMetadata)

  datatype TargetDriveInfo = TargetDriveInfo(
    targetDriveConfig: TargetDriveConfig,
    totalBytes: nat,
    freeBytes: nat,
    inFlightTransfers: seq<InFlightTransfer>)

  datatype LocalTargetsInfo = LocalTargetsInfo(localHostConfig: LocalHost, targetDriveInfos: seq<TargetDriveInfo>)

  datatype RemoteHostInfo = RemoteHostInfo(remoteHostConfig: RemoteHost, targetDriveInfos: seq<TargetDriveInfo>)

  datatype RemoteTargetsInfo = RemoteTargetsInfo(remoteTargetConfig: RemoteTargetsConfig, remoteHostInfos: seq<RemoteHostInfo>)

  datatype TargetsInfo = TargetsInfo(
    targetsConfig: TargetsConfig,
    localTargetsInfo: LocalTargetsInfo,
    remoteTargetsInfo: RemoteTargetsInfo)

  /** A complete plot file on a source drive. */
  datatype SourcePlot = SourcePlot(absoluteReference: string, size: nat)
  {
    /** `plot_name_metadata()`: parsed from the path on every call. */
    function PlotNameMetadata(): Result<PlotNameMetadata, ParseError>
    {
      ParseFromFilename(absoluteReference)
    }
  }

  datatype SourceDriveInfo = SourceDriveInfo(
    sourceDriveConfig: SourceDriveConfig,
    totalBytes: nat,
    freeBytes: nat,
    sourcePlots: seq<SourcePlot>)

  datatype SourceInfo = SourceInfo(sourceConfig: SourceConfig, sourceDriveInfos: seq<SourceDriveInfo>)

  /** A source plot together with the drive it sits on. */
  datatype HotPlot = HotPlot(sourceDriveInfo: SourceDriveInfo, sourcePlot: SourcePlot)

  /** The key the pairing state files a target drive's counters under. */
  type DriveId = (HostConfig, TargetDriveConfig)

  /** A target drive together with the host it belongs to. */
  datatype HotPlotTargetDrive = HotPlotTargetDrive(hostConfig: HostConfig, targetDriveInfo: TargetDriveInfo)
  {
    function IsLocal(): bool
    {
      hostConfig.IsLocal()
    }

    function Id(): DriveId
    {
      (hostConfig, targetDriveInfo.targetDriveConfig)
    }
  }

  type Pairing = (HotPlot, HotPlotTargetDrive)
}
