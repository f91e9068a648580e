/** What `PairingState.__init__` (hotplots/pairing_state.py) derives from
    a snapshot, stated as folds over the snapshot in the order the source's
    nested loops visit it, together with what each fold means. The class
    in pairing_state.dfy runs those loops and is proved to compute these
    values. */
module PairingSeeding {
  import opened Wrappers
  import opened Config
  import opened Constants
  import opened PlotNames
  import opened Models
  import opened Seqs
  import opened PairingQueries

  // ---------------------------------------------------------------------
  // The snapshot flattened in loop order

  /** One in-flight transfer with the host and drive it was found on. */
  datatype InFlightEntry = InFlightEntry(host: HostConfig, drive: TargetDriveConfig, transfer: InFlightTransfer)
  {
    function PlotId(): string
    {
      transfer.plotNameMetadata.plotId
    }

    function Target(): DriveId
    {
      (host, drive)
    }
  }

  function DriveEntries(host: HostConfig, info: TargetDriveInfo): seq<InFlightEntry>
  {
    seq(|info.inFlightTransfers|, i requires 0 <= i < |info.inFlightTransfers| =>
      InFlightEntry(host, info.targetDriveConfig, info.inFlightTransfers[i]))
  }

  /** The in-flight transfers of one host's drives, drive by drive. */
  function HostEntries(host: HostConfig, infos: seq<TargetDriveInfo>): seq<InFlightEntry>
    decreases |infos|
  {
    if |infos| == 0 then []
    else HostEntries(host, infos[..|infos| - 1]) + DriveEntries(host, infos[|infos| - 1])
  }

  function RemoteEntries(hosts: seq<RemoteHostInfo>): seq<InFlightEntry>
    decreases |hosts|
  {
    if |hosts| == 0 then []
    else
      var h := hosts[|hosts| - 1];
      RemoteEntries(hosts[..|hosts| - 1]) + HostEntries(h.remoteHostConfig, h.targetDriveInfos)
  }

  /** Local drives first, then every remote host's drives. */
  function AllEntries(ti: TargetsInfo): seq<InFlightEntry>
  {
    HostEntries(ti.localTargetsInfo.localHostConfig, ti.localTargetsInfo.targetDriveInfos)
      + RemoteEntries(ti.remoteTargetsInfo.remoteHostInfos)
  }

  function HostDrives(host: HostConfig, infos: seq<TargetDriveInfo>): seq<HotPlotTargetDrive>
  {
    seq(|infos|, i requires 0 <= i < |infos| => HotPlotTargetDrive(host, infos[i]))
  }

  function RemoteDrives(hosts: seq<RemoteHostInfo>): seq<HotPlotTargetDrive>
    decreases |hosts|
  {
    if |hosts| == 0 then []
    else
      var h := hosts[|hosts| - 1];
      RemoteDrives(hosts[..|hosts| - 1]) + HostDrives(h.remoteHostConfig, h.targetDriveInfos)
  }

  /** `__all_hot_plot_target_drives` after `__init__`. */
  function AllTargetDrives(ti: TargetsInfo): seq<HotPlotTargetDrive>
  {
    HostDrives(ti.localTargetsInfo.localHostConfig, ti.localTargetsInfo.targetDriveInfos)
      + RemoteDrives(ti.remoteTargetsInfo.remoteHostInfos)
  }

  function DrivePlots(info: SourceDriveInfo): seq<HotPlot>
  {
    seq(|info.sourcePlots|, i requires 0 <= i < |info.sourcePlots| => HotPlot(info, info.sourcePlots[i]))
  }

  /** Every source plot, drive by drive. */
  function AllHotPlots(infos: seq<SourceDriveInfo>): seq<HotPlot>
    decreases |infos|
  {
    if |infos| == 0 then []
    else AllHotPlots(infos[..|infos| - 1]) + DrivePlots(infos[|infos| - 1])
  }

  // ---------------------------------------------------------------------
  // What raises during `__init__`

  /** The k-size of the first in-flight transfer outside PLOT_BYTES_BY_K. */
  function FirstUnknownSize(es: seq<InFlightEntry>): (r: Option<int>)
    ensures r.None? <==> forall i :: 0 <= i < |es| ==> PlotBytesByK(es[i].transfer.plotNameMetadata.k).Some?
    decreases |es|
  {
    if |es| == 0 then None
    else if PlotBytesByK(es[0].transfer.plotNameMetadata.k).None? then Some(es[0].transfer.plotNameMetadata.k)
    else
      assert forall i :: 1 <= i < |es| ==> es[i] == es[1..][i - 1];
      FirstUnknownSize(es[1..])
  }

  /** The parse error of the first source plot whose name does not parse. */
  function FirstMalformedName(hps: seq<HotPlot>): (r: Option<ParseError>)
    ensures r.None? <==> forall i :: 0 <= i < |hps| ==> hps[i].sourcePlot.PlotNameMetadata().Success?
    decreases |hps|
  {
    if |hps| == 0 then None
    else if hps[0].sourcePlot.PlotNameMetadata().Failure? then Some(hps[0].sourcePlot.PlotNameMetadata().error)
    else
      assert forall i :: 1 <= i < |hps| ==> hps[i] == hps[1..][i - 1];
      FirstMalformedName(hps[1..])
  }

  /** What `__init__` raises: the target loops run first, so an unknown
      k-size of an in-flight transfer is reported before a malformed
      source plot name. */
  function SnapshotError(si: SourceInfo, ti: TargetsInfo): Option<PassError>
  {
    match FirstUnknownSize(AllEntries(ti))
    case Some(k) => Some(UnknownPlotSize(k))
    case None =>
      match FirstMalformedName(AllHotPlots(si.sourceDriveInfos))
      case Some(e) => Some(MalformedName(e))
      case None => None
  }

  // ---------------------------------------------------------------------
  // Seeding from the target drives

  /** `PLOT_BYTES_BY_K[k] - current_file_size`; only ever evaluated once
      `SnapshotError` has ruled out an unknown k. */
  function ExpectedRemainingBytes(t: InFlightTransfer): int
  {
    PlotBytesByK(t.plotNameMetadata.k).GetOr(0) - t.currentFileSize
  }

  /** The three maps the target loops fill in: `initial_transfers_map`
      (plot id to the drive it is being written to), the per-host transfer
      count and the per-drive committed bytes. */
  datatype TargetSeed = TargetSeed(
    initialTransfersMap: map<string, DriveId>,
    hostTransfers: map<HostConfig, int>,
    driveBytes: map<DriveId, int>)

  /** One iteration of the innermost target loop. */
  function TargetStep(s: TargetSeed, e: InFlightEntry): TargetSeed
  {
    TargetSeed(
      s.initialTransfersMap[e.PlotId() := e.Target()],
      Bump(s.hostTransfers, e.host, 1),
      Bump(s.driveBytes, e.Target(), ExpectedRemainingBytes(e.transfer)))
  }

  function SeedTargets(es: seq<InFlightEntry>): TargetSeed
  {
    FoldLeft(TargetStep, TargetSeed(map[], map[], map[]), es)
  }

  /** A plot id is mapped iff some in-flight transfer carries it. */
  lemma {:induction false} TransfersMapDomain(es: seq<InFlightEntry>, id: string)
    ensures id in SeedTargets(es).initialTransfersMap <==> exists i :: 0 <= i < |es| && es[i].PlotId() == id
    decreases |es|
  {
    if |es| > 0 {
      var init := es[..|es| - 1];
      TransfersMapDomain(init, id);
      assert forall i :: 0 <= i < |init| ==> init[i] == es[i];
      if exists i :: 0 <= i < |es| && es[i].PlotId() == id {
        var i :| 0 <= i < |es| && es[i].PlotId() == id;
        if i < |init| {
          assert init[i].PlotId() == id;
        }
      }
    }
  }

  /** A mapped plot id is mapped to the drive of the last transfer carrying
      it (a later transfer with the same id overwrites an earlier one). */
  lemma {:induction false} TransfersMapLastWriter(es: seq<InFlightEntry>, id: string)
    requires id in SeedTargets(es).initialTransfersMap
    ensures exists i :: 0 <= i < |es| && es[i].PlotId() == id
               && SeedTargets(es).initialTransfersMap[id] == es[i].Target()
               && forall j :: i < j < |es| ==> es[j].PlotId() != id
    decreases |es|
  {
    var init := es[..|es| - 1];
    var e := es[|es| - 1];
    var m0, m := SeedTargets(init).initialTransfersMap, SeedTargets(es).initialTransfersMap;
    assert m == m0[e.PlotId() := e.Target()];
    if e.PlotId() == id {
      assert es[|es| - 1].PlotId() == id && m[id] == es[|es| - 1].Target();
    } else {
      TransfersMapLastWriter(init, id);
      var i :| 0 <= i < |init| && init[i].PlotId() == id
             && m0[id] == init[i].Target()
             && forall j :: i < j < |init| ==> init[j].PlotId() != id;
      assert forall j :: i < j < |init| ==> init[j] == es[j];
      assert es[i].PlotId() == id && m[id] == es[i].Target();
    }
  }

  function OnHost(h: HostConfig): InFlightEntry -> bool
  {
    (e: InFlightEntry) => e.host == h
  }

  function OnDrive(d: DriveId): InFlightEntry -> bool
  {
    (e: InFlightEntry) => e.Target() == d
  }

  function TotalRemaining(es: seq<InFlightEntry>): int
    decreases |es|
  {
    if |es| == 0 then 0 else TotalRemaining(es[..|es| - 1]) + ExpectedRemainingBytes(es[|es| - 1].transfer)
  }

  /** A host's transfer count is the number of in-flight transfers found on
      its drives. */
  lemma {:induction false} HostTransfersMeaning(es: seq<InFlightEntry>, h: HostConfig)
    ensures Get(SeedTargets(es).hostTransfers, h) == |Filter(es, OnHost(h))|
    decreases |es|
  {
    if |es| > 0 {
      var init := es[..|es| - 1];
      var e := es[|es| - 1];
      HostTransfersMeaning(init, h);
      assert es == init + [e];
      FoldLeftSnoc(TargetStep, TargetSeed(map[], map[], map[]), init, e);
      FilterSnoc(init, e, OnHost(h));
    }
  }

  /** A drive's committed bytes are what its in-flight transfers still have
      to write. */
  lemma {:induction false} DriveBytesMeaning(es: seq<InFlightEntry>, d: DriveId)
    ensures Get(SeedTargets(es).driveBytes, d) == TotalRemaining(Filter(es, OnDrive(d)))
    decreases |es|
  {
    if |es| > 0 {
      var init := es[..|es| - 1];
      var e := es[|es| - 1];
      DriveBytesMeaning(init, d);
      assert es == init + [e];
      FoldLeftSnoc(TargetStep, TargetSeed(map[], map[], map[]), init, e);
      FilterSnoc(init, e, OnDrive(d));
      if e.Target() == d {
        TotalRemainingSnoc(Filter(init, OnDrive(d)), e);
      } else {
        assert Filter(es, OnDrive(d)) == Filter(init, OnDrive(d));
      }
    }
  }

  lemma TotalRemainingSnoc(es: seq<InFlightEntry>, e: InFlightEntry)
    ensures TotalRemaining(es + [e]) == TotalRemaining(es) + ExpectedRemainingBytes(e.transfer)
  {
    assert (es + [e])[..|es|] == es;
  }

  lemma {:induction false} HostDrivesLength(host: HostConfig, infos: seq<TargetDriveInfo>)
    ensures |HostEntries(host, infos)| == TransferCount(infos)
    ensures forall i :: 0 <= i < |HostEntries(host, infos)| ==> HostEntries(host, infos)[i].host == host
    decreases |infos|
  {
    if |infos| > 0 {
      HostDrivesLength(host, infos[..|infos| - 1]);
    }
  }

  /** The number of in-flight transfers on a list of drives. */
  function TransferCount(infos: seq<TargetDriveInfo>): nat
    decreases |infos|
  {
    if |infos| == 0 then 0 else TransferCount(infos[..|infos| - 1]) + |infos[|infos| - 1].inFlightTransfers|
  }

  lemma {:induction false} RemoteEntriesAreRemote(hosts: seq<RemoteHostInfo>)
    ensures forall i :: 0 <= i < |RemoteEntries(hosts)| ==> RemoteEntries(hosts)[i].host.RemoteHostConfig?
    decreases |hosts|
  {
    if |hosts| > 0 {
      var h := hosts[|hosts| - 1];
      RemoteEntriesAreRemote(hosts[..|hosts| - 1]);
      HostDrivesLength(h.remoteHostConfig, h.targetDriveInfos);
    }
  }

  /** After the target loops, the local host's transfer count is the number
      of in-flight transfers on the local drives: no remote host can share
      its counter. */
  lemma LocalHostTransfers(ti: TargetsInfo)
    ensures Get(SeedTargets(AllEntries(ti)).hostTransfers, ti.localTargetsInfo.localHostConfig)
         == TransferCount(ti.localTargetsInfo.targetDriveInfos)
  {
    var local := ti.localTargetsInfo.localHostConfig;
    var le := HostEntries(local, ti.localTargetsInfo.targetDriveInfos);
    var re := RemoteEntries(ti.remoteTargetsInfo.remoteHostInfos);
    HostTransfersMeaning(AllEntries(ti), local);
    FilterConcat(le, re, OnHost(local));
    HostDrivesLength(local, ti.localTargetsInfo.targetDriveInfos);
    FilterKeepsAll(le, OnHost(local));
    RemoteEntriesAreRemote(ti.remoteTargetsInfo.remoteHostInfos);
    FilterNone(re, OnHost(local));
  }

  // ---------------------------------------------------------------------
  // Seeding from the source plots

  /** The drive an already-started transfer of this plot is going to. */
  function MatchedTransfer(tm: map<string, DriveId>, hp: HotPlot): Option<DriveId>
  {
    match hp.sourcePlot.PlotNameMetadata()
    case Success(m) => if m.plotId in tm then Some(tm[m.plotId]) else None
    case Failure(_) => None
  }

  /** The two lists and three counters the source loop fills in. */
  datatype SourceSeed = SourceSeed(
    skipped: seq<HotPlot>,
    unprocessed: seq<HotPlot>,
    driveTransfers: map<SourceDriveConfig, int>,
    driveBytes: map<SourceDriveConfig, int>,
    totalRemote: int)

  /** One iteration of the inner source loop. */
  function SourceStep(tm: map<string, DriveId>, s: SourceSeed, hp: HotPlot): SourceSeed
  {
    match MatchedTransfer(tm, hp)
    case None => s.(unprocessed := s.unprocessed + [hp])
    case Some(target) =>
      SourceSeed(
        s.skipped + [hp],
        s.unprocessed,
        Bump(s.driveTransfers, SourceDriveOf(hp), 1),
        Bump(s.driveBytes, SourceDriveOf(hp), hp.sourcePlot.size),
        s.totalRemote + (if target.0.IsLocal() then 0 else 1))
  }

  function SourceStepper(tm: map<string, DriveId>): (SourceSeed, HotPlot) -> SourceSeed
  {
    (s: SourceSeed, hp: HotPlot) => SourceStep(tm, s, hp)
  }

  function SeedSources(tm: map<string, DriveId>, hps: seq<HotPlot>): SourceSeed
  {
    FoldLeft(SourceStepper(tm), SourceSeed([], [], map[], map[], 0), hps)
  }

  function IsSkipped(tm: map<string, DriveId>): HotPlot -> bool
  {
    (hp: HotPlot) => MatchedTransfer(tm, hp).Some?
  }

  function IsUnprocessed(tm: map<string, DriveId>): HotPlot -> bool
  {
    (hp: HotPlot) => MatchedTransfer(tm, hp).None?
  }

  function FromDrive(d: SourceDriveConfig): HotPlot -> bool
  {
    (hp: HotPlot) => SourceDriveOf(hp) == d
  }

  function MatchedRemote(tm: map<string, DriveId>): HotPlot -> bool
  {
    (hp: HotPlot) => MatchedTransfer(tm, hp).Some? && !MatchedTransfer(tm, hp).value.0.IsLocal()
  }

  function TotalSize(hps: seq<HotPlot>): int
    decreases |hps|
  {
    if |hps| == 0 then 0 else TotalSize(hps[..|hps| - 1]) + hps[|hps| - 1].sourcePlot.size
  }

  /** The source loop keeps the plots with a matching in-flight transfer as
      skipped and the rest as unprocessed, both in visiting order. */
  lemma {:induction false} SourceListsMeaning(tm: map<string, DriveId>, hps: seq<HotPlot>)
    ensures SeedSources(tm, hps).skipped == Filter(hps, IsSkipped(tm))
    ensures SeedSources(tm, hps).unprocessed == Filter(hps, IsUnprocessed(tm))
    decreases |hps|
  {
    if |hps| > 0 {
      var init := hps[..|hps| - 1];
      var hp := hps[|hps| - 1];
      SourceListsMeaning(tm, init);
      assert hps == init + [hp];
      FoldLeftSnoc(SourceStepper(tm), SourceSeed([], [], map[], map[], 0), init, hp);
      FilterSnoc(init, hp, IsSkipped(tm));
      FilterSnoc(init, hp, IsUnprocessed(tm));
    }
  }

  /** A source drive's transfer count is the number of its skipped plots. */
  lemma {:induction false} SourceTransfersMeaning(tm: map<string, DriveId>, hps: seq<HotPlot>, d: SourceDriveConfig)
    ensures var s := SeedSources(tm, hps);
            Get(s.driveTransfers, d) == |Filter(s.skipped, FromDrive(d))|
    decreases |hps|
  {
    if |hps| > 0 {
      SourceTransfersMeaning(tm, hps[..|hps| - 1], d);
      SeedSourcesSnoc(tm, hps);
      SourceStepTransfers(tm, SeedSources(tm, hps[..|hps| - 1]), hps[|hps| - 1], d);
    }
  }

  lemma SourceStepTransfers(tm: map<string, DriveId>, s0: SourceSeed, hp: HotPlot, d: SourceDriveConfig)
    ensures var s1 := SourceStep(tm, s0, hp);
      Get(s1.driveTransfers, d) - Get(s0.driveTransfers, d) == |Filter(s1.skipped, FromDrive(d))| - |Filter(s0.skipped, FromDrive(d))|
  {
    FilterSnoc(s0.skipped, hp, FromDrive(d));
  }

  /** A source drive's bytes in flight are the total size of its skipped
      plots. */
  lemma {:induction false} SourceBytesMeaning(tm: map<string, DriveId>, hps: seq<HotPlot>, d: SourceDriveConfig)
    ensures var s := SeedSources(tm, hps);
            Get(s.driveBytes, d) == TotalSize(Filter(s.skipped, FromDrive(d)))
    decreases |hps|
  {
    if |hps| > 0 {
      SourceBytesMeaning(tm, hps[..|hps| - 1], d);
      SeedSourcesSnoc(tm, hps);
      SourceStepBytes(tm, SeedSources(tm, hps[..|hps| - 1]), hps[|hps| - 1], d);
    }
  }

  lemma SeedSourcesSnoc(tm: map<string, DriveId>, hps: seq<HotPlot>)
    requires |hps| > 0
    ensures SeedSources(tm, hps) == SourceStep(tm, SeedSources(tm, hps[..|hps| - 1]), hps[|hps| - 1])
  {
    assert hps == hps[..|hps| - 1] + [hps[|hps| - 1]];
    FoldLeftSnoc(SourceStepper(tm), SourceSeed([], [], map[], map[], 0), hps[..|hps| - 1], hps[|hps| - 1]);
  }

  /** One source step adds to a drive's bytes what it adds to the total
      size of that drive's skipped plots. */
  lemma SourceStepBytes(tm: map<string, DriveId>, s0: SourceSeed, hp: HotPlot, d: SourceDriveConfig)
    ensures var s1 := SourceStep(tm, s0, hp);
      Get(s1.driveBytes, d) - Get(s0.driveBytes, d) == TotalSize(Filter(s1.skipped, FromDrive(d))) - TotalSize(Filter(s0.skipped, FromDrive(d)))
  {
    var s1 := SourceStep(tm, s0, hp);
    if MatchedTransfer(tm, hp).Some? {
      assert s1.skipped == s0.skipped + [hp];
      FilterSnoc(s0.skipped, hp, FromDrive(d));
      if SourceDriveOf(hp) == d {
        TotalSizeSnoc(Filter(s0.skipped, FromDrive(d)), hp);
      } else {
        assert Filter(s1.skipped, FromDrive(d)) == Filter(s0.skipped, FromDrive(d));
      }
    } else {
      assert s1.skipped == s0.skipped && s1.driveBytes == s0.driveBytes;
    }
  }

  lemma TotalSizeSnoc(hps: seq<HotPlot>, hp: HotPlot)
    ensures TotalSize(hps + [hp]) == TotalSize(hps) + hp.sourcePlot.size
  {
    assert (hps + [hp])[..|hps|] == hps;
  }

  /** The remote-outbound count is the number of skipped plots whose
      transfer goes to a remote host. */
  lemma {:induction false} SourceRemoteMeaning(tm: map<string, DriveId>, hps: seq<HotPlot>)
    ensures var s := SeedSources(tm, hps);
            s.totalRemote == |Filter(s.skipped, MatchedRemote(tm))|
    decreases |hps|
  {
    if |hps| > 0 {
      SourceRemoteMeaning(tm, hps[..|hps| - 1]);
      SeedSourcesSnoc(tm, hps);
      SourceStepRemote(tm, SeedSources(tm, hps[..|hps| - 1]), hps[|hps| - 1]);
    }
  }

  lemma SourceStepRemote(tm: map<string, DriveId>, s0: SourceSeed, hp: HotPlot)
    ensures var s1 := SourceStep(tm, s0, hp);
      s1.totalRemote - s0.totalRemote == |Filter(s1.skipped, MatchedRemote(tm))| - |Filter(s0.skipped, MatchedRemote(tm))|
  {
    FilterSnoc(s0.skipped, hp, MatchedRemote(tm));
  }

  /** Every source plot is either skipped or unprocessed, never both. */
  lemma SourcePartition(tm: map<string, DriveId>, hps: seq<HotPlot>)
    ensures var s := SeedSources(tm, hps);
      && multiset(s.skipped) + multiset(s.unprocessed) == multiset(hps)
      && forall hp :: hp in s.skipped ==> hp !in s.unprocessed
  {
    var s := SeedSources(tm, hps);
    SourceListsMeaning(tm, hps);
    PartitionPermutes(hps, IsSkipped(tm), IsUnprocessed(tm));
    forall hp | hp in s.skipped
      ensures hp !in s.unprocessed
    {
      FilterMembership(hps, IsSkipped(tm), hp);
      FilterMembership(hps, IsUnprocessed(tm), hp);
    }
  }

  /** A source plot whose name parses is skipped exactly when some in-flight
      transfer, on any local or remote target drive, carries its plot id. */
  lemma SkipRule(ti: TargetsInfo, hps: seq<HotPlot>, hp: HotPlot)
    requires hp.sourcePlot.PlotNameMetadata().Success?
    ensures var es := AllEntries(ti);
            var s := SeedSources(SeedTargets(es).initialTransfersMap, hps);
            hp in s.skipped <==>
              (hp in hps && exists i :: 0 <= i < |es| && es[i].PlotId() == hp.sourcePlot.PlotNameMetadata().value.plotId)
  {
    var tm := SeedTargets(AllEntries(ti)).initialTransfersMap;
    SourceListsMeaning(tm, hps);
    FilterMembership(hps, IsSkipped(tm), hp);
    TransfersMapDomain(AllEntries(ti), hp.sourcePlot.PlotNameMetadata().value.plotId);
  }

  // ---------------------------------------------------------------------
  // Config-order lookups

  /** A dict filled by `lookup[k] = i` for the i-th key in turn. */
  function IndexLookup<K>(ks: seq<K>): map<K, int>
    decreases |ks|
  {
    if |ks| == 0 then map[] else IndexLookup(ks[..|ks| - 1])[ks[|ks| - 1] := |ks| - 1]
  }

  /** Every key is present, numbered by its last position. */
  lemma {:induction false} IndexLookupMeaning<K>(ks: seq<K>, k: K)
    ensures k in IndexLookup(ks) <==> k in ks
    ensures k in ks ==>
      var i := IndexLookup(ks)[k];
      0 <= i < |ks| && ks[i] == k && forall j :: i < j < |ks| ==> ks[j] != k
    decreases |ks|
  {
    if |ks| > 0 {
      var init := ks[..|ks| - 1];
      IndexLookupMeaning(init, k);
      assert ks == init + [ks[|ks| - 1]];
    }
  }

  /** With no repeated keys, each key is numbered by its position. */
  lemma IndexLookupOfDistinct<K>(ks: seq<K>, i: int)
    requires forall a, b :: 0 <= a < b < |ks| ==> ks[a] != ks[b]
    requires 0 <= i < |ks|
    ensures ks[i] in IndexLookup(ks) && IndexLookup(ks)[ks[i]] == i
  {
    IndexLookupMeaning(ks, ks[i]);
  }

  function RemoteConfigDrives(hosts: seq<RemoteHost>): seq<TargetDriveConfig>
    decreases |hosts|
  {
    if |hosts| == 0 then [] else RemoteConfigDrives(hosts[..|hosts| - 1]) + hosts[|hosts| - 1].drives
  }

  /** The target drives in config order: local drives, then every remote
      host's drives host by host. */
  function TargetOrderConfigs(ti: TargetsInfo): seq<TargetDriveConfig>
  {
    ti.localTargetsInfo.localHostConfig.drives + RemoteConfigDrives(ti.remoteTargetsInfo.remoteTargetConfig.hosts)
  }

  /** With no repeated drive configs, local drives are numbered 0..n-1 and
      the remote drives n, n+1, ... in host order. */
  lemma TargetConfigOrderNumbering(ti: TargetsInfo, i: int)
    requires var ks := TargetOrderConfigs(ti); forall a, b :: 0 <= a < b < |ks| ==> ks[a] != ks[b]
    ensures var local := ti.localTargetsInfo.localHostConfig.drives;
            var lookup := IndexLookup(TargetOrderConfigs(ti));
            0 <= i < |local| ==> local[i] in lookup && lookup[local[i]] == i
    ensures var local := ti.localTargetsInfo.localHostConfig.drives;
            var remote := RemoteConfigDrives(ti.remoteTargetsInfo.remoteTargetConfig.hosts);
            var lookup := IndexLookup(TargetOrderConfigs(ti));
            0 <= i < |remote| ==> remote[i] in lookup && lookup[remote[i]] == |local| + i
  {
    var local := ti.localTargetsInfo.localHostConfig.drives;
    var ks := TargetOrderConfigs(ti);
    if 0 <= i < |local| {
      IndexLookupOfDistinct(ks, i);
      assert ks[i] == local[i];
    }
    var remote := RemoteConfigDrives(ti.remoteTargetsInfo.remoteTargetConfig.hosts);
    if 0 <= i < |remote| {
      IndexLookupOfDistinct(ks, |local| + i);
      assert ks[|local| + i] == remote[i];
    }
  }

  // ---------------------------------------------------------------------
  // The state a pass starts from

  /** The part of the pairing state a pass changes. */
  datatype PassState = PassState(
    counters: Counters,
    unprocessed: seq<HotPlot>,
    pairings: seq<Pairing>,
    unpairedDueToCapping: seq<HotPlot>,
    unpairedDueToLackOfSpace: seq<HotPlot>)

  function InitialContext(si: SourceInfo, ti: TargetsInfo): Context
  {
    Context(si, ti, IndexLookup(si.sourceConfig.drives), IndexLookup(TargetOrderConfigs(ti)), AllTargetDrives(ti))
  }

  function InitialSourceSeed(si: SourceInfo, ti: TargetsInfo): SourceSeed
  {
    SeedSources(SeedTargets(AllEntries(ti)).initialTransfersMap, AllHotPlots(si.sourceDriveInfos))
  }

  /** The counters and lists after `__init__`. The per-drive transfer
      count starts empty: `__init__` never seeds it. */
  function InitialPassState(si: SourceInfo, ti: TargetsInfo): PassState
  {
    var t := SeedTargets(AllEntries(ti));
    var s := InitialSourceSeed(si, ti);
    PassState(
      Counters(s.driveBytes, s.driveTransfers, t.hostTransfers, t.driveBytes, map[], s.totalRemote),
      s.unprocessed, [], [], [])
  }
}
