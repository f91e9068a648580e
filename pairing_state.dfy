/** The class `PairingState` of hotplots/pairing_state.py: the working
    state of one pairing pass, built from a snapshot by `__init__` and
    updated by the commits and the pop. Its read-only queries are in
    pairing_queries.dfy, and what `__init__` computes is specified in
    pairing_seeding.dfy. */
module PairingStates {
  import opened Wrappers
  import opened Config
  import opened Models
  import opened Ordering
  import opened Sorting
  import opened Seqs
  import opened PairingQueries
  import opened PairingSeeding

  class PairingState {
    const sourceInfo: SourceInfo
    const targetsInfo: TargetsInfo

    var initiallySkippedHotPlots: seq<HotPlot>
    var unprocessedHotPlots: seq<HotPlot>

    var pairings: seq<Pairing>
    var unpairedHotPlotsDueToCapping: seq<HotPlot>
    var unpairedHotPlotsDueToLackOfSpace: seq<HotPlot>

    var allHotPlotTargetDrives: seq<HotPlotTargetDrive>

    var sourceDriveBytesInFlight: map<SourceDriveConfig, int>
    var sourceDriveTransfersInFlight: map<SourceDriveConfig, int>
    var targetHostTransfersInFlight: map<HostConfig, int>
    var targetDriveBytesInFlight: map<DriveId, int>
    var targetDriveTransfersInFlight: map<DriveId, int>
    var totalRemoteTransfersFromSourceHost: int

    var sourceDriveConfigOrderLookup: map<SourceDriveConfig, int>
    var targetDriveConfigOrderLookup: map<TargetDriveConfig, int>

    function CurrentCounters(): Counters
      reads this`sourceDriveBytesInFlight, this`sourceDriveTransfersInFlight, this`targetHostTransfersInFlight,
        this`targetDriveBytesInFlight, this`targetDriveTransfersInFlight, this`totalRemoteTransfersFromSourceHost
    {
      Counters(sourceDriveBytesInFlight, sourceDriveTransfersInFlight, targetHostTransfersInFlight,
               targetDriveBytesInFlight, targetDriveTransfersInFlight, totalRemoteTransfersFromSourceHost)
    }

    /** What the queries read besides the counters. */
    function Ctx(): Context
      reads this`sourceDriveConfigOrderLookup, this`targetDriveConfigOrderLookup, this`allHotPlotTargetDrives
    {
      Context(sourceInfo, targetsInfo, sourceDriveConfigOrderLookup, targetDriveConfigOrderLookup, allHotPlotTargetDrives)
    }

    /** What a pass changes. */
    function View(): PassState
      reads this`sourceDriveBytesInFlight, this`sourceDriveTransfersInFlight, this`targetHostTransfersInFlight,
        this`targetDriveBytesInFlight, this`targetDriveTransfersInFlight, this`totalRemoteTransfersFromSourceHost,
        this`unprocessedHotPlots, this`pairings, this`unpairedHotPlotsDueToCapping, this`unpairedHotPlotsDueToLackOfSpace
    {
      PassState(CurrentCounters(), unprocessedHotPlots, pairings, unpairedHotPlotsDueToCapping, unpairedHotPlotsDueToLackOfSpace)
    }

    /** `__init__`. The source raises KeyError for an in-flight transfer of
        unknown k-size and ValueError for a source plot whose name does not
        parse; callers rule both out first. */
    constructor (si: SourceInfo, ti: TargetsInfo)
      requires SnapshotError(si, ti).None?
      ensures Ctx() == InitialContext(si, ti)
      ensures View() == InitialPassState(si, ti)
      ensures initiallySkippedHotPlots == InitialSourceSeed(si, ti).skipped
    {
      sourceInfo := si;
      targetsInfo := ti;
      var lookups := InitializeConfigOrderLookups(si, ti);
      var seed, drives := SeedTargetsOf(ti);
      var sources := SeedSourcesOf(seed.initialTransfersMap, si.sourceDriveInfos);
      allHotPlotTargetDrives := drives;
      targetHostTransfersInFlight := seed.hostTransfers;
      targetDriveBytesInFlight := seed.driveBytes;
      targetDriveTransfersInFlight := map[];
      initiallySkippedHotPlots := sources.skipped;
      unprocessedHotPlots := sources.unprocessed;
      sourceDriveTransfersInFlight := sources.driveTransfers;
      sourceDriveBytesInFlight := sources.driveBytes;
      totalRemoteTransfersFromSourceHost := sources.totalRemote;
      pairings := [];
      unpairedHotPlotsDueToCapping := [];
      unpairedHotPlotsDueToLackOfSpace := [];
      sourceDriveConfigOrderLookup, targetDriveConfigOrderLookup := lookups.0, lookups.1;
    }

    /** `commit_pairing`: records the pairing and charges it to every
        counter it concerns. */
    method CommitPairing(hp: HotPlot, td: HotPlotTargetDrive)
      modifies this`pairings, this`totalRemoteTransfersFromSourceHost,
        this`sourceDriveTransfersInFlight, this`sourceDriveBytesInFlight, this`targetHostTransfersInFlight,
        this`targetDriveTransfersInFlight, this`targetDriveBytesInFlight
      ensures pairings == old(pairings) + [(hp, td)]
      ensures CurrentCounters() == CommitCounters(old(CurrentCounters()), hp, td)
    {
      var sourceDriveConfig := hp.sourceDriveInfo.sourceDriveConfig;
      var targetHostConfig := td.hostConfig;
      var targetDriveId := (targetHostConfig, td.targetDriveInfo.targetDriveConfig);
      pairings, totalRemoteTransfersFromSourceHost,
        sourceDriveTransfersInFlight, sourceDriveBytesInFlight,
        targetHostTransfersInFlight,
        targetDriveTransfersInFlight, targetDriveBytesInFlight
        := pairings + [(hp, td)], totalRemoteTransfersFromSourceHost + (if td.IsLocal() then 0 else 1),
           Bump(sourceDriveTransfersInFlight, sourceDriveConfig, 1),
           Bump(sourceDriveBytesInFlight, sourceDriveConfig, hp.sourcePlot.size),
           Bump(targetHostTransfersInFlight, targetHostConfig, 1),
           Bump(targetDriveTransfersInFlight, targetDriveId, 1),
           Bump(targetDriveBytesInFlight, targetDriveId, hp.sourcePlot.size);
    }

    /** `commit_unpaired_due_to_capping`. */
    method CommitUnpairedDueToCapping(hp: HotPlot)
      modifies this`unpairedHotPlotsDueToCapping
      ensures unpairedHotPlotsDueToCapping == old(unpairedHotPlotsDueToCapping) + [hp]
    {
      unpairedHotPlotsDueToCapping := unpairedHotPlotsDueToCapping + [hp];
    }

    /** `commit_unpaired_due_to_lack_of_space`. */
    method CommitUnpairedDueToLackOfSpace(hp: HotPlot)
      modifies this`unpairedHotPlotsDueToLackOfSpace
      ensures unpairedHotPlotsDueToLackOfSpace == old(unpairedHotPlotsDueToLackOfSpace) + [hp]
    {
      unpairedHotPlotsDueToLackOfSpace := unpairedHotPlotsDueToLackOfSpace + [hp];
    }

    /** `pop_next_unprocessed_hot_plot`: re-ranks the unprocessed plots and
        removes the head, the first plot whose key is minimal. Ranking
        raises for a strategy no branch recognises and for a key that
        cannot be computed. */
    method PopNextUnprocessedHotPlot() returns (r: Result<HotPlot, PassError>)
      requires |unprocessedHotPlots| > 0
      modifies this`unprocessedHotPlots
      ensures var ranked := RankHotPlots(Ctx(), CurrentCounters(), old(unprocessedHotPlots));
              && (ranked.Failure? ==> r == Failure(ranked.error) && unprocessedHotPlots == old(unprocessedHotPlots))
              && (ranked.Success? ==> r == Success(ranked.value[0]) && unprocessedHotPlots == ranked.value[1..])
    {
      var ranked := RankHotPlots(Ctx(), CurrentCounters(), unprocessedHotPlots);
      if ranked.Failure? {
        return Failure(ranked.error);
      }
      RankHotPlotsIsStableSort(Ctx(), CurrentCounters(), unprocessedHotPlots);
      RankHotPlotsHead(Ctx(), CurrentCounters(), unprocessedHotPlots);
      var list := ranked.value;
      assert list == [list[0]] + list[1..];
      unprocessedHotPlots := list[1..];
      r := Success(list[0]);
    }
  }

  /** `__initialize_config_order_lookups`, which `__init__` runs on the
      two empty lookups: source drives numbered in config order; target
      drives numbered local first, then remote host by host. */
  method InitializeConfigOrderLookups(si: SourceInfo, ti: TargetsInfo)
    returns (lookups: (map<SourceDriveConfig, int>, map<TargetDriveConfig, int>))
    ensures lookups.0 == IndexLookup(si.sourceConfig.drives)
    ensures lookups.1 == IndexLookup(TargetOrderConfigs(ti))
  {
    var sources := si.sourceConfig.drives;
    var sourceLookup: map<SourceDriveConfig, int> := map[];
    MergeNothing(sourceLookup);
    assert sources[..0] == [];
    var i := 0;
    while i < |sources|
      invariant 0 <= i <= |sources|
      invariant sourceLookup == map[] + IndexLookup(sources[..i])
    {
      LookupStep(map[], sources, i);
      sourceLookup := sourceLookup[sources[i] := i];
      i := i + 1;
    }
    assert sources[..i] == sources;

    var targetLookup := NumberTargetDrives(map[], ti.localTargetsInfo.localHostConfig.drives,
                                           ti.remoteTargetsInfo.remoteTargetConfig.hosts);
    MergeIntoNothing(IndexLookup(sources));
    MergeIntoNothing(IndexLookup(TargetOrderConfigs(ti)));
    lookups := (sourceLookup, targetLookup);
  }

  /** The target half of `__initialize_config_order_lookups`: one running
      number across the local drives and then every remote host's drives. */
  method NumberTargetDrives(m: map<TargetDriveConfig, int>, local: seq<TargetDriveConfig>, hosts: seq<RemoteHost>)
    returns (r: map<TargetDriveConfig, int>)
    ensures r == m + IndexLookup(local + RemoteConfigDrives(hosts))
  {
    r := m;
    MergeNothing(r);
    assert local[..0] == [];
    var i := 0;
    while i < |local|
      invariant 0 <= i <= |local|
      invariant r == m + IndexLookup(local[..i])
    {
      LookupStep(m, local, i);
      r := r[local[i] := i];
      i := i + 1;
    }
    assert local[..i] == local + RemoteConfigDrives(hosts[..0]);

    for h := 0 to |hosts|
      invariant i == |local + RemoteConfigDrives(hosts[..h])|
      invariant r == m + IndexLookup(local + RemoteConfigDrives(hosts[..h]))
    {
      ghost var before := local + RemoteConfigDrives(hosts[..h]);
      r, i := NumberHostDrives(r, i, hosts[h].drives, m, before);
      assert hosts[..h + 1][..h] == hosts[..h];
      assert before + hosts[h].drives == local + RemoteConfigDrives(hosts[..h + 1]);
    }
    assert hosts[..|hosts|] == hosts;
  }

  /** The innermost loop: one remote host's drives, numbered on from `i`. */
  method NumberHostDrives(r: map<TargetDriveConfig, int>, i: int, drives: seq<TargetDriveConfig>,
                          ghost m: map<TargetDriveConfig, int>, ghost before: seq<TargetDriveConfig>)
    returns (r': map<TargetDriveConfig, int>, i': int)
    requires r == m + IndexLookup(before) && i == |before|
    ensures r' == m + IndexLookup(before + drives) && i' == |before + drives|
  {
    r', i' := r, i;
    assert (before + drives)[..|before|] == before;
    for j := 0 to |drives|
      invariant i' == |before| + j
      invariant r' == m + IndexLookup((before + drives)[..i'])
    {
      LookupStep(m, before + drives, i');
      r' := r'[drives[j] := i'];
      i' := i' + 1;
    }
    assert (before + drives)[..i'] == before + drives;
  }

  lemma MergeNothing<K>(m: map<K, int>)
    ensures m + IndexLookup<K>([]) == m
  {
  }

  lemma MergeIntoNothing<K, V>(m: map<K, V>)
    ensures map[] + m == m
  {
  }

  /** One more key written into a lookup that already holds earlier ones. */
  lemma LookupStep<K>(m: map<K, int>, ks: seq<K>, i: nat)
    requires i < |ks|
    ensures (m + IndexLookup(ks[..i]))[ks[i] := i] == m + IndexLookup(ks[..i + 1])
  {
    assert ks[..i + 1][..i] == ks[..i];
  }

  /** The inner loop over one target drive's in-flight transfers. */
  method SeedDriveTransfers(host: HostConfig, info: TargetDriveInfo, seed: TargetSeed) returns (r: TargetSeed)
    ensures r == FoldLeft(TargetStep, seed, DriveEntries(host, info))
  {
    var transfers := info.inFlightTransfers;
    r := seed;
    for j := 0 to |transfers|
      invariant r == FoldLeft(TargetStep, seed, DriveEntries(host, info)[..j])
    {
      var e := InFlightEntry(host, info.targetDriveConfig, transfers[j]);
      assert DriveEntries(host, info)[..j + 1] == DriveEntries(host, info)[..j] + [e];
      FoldLeftSnoc(TargetStep, seed, DriveEntries(host, info)[..j], e);
      var driveId := (host, info.targetDriveConfig);
      r := TargetSeed(
        r.initialTransfersMap[transfers[j].plotNameMetadata.plotId := driveId],
        Bump(r.hostTransfers, host, 1),
        Bump(r.driveBytes, driveId, ExpectedRemainingBytes(transfers[j])));
    }
    assert DriveEntries(host, info)[..|transfers|] == DriveEntries(host, info);
  }

  /** The loop over one host's target drives: each drive's transfers are
      seeded, then the drive joins the list of all target drives. */
  method SeedHostDrives(host: HostConfig, infos: seq<TargetDriveInfo>, seed: TargetSeed, drives: seq<HotPlotTargetDrive>)
    returns (r: TargetSeed, ds: seq<HotPlotTargetDrive>)
    ensures r == FoldLeft(TargetStep, seed, HostEntries(host, infos))
    ensures ds == drives + HostDrives(host, infos)
  {
    r, ds := seed, drives;
    for i := 0 to |infos|
      invariant r == FoldLeft(TargetStep, seed, HostEntries(host, infos[..i]))
      invariant ds == drives + HostDrives(host, infos[..i])
    {
      HostStep(host, infos, i, seed);
      r := SeedDriveTransfers(host, infos[i], r);
      ds := ds + [HotPlotTargetDrive(host, infos[i])];
    }
    assert infos[..|infos|] == infos;
  }

  lemma HostStep(host: HostConfig, infos: seq<TargetDriveInfo>, i: nat, seed: TargetSeed)
    requires i < |infos|
    ensures FoldLeft(TargetStep, seed, HostEntries(host, infos[..i + 1]))
         == FoldLeft(TargetStep, FoldLeft(TargetStep, seed, HostEntries(host, infos[..i])), DriveEntries(host, infos[i]))
    ensures HostDrives(host, infos[..i + 1]) == HostDrives(host, infos[..i]) + [HotPlotTargetDrive(host, infos[i])]
  {
    assert infos[..i + 1][..i] == infos[..i];
    FoldLeftConcat(TargetStep, seed, HostEntries(host, infos[..i]), DriveEntries(host, infos[i]));
  }

  /** Both target loops of `__init__`: local drives, then every remote
      host's drives. */
  method SeedTargetsOf(ti: TargetsInfo) returns (seed: TargetSeed, drives: seq<HotPlotTargetDrive>)
    ensures seed == SeedTargets(AllEntries(ti))
    ensures drives == AllTargetDrives(ti)
  {
    var local := ti.localTargetsInfo;
    seed, drives := SeedHostDrives(local.localHostConfig, local.targetDriveInfos, TargetSeed(map[], map[], map[]), []);
    var hosts := ti.remoteTargetsInfo.remoteHostInfos;
    assert hosts[..0] == [];
    assert HostEntries(local.localHostConfig, local.targetDriveInfos) + RemoteEntries(hosts[..0]) == HostEntries(local.localHostConfig, local.targetDriveInfos);
    assert HostDrives(local.localHostConfig, local.targetDriveInfos) + RemoteDrives(hosts[..0]) == HostDrives(local.localHostConfig, local.targetDriveInfos);
    for i := 0 to |hosts|
      invariant seed == SeedTargets(HostEntries(local.localHostConfig, local.targetDriveInfos) + RemoteEntries(hosts[..i]))
      invariant drives == HostDrives(local.localHostConfig, local.targetDriveInfos) + RemoteDrives(hosts[..i])
    {
      RemoteStep(HostEntries(local.localHostConfig, local.targetDriveInfos), HostDrives(local.localHostConfig, local.targetDriveInfos), hosts, i);
      seed, drives := SeedHostDrives(hosts[i].remoteHostConfig, hosts[i].targetDriveInfos, seed, drives);
    }
    assert hosts[..|hosts|] == hosts;
  }

  lemma RemoteStep(es: seq<InFlightEntry>, ds: seq<HotPlotTargetDrive>, hosts: seq<RemoteHostInfo>, i: nat)
    requires i < |hosts|
    ensures SeedTargets(es + RemoteEntries(hosts[..i + 1]))
         == FoldLeft(TargetStep, SeedTargets(es + RemoteEntries(hosts[..i])), HostEntries(hosts[i].remoteHostConfig, hosts[i].targetDriveInfos))
    ensures ds + RemoteDrives(hosts[..i + 1]) == ds + RemoteDrives(hosts[..i]) + HostDrives(hosts[i].remoteHostConfig, hosts[i].targetDriveInfos)
  {
    assert hosts[..i + 1][..i] == hosts[..i];
    var more := HostEntries(hosts[i].remoteHostConfig, hosts[i].targetDriveInfos);
    assert es + RemoteEntries(hosts[..i + 1]) == (es + RemoteEntries(hosts[..i])) + more;
    FoldLeftConcat(TargetStep, TargetSeed(map[], map[], map[]), es + RemoteEntries(hosts[..i]), more);
  }

  /** The inner source loop over one drive's plots. */
  method SeedSourcePlots(tm: map<string, DriveId>, info: SourceDriveInfo, seed: SourceSeed) returns (r: SourceSeed)
    ensures r == FoldLeft(SourceStepper(tm), seed, DrivePlots(info))
  {
    var plots := info.sourcePlots;
    r := seed;
    for j := 0 to |plots|
      invariant r == FoldLeft(SourceStepper(tm), seed, DrivePlots(info)[..j])
    {
      var hp := HotPlot(info, plots[j]);
      ghost var prev := r;
      assert DrivePlots(info)[..j + 1] == DrivePlots(info)[..j] + [hp];
      FoldLeftSnoc(SourceStepper(tm), seed, DrivePlots(info)[..j], hp);
      assert FoldLeft(SourceStepper(tm), seed, DrivePlots(info)[..j + 1]) == SourceStep(tm, prev, hp);
      var matched := MatchedTransfer(tm, hp);
      if matched.Some? {
        var cfg := info.sourceDriveConfig;
        r := SourceSeed(
          r.skipped + [hp],
          r.unprocessed,
          Bump(r.driveTransfers, cfg, 1),
          Bump(r.driveBytes, cfg, plots[j].size),
          r.totalRemote + (if matched.value.0.IsLocal() then 0 else 1));
      } else {
        r := r.(unprocessed := r.unprocessed + [hp]);
      }
      assert r == SourceStep(tm, prev, hp);
    }
    assert DrivePlots(info)[..|plots|] == DrivePlots(info);
  }

  /** The source loop of `__init__`, drive by drive. */
  method SeedSourcesOf(tm: map<string, DriveId>, infos: seq<SourceDriveInfo>) returns (r: SourceSeed)
    ensures r == SeedSources(tm, AllHotPlots(infos))
  {
    r := SourceSeed([], [], map[], map[], 0);
    assert infos[..0] == [];
    for i := 0 to |infos|
      invariant r == SeedSources(tm, AllHotPlots(infos[..i]))
    {
      assert infos[..i + 1][..i] == infos[..i];
      FoldLeftConcat(SourceStepper(tm), SourceSeed([], [], map[], map[], 0), AllHotPlots(infos[..i]), DrivePlots(infos[i]));
      r := SeedSourcePlots(tm, infos[i], r);
    }
    assert infos[..|infos|] == infos;
  }
}
