/** The read-only half of `PairingState` (hotplots/pairing_state.py): the
    counters it keeps, the capping and space rules, and the two rankings.
    Each query takes the pass context (the snapshot and what `__init__`
    derives from it once) and the current counters, so that the class and
    the pass specification share one definition. */
module PairingQueries {
  import opened Wrappers
  import opened Config
  import opened Constants
  import opened PlotNames
  import opened Models
  import opened Ordering
  import opened Sorting
  import opened Seqs

  /** What a pass can raise instead of returning a result. */
  datatype PassError =
    | UnknownPlotSize(k: int)         // KeyError on PLOT_BYTES_BY_K
    | MalformedName(error: ParseError) // ValueError while parsing a source plot's name
    | UnmatchedSourceStrategy          // rank_hot_plots returned None, so its pop(0) fails
    | UnmatchedHostPreference          // the target ranking returned None, so its pop(0) fails
    | UnmatchedTargetStrategy          // the naive target ranking returned None, and the next use of it fails
    | DivisionByZero                   // ZeroDivisionError in a percent key
    | MissingConfigOrder               // KeyError on a config-order lookup

  /** `defaultdict(lambda: 0)` read access. */
  function Get<K>(m: map<K, int>, k: K): int
  {
    if k in m then m[k] else 0
  }

  /** `d[k] += n` on a `defaultdict(lambda: 0)`: only key `k` changes. */
  function Bump<K(!new)>(m: map<K, int>, k: K, n: int): (r: map<K, int>)
    ensures Get(r, k) == Get(m, k) + n
    ensures forall j :: j != k ==> Get(r, j) == Get(m, j)
  {
    m[k := Get(m, k) + n]
  }

  /** The six counters of the pairing state. */
  datatype Counters = Counters(
    sourceDriveBytesInFlight: map<SourceDriveConfig, int>,
    sourceDriveTransfersInFlight: map<SourceDriveConfig, int>,
    targetHostTransfersInFlight: map<HostConfig, int>,
    targetDriveBytesInFlight: map<DriveId, int>,
    targetDriveTransfersInFlight: map<DriveId, int>,
    totalRemoteTransfersFromSourceHost: int)

  /** What stays fixed during a pass once `__init__` has run. */
  datatype Context = Context(
    sourceInfo: SourceInfo,
    targetsInfo: TargetsInfo,
    sourceDriveConfigOrderLookup: map<SourceDriveConfig, int>,
    targetDriveConfigOrderLookup: map<TargetDriveConfig, int>,
    allHotPlotTargetDrives: seq<HotPlotTargetDrive>)

  function RemoteOutboundLimit(ctx: Context): int
  {
    ctx.targetsInfo.remoteTargetsInfo.remoteTargetConfig.maxConcurrentOutboundTransfers
  }

  function SourceDriveOf(hp: HotPlot): SourceDriveConfig
  {
    hp.sourceDriveInfo.sourceDriveConfig
  }

  /** `is_frequency_capped`: the global remote-outbound count (checked for
      every target, local ones included), the source drive's outbound
      count, and the target drive's inbound count against its host's
      limit (none for the local host). */
  predicate IsFrequencyCapped(ctx: Context, c: Counters, hp: HotPlot, td: HotPlotTargetDrive)
  {
    || c.totalRemoteTransfersFromSourceHost >= RemoteOutboundLimit(ctx)
    || Get(c.sourceDriveTransfersInFlight, SourceDriveOf(hp)) >= SourceDriveOf(hp).maxConcurrentOutboundTransfers
    || (match td.hostConfig.InboundLimit()
        case Unbounded => false
        case AtMost(n) => Get(c.targetDriveTransfersInFlight, td.Id()) >= n)
  }

  /** `has_enough_space`: free bytes less 1.05 times the bytes committed to
      the drive cover the plot, with both sides scaled by 100. */
  predicate HasEnoughSpace(c: Counters, hp: HotPlot, td: HotPlotTargetDrive)
  {
    STAGED_FILES_ERROR_TERM_DEN * td.targetDriveInfo.freeBytes
      - STAGED_FILES_ERROR_TERM_NUM * Get(c.targetDriveBytesInFlight, td.Id())
      >= STAGED_FILES_ERROR_TERM_DEN * hp.sourcePlot.size
  }

  /** Python's `n / d` as an exact key; a zero divisor raises. */
  function Quotient(n: int, d: int): (r: Result<Key, PassError>)
    ensures r.Failure? <==> d == 0
    ensures r.Success? ==> r.value.Rat? && r.value.num * d == n * r.value.den
  {
    if d == 0 then Failure(DivisionByZero)
    else if d > 0 then Success(Rat(n, d))
    else Success(Rat(-n, -d))
  }

  /** The bytes a source drive is treated as having free. */
  function SourceSpace(c: Counters, hp: HotPlot): int
  {
    hp.sourceDriveInfo.freeBytes + Get(c.sourceDriveBytesInFlight, SourceDriveOf(hp))
  }

  /** The key `rank_hot_plots` sorts by under a given strategy. */
  function SourceKeyOf(ctx: Context, c: Counters, hp: HotPlot): Result<Key, PassError>
  {
    match ctx.sourceInfo.sourceConfig.selectionStrategy
    case PlotWithOldestTimestamp =>
      (match hp.sourcePlot.PlotNameMetadata()
       case Failure(e) => Failure(MalformedName(e))
       case Success(m) => Success(Text([m.year, m.month, m.day, m.hour, m.minute])))
    case SourceDriveWithLeastSpaceRemaining =>
      Success(Rat(SourceSpace(c, hp), 1))
    case SourceDriveWithLowestPercentSpaceRemaining =>
      Quotient(hp.sourceDriveInfo.totalBytes, SourceSpace(c, hp))
    case SourceConfigOrder =>
      if SourceDriveOf(hp) in ctx.sourceDriveConfigOrderLookup
      then Success(Rat(ctx.sourceDriveConfigOrderLookup[SourceDriveOf(hp)], 1))
      else Failure(MissingConfigOrder)
    case SourceRandom =>
      (match hp.sourcePlot.PlotNameMetadata()
       case Failure(e) => Failure(MalformedName(e))
       case Success(m) => Success(Text([m.plotId])))
    case LeastAvailableSpace =>
      Failure(UnmatchedSourceStrategy)
  }

  /** The key function, or None for a strategy no branch recognises. */
  function SourceKey(ctx: Context, c: Counters): Option<HotPlot -> Result<Key, PassError>>
  {
    if ctx.sourceInfo.sourceConfig.selectionStrategy == LeastAvailableSpace then None
    else Some(hp => SourceKeyOf(ctx, c, hp))
  }

  /** `rank_hot_plots`. */
  function RankHotPlots(ctx: Context, c: Counters, plots: seq<HotPlot>): (r: Result<seq<HotPlot>, PassError>)
    ensures r.Success? ==> |r.value| == |plots|
    ensures SourceKey(ctx, c).None? ==> r == Failure(UnmatchedSourceStrategy)
  {
    match SourceKey(ctx, c)
    case None => Failure(UnmatchedSourceStrategy)
    case Some(key) => RankBy(plots, key)
  }

  /** The bytes a target drive has left once its committed bytes are
      counted. */
  function TargetSpace(c: Counters, td: HotPlotTargetDrive): int
  {
    td.targetDriveInfo.freeBytes - Get(c.targetDriveBytesInFlight, td.Id())
  }

  /** The key of the naive target ranking. The "most" and "highest"
      strategies sort with `reverse=True`, which is the stable ascending
      sort on the negated key; "random" is taken as every key equal. */
  function TargetKeyOf(ctx: Context, c: Counters, td: HotPlotTargetDrive): Result<Key, PassError>
  {
    match ctx.targetsInfo.targetsConfig.selectionStrategy
    case TargetConfigOrder =>
      if td.targetDriveInfo.targetDriveConfig in ctx.targetDriveConfigOrderLookup
      then Success(Rat(ctx.targetDriveConfigOrderLookup[td.targetDriveInfo.targetDriveConfig], 1))
      else Failure(MissingConfigOrder)
    case TargetDriveWithLeastSpaceRemaining =>
      Success(Rat(TargetSpace(c, td), 1))
    case TargetDriveWithMostSpaceRemaining =>
      Success(Negate(Rat(TargetSpace(c, td), 1)))
    case TargetDriveWithLowestPercentSpaceRemaining =>
      Quotient(TargetSpace(c, td), td.targetDriveInfo.totalBytes)
    case TargetDriveWithHighestPercentSpaceRemaining =>
      (match Quotient(TargetSpace(c, td), td.targetDriveInfo.totalBytes)
       case Failure(e) => Failure(e)
       case Success(k) => Success(Negate(k)))
    case TargetRandom =>
      Success(Rat(0, 1))
    case UnrecognizedTargetStrategy =>
      Failure(UnmatchedTargetStrategy)
  }

  function TargetKey(ctx: Context, c: Counters): HotPlotTargetDrive -> Result<Key, PassError>
  {
    td => TargetKeyOf(ctx, c, td)
  }

  const IsLocalDrive: HotPlotTargetDrive -> bool := (td: HotPlotTargetDrive) => td.IsLocal()
  const IsRemoteDrive: HotPlotTargetDrive -> bool := (td: HotPlotTargetDrive) => !td.IsLocal()

  /** The host-preference step of `rank_eligible_hot_plot_target_drives`. */
  function ApplyHostPreference(pref: HostPreference, naive: seq<HotPlotTargetDrive>): Result<seq<HotPlotTargetDrive>, PassError>
  {
    match pref
    case Unspecified => Success(naive)
    case PreferLocal => Success(Filter(naive, IsLocalDrive) + Filter(naive, IsRemoteDrive))
    case PreferRemote => Success(Filter(naive, IsRemoteDrive) + Filter(naive, IsLocalDrive))
    case UnrecognizedPreference => Failure(UnmatchedHostPreference)
  }

  /** `rank_eligible_hot_plot_target_drives`. For a strategy no branch
      recognises, the naive ranking is `None`, and whatever comes next
      (`pop(0)` for "unspecified", the partition otherwise) raises before
      the preference is looked at. */
  function RankEligibleTargetDrives(ctx: Context, c: Counters, drives: seq<HotPlotTargetDrive>): (r: Result<seq<HotPlotTargetDrive>, PassError>)
  {
    if ctx.targetsInfo.targetsConfig.selectionStrategy == UnrecognizedTargetStrategy then Failure(UnmatchedTargetStrategy)
    else
      match RankBy(drives, TargetKey(ctx, c))
      case Failure(e) => Failure(e)
      case Success(naive) => ApplyHostPreference(ctx.targetsInfo.targetsConfig.targetHostPreference, naive)
  }

  /** The counter updates of `commit_pairing`. */
  function CommitCounters(c: Counters, hp: HotPlot, td: HotPlotTargetDrive): Counters
  {
    Counters(
      Bump(c.sourceDriveBytesInFlight, SourceDriveOf(hp), hp.sourcePlot.size),
      Bump(c.sourceDriveTransfersInFlight, SourceDriveOf(hp), 1),
      Bump(c.targetHostTransfersInFlight, td.hostConfig, 1),
      Bump(c.targetDriveBytesInFlight, td.Id(), hp.sourcePlot.size),
      Bump(c.targetDriveTransfersInFlight, td.Id(), 1),
      c.totalRemoteTransfersFromSourceHost + (if td.IsLocal() then 0 else 1))
  }

  // ---------------------------------------------------------------------
  // Properties of the counters and rules

  /** A commit adds one transfer and the plot's size to the plot's own
      source drive and target drive, one transfer to the target's host and,
      for a remote target only, one to the remote-outbound count; every
      other entry of every counter is left as it was. */
  lemma CommitCountersEffect(c: Counters, hp: HotPlot, td: HotPlotTargetDrive)
    ensures var n := CommitCounters(c, hp, td);
      && (forall s :: Get(n.sourceDriveBytesInFlight, s) == Get(c.sourceDriveBytesInFlight, s) + (if s == SourceDriveOf(hp) then hp.sourcePlot.size else 0))
      && (forall s :: Get(n.sourceDriveTransfersInFlight, s) == Get(c.sourceDriveTransfersInFlight, s) + (if s == SourceDriveOf(hp) then 1 else 0))
      && (forall h :: Get(n.targetHostTransfersInFlight, h) == Get(c.targetHostTransfersInFlight, h) + (if h == td.hostConfig then 1 else 0))
      && (forall d :: Get(n.targetDriveBytesInFlight, d) == Get(c.targetDriveBytesInFlight, d) + (if d == td.Id() then hp.sourcePlot.size else 0))
      && (forall d :: Get(n.targetDriveTransfersInFlight, d) == Get(c.targetDriveTransfersInFlight, d) + (if d == td.Id() then 1 else 0))
      && n.totalRemoteTransfersFromSourceHost == c.totalRemoteTransfersFromSourceHost + (if td.hostConfig.RemoteHostConfig? then 1 else 0)
  {
  }

  /** Counters only grow, so a capped pair stays capped after any commit. */
  lemma CappingIsPermanent(ctx: Context, c: Counters, hp: HotPlot, td: HotPlotTargetDrive, hp': HotPlot, td': HotPlotTargetDrive)
    requires IsFrequencyCapped(ctx, c, hp, td)
    ensures IsFrequencyCapped(ctx, CommitCounters(c, hp', td'), hp, td)
  {
  }

  /** Committed bytes only grow, so a drive without room for a plot does
      not regain it after any commit. */
  lemma LackOfSpaceIsPermanent(c: Counters, hp: HotPlot, td: HotPlotTargetDrive, hp': HotPlot, td': HotPlotTargetDrive)
    requires !HasEnoughSpace(c, hp, td)
    ensures !HasEnoughSpace(CommitCounters(c, hp', td'), hp, td)
  {
  }

  /** The error term errs toward "no room": a drive judged to have room
      really has the plot's size left after its committed bytes. */
  lemma SpaceCheckIsConservative(c: Counters, hp: HotPlot, td: HotPlotTargetDrive)
    requires Get(c.targetDriveBytesInFlight, td.Id()) >= 0
    requires HasEnoughSpace(c, hp, td)
    ensures TargetSpace(c, td) >= hp.sourcePlot.size
  {
  }

  /** Once the remote-outbound count reaches its limit, every target is
      capped, local drives included. */
  lemma RemoteCapBlocksLocalTargets(ctx: Context, c: Counters, hp: HotPlot, td: HotPlotTargetDrive)
    requires c.totalRemoteTransfersFromSourceHost >= RemoteOutboundLimit(ctx)
    requires td.IsLocal()
    ensures IsFrequencyCapped(ctx, c, hp, td)
  {
  }

  /** The capping rule never reads the per-host transfer count: the host's
      limit is compared with the per-drive count instead. */
  lemma CappingIgnoresHostCounter(ctx: Context, c: Counters, hp: HotPlot, td: HotPlotTargetDrive, hosts: map<HostConfig, int>)
    ensures IsFrequencyCapped(ctx, c, hp, td)
        <==> IsFrequencyCapped(ctx, c.(targetHostTransfersInFlight := hosts), hp, td)
  {
  }

  /** A local target is never capped by its own inbound count. */
  lemma LocalTargetsHaveNoInboundCap(ctx: Context, c: Counters, hp: HotPlot, td: HotPlotTargetDrive, drives: map<DriveId, int>)
    requires td.IsLocal()
    ensures IsFrequencyCapped(ctx, c, hp, td)
        <==> IsFrequencyCapped(ctx, c.(targetDriveTransfersInFlight := drives), hp, td)
  {
  }

  // ---------------------------------------------------------------------
  // Properties of the source ranking

  /** `rank_hot_plots` is the stable sort on its strategy's key: a
      permutation, ordered by the key, ties in input order. */
  lemma RankHotPlotsIsStableSort(ctx: Context, c: Counters, plots: seq<HotPlot>)
    requires RankHotPlots(ctx, c, plots).Success?
    ensures SourceKey(ctx, c).Some?
    ensures var key := Total(SourceKey(ctx, c).value);
            var r := RankHotPlots(ctx, c, plots).value;
            && multiset(r) == multiset(plots)
            && SortedBy(r, key)
            && (forall k :: TiedWith(r, key, k) == TiedWith(plots, key, k))
  {
    var key := Total(SourceKey(ctx, c).value);
    SortByPermutes(plots, key);
    SortBySorted(plots, key);
    forall k {
      SortByStable(plots, key, k);
    }
  }

  /** The head of the ranking is the first plot whose key is minimal. */
  lemma RankHotPlotsHead(ctx: Context, c: Counters, plots: seq<HotPlot>)
    requires |plots| > 0
    requires RankHotPlots(ctx, c, plots).Success?
    ensures SourceKey(ctx, c).Some?
    ensures var key := Total(SourceKey(ctx, c).value);
            var i := FirstMinIndex(plots, key);
            && RankHotPlots(ctx, c, plots).value[0] == plots[i]
            && (forall j :: 0 <= j < |plots| ==> KeyLe(key(plots[i]), key(plots[j])))
            && (forall j :: 0 <= j < i ==> KeyLt(key(plots[i]), key(plots[j])))
  {
    var key := Total(SourceKey(ctx, c).value);
    SortByHead(plots, key);
    FirstMinIndexIsFirstMinimum(plots, key);
  }

  /** The ranking raises exactly when some plot's key raises, or when the
      strategy is one no branch recognises. */
  lemma RankHotPlotsFailure(ctx: Context, c: Counters, plots: seq<HotPlot>)
    ensures RankHotPlots(ctx, c, plots).Failure?
        <==> (ctx.sourceInfo.sourceConfig.selectionStrategy == LeastAvailableSpace
              || exists i :: 0 <= i < |plots| && SourceKeyOf(ctx, c, plots[i]).Failure?)
  {
    if ctx.sourceInfo.sourceConfig.selectionStrategy != LeastAvailableSpace {
      var key := SourceKey(ctx, c).value;
      assert forall i :: 0 <= i < |plots| ==> key(plots[i]) == SourceKeyOf(ctx, c, plots[i]);
    }
  }

  /** Ranked by least space: ascending free plus in-flight bytes. */
  lemma LeastSpaceRankingOrder(ctx: Context, c: Counters, plots: seq<HotPlot>)
    requires ctx.sourceInfo.sourceConfig.selectionStrategy == SourceDriveWithLeastSpaceRemaining
    ensures RankHotPlots(ctx, c, plots).Success?
    ensures var r := RankHotPlots(ctx, c, plots).value;
            forall i, j :: 0 <= i < j < |r| ==> SourceSpace(c, r[i]) <= SourceSpace(c, r[j])
  {
    RankHotPlotsFailure(ctx, c, plots);
    RankHotPlotsIsStableSort(ctx, c, plots);
  }

  /** Ranked by "lowest percent space remaining": ascending
      total / (free + in flight), so the plot on the drive with the most
      space left relative to its size comes first. */
  lemma LowestPercentRankingOrder(ctx: Context, c: Counters, plots: seq<HotPlot>)
    requires ctx.sourceInfo.sourceConfig.selectionStrategy == SourceDriveWithLowestPercentSpaceRemaining
    requires forall i :: 0 <= i < |plots| ==> SourceSpace(c, plots[i]) > 0
    ensures RankHotPlots(ctx, c, plots).Success?
    ensures var r := RankHotPlots(ctx, c, plots).value;
            forall i, j :: 0 <= i < j < |r| ==>
              r[i].sourceDriveInfo.totalBytes * SourceSpace(c, r[j]) <= r[j].sourceDriveInfo.totalBytes * SourceSpace(c, r[i])
  {
    RankHotPlotsFailure(ctx, c, plots);
    RankHotPlotsIsStableSort(ctx, c, plots);
    var r := RankHotPlots(ctx, c, plots).value;
    forall i | 0 <= i < |r|
      ensures SourceSpace(c, r[i]) > 0
    {
      assert r[i] in multiset(plots);
    }
  }

  /** Ranked by config order: ascending position of the source drive. */
  lemma ConfigOrderRankingOrder(ctx: Context, c: Counters, plots: seq<HotPlot>)
    requires ctx.sourceInfo.sourceConfig.selectionStrategy == SourceConfigOrder
    requires RankHotPlots(ctx, c, plots).Success?
    ensures var r := RankHotPlots(ctx, c, plots).value;
            && (forall i :: 0 <= i < |r| ==> SourceDriveOf(r[i]) in ctx.sourceDriveConfigOrderLookup)
            && (forall i, j :: 0 <= i < j < |r| ==>
                 ctx.sourceDriveConfigOrderLookup[SourceDriveOf(r[i])] <= ctx.sourceDriveConfigOrderLookup[SourceDriveOf(r[j])])
  {
    RankHotPlotsFailure(ctx, c, plots);
    RankHotPlotsIsStableSort(ctx, c, plots);
    var r := RankHotPlots(ctx, c, plots).value;
    forall i | 0 <= i < |r|
      ensures SourceDriveOf(r[i]) in ctx.sourceDriveConfigOrderLookup
    {
      assert r[i] in multiset(plots);
    }
  }

  /** Ranked by "random": ascending plot id. */
  lemma RandomRankingOrder(ctx: Context, c: Counters, plots: seq<HotPlot>)
    requires ctx.sourceInfo.sourceConfig.selectionStrategy == SourceRandom
    requires RankHotPlots(ctx, c, plots).Success?
    ensures var r := RankHotPlots(ctx, c, plots).value;
            && (forall i :: 0 <= i < |r| ==> r[i].sourcePlot.PlotNameMetadata().Success?)
            && (forall i, j :: 0 <= i < j < |r| ==>
                 !StrLt(r[j].sourcePlot.PlotNameMetadata().value.plotId, r[i].sourcePlot.PlotNameMetadata().value.plotId))
  {
    RankHotPlotsFailure(ctx, c, plots);
    RankHotPlotsIsStableSort(ctx, c, plots);
    var key := Total(SourceKey(ctx, c).value);
    var r := RankHotPlots(ctx, c, plots).value;
    forall i | 0 <= i < |r|
      ensures r[i].sourcePlot.PlotNameMetadata().Success?
      ensures key(r[i]) == Text([r[i].sourcePlot.PlotNameMetadata().value.plotId])
    {
      assert r[i] in multiset(plots);
      RandomKey(ctx, c, r[i]);
    }
    forall i, j | 0 <= i < j < |r|
      ensures !StrLt(r[j].sourcePlot.PlotNameMetadata().value.plotId, r[i].sourcePlot.PlotNameMetadata().value.plotId)
    {
      SingletonTextOrder(r[i].sourcePlot.PlotNameMetadata().value.plotId, r[j].sourcePlot.PlotNameMetadata().value.plotId);
    }
  }

  lemma RandomKey(ctx: Context, c: Counters, hp: HotPlot)
    requires ctx.sourceInfo.sourceConfig.selectionStrategy == SourceRandom
    requires SourceKeyOf(ctx, c, hp).Success?
    ensures hp.sourcePlot.PlotNameMetadata().Success?
    ensures Total(SourceKey(ctx, c).value)(hp) == Text([hp.sourcePlot.PlotNameMetadata().value.plotId])
  {
  }

  lemma SingletonTextOrder(a: string, b: string)
    requires KeyLe(Text([a]), Text([b]))
    ensures !StrLt(b, a)
  {
    if StrLt(b, a) {
      StrLtIrreflexive(a);
      assert TupleLt([b], [a]);
    }
  }

  // ---------------------------------------------------------------------
  // Properties of the target ranking

  /** The "most space" key orders drives exactly opposite to the "least
      space" key, and "highest percent" opposite to "lowest percent". */
  lemma ReverseStrategiesReverseTheOrder(c: Counters, ctx: Context, a: HotPlotTargetDrive, b: HotPlotTargetDrive)
    ensures var least := ctx.(targetsInfo := ctx.targetsInfo.(targetsConfig := ctx.targetsInfo.targetsConfig.(selectionStrategy := TargetDriveWithLeastSpaceRemaining)));
            var most := ctx.(targetsInfo := ctx.targetsInfo.(targetsConfig := ctx.targetsInfo.targetsConfig.(selectionStrategy := TargetDriveWithMostSpaceRemaining)));
            (KeyLe(TargetKeyOf(most, c, a).value, TargetKeyOf(most, c, b).value)
             <==> KeyLe(TargetKeyOf(least, c, b).value, TargetKeyOf(least, c, a).value))
    ensures var lowest := ctx.(targetsInfo := ctx.targetsInfo.(targetsConfig := ctx.targetsInfo.targetsConfig.(selectionStrategy := TargetDriveWithLowestPercentSpaceRemaining)));
            var highest := ctx.(targetsInfo := ctx.targetsInfo.(targetsConfig := ctx.targetsInfo.targetsConfig.(selectionStrategy := TargetDriveWithHighestPercentSpaceRemaining)));
            TargetKeyOf(lowest, c, a).Success? && TargetKeyOf(lowest, c, b).Success? ==>
              (TargetKeyOf(highest, c, a).Success? && TargetKeyOf(highest, c, b).Success?
               && (KeyLe(TargetKeyOf(highest, c, a).value, TargetKeyOf(highest, c, b).value)
                   <==> KeyLe(TargetKeyOf(lowest, c, b).value, TargetKeyOf(lowest, c, a).value)))
  {
    NegateReverses(Rat(TargetSpace(c, a), 1), Rat(TargetSpace(c, b), 1));
    var qa := Quotient(TargetSpace(c, a), a.targetDriveInfo.totalBytes);
    var qb := Quotient(TargetSpace(c, b), b.targetDriveInfo.totalBytes);
    if qa.Success? && qb.Success? {
      NegateReverses(qa.value, qb.value);
    }
  }

  /** The host-preference step raises exactly for an unrecognised value,
      and "unspecified" keeps the naive order. */
  lemma HostPreferenceOutcome(pref: HostPreference, naive: seq<HotPlotTargetDrive>)
    ensures ApplyHostPreference(pref, naive).Failure? <==> pref == UnrecognizedPreference
    ensures pref == Unspecified ==> ApplyHostPreference(pref, naive) == Success(naive)
  {
  }

  /** The target ranking raises exactly when the strategy is one no branch
      recognises, some drive's key raises, or the preference is one no
      branch recognises; an unrecognised strategy is what raises first. */
  lemma RankEligibleTargetDrivesFailure(ctx: Context, c: Counters, drives: seq<HotPlotTargetDrive>)
    ensures RankEligibleTargetDrives(ctx, c, drives).Failure?
        <==> (|| ctx.targetsInfo.targetsConfig.selectionStrategy == UnrecognizedTargetStrategy
              || (exists i :: 0 <= i < |drives| && TargetKeyOf(ctx, c, drives[i]).Failure?)
              || ctx.targetsInfo.targetsConfig.targetHostPreference == UnrecognizedPreference)
    ensures ctx.targetsInfo.targetsConfig.selectionStrategy == UnrecognizedTargetStrategy
            ==> RankEligibleTargetDrives(ctx, c, drives) == Failure(UnmatchedTargetStrategy)
  {
    if ctx.targetsInfo.targetsConfig.selectionStrategy != UnrecognizedTargetStrategy {
      assert forall i :: 0 <= i < |drives| ==> TargetKey(ctx, c)(drives[i]) == TargetKeyOf(ctx, c, drives[i]);
    }
  }

  /** "local" puts every local drive before every remote one and "remote"
      the reverse; each block keeps the naive order, and the result is a
      permutation of the naive ranking. */
  lemma HostPreferenceBlocks(pref: HostPreference, naive: seq<HotPlotTargetDrive>)
    requires pref == PreferLocal || pref == PreferRemote
    ensures var r := ApplyHostPreference(pref, naive).value;
      && multiset(r) == multiset(naive)
      && Filter(r, IsLocalDrive) == Filter(naive, IsLocalDrive)
      && Filter(r, IsRemoteDrive) == Filter(naive, IsRemoteDrive)
      && (pref == PreferLocal ==> forall i, j :: 0 <= i < j < |r| && r[j].IsLocal() ==> r[i].IsLocal())
      && (pref == PreferRemote ==> forall i, j :: 0 <= i < j < |r| && !r[j].IsLocal() ==> !r[i].IsLocal())
  {
    if pref == PreferLocal {
      StablePartition(naive, IsLocalDrive, IsRemoteDrive);
    } else {
      StablePartition(naive, IsRemoteDrive, IsLocalDrive);
    }
  }

  /** The target ranking is a permutation of the eligible drives. */
  lemma RankEligiblePermutes(ctx: Context, c: Counters, drives: seq<HotPlotTargetDrive>)
    requires RankEligibleTargetDrives(ctx, c, drives).Success?
    ensures multiset(RankEligibleTargetDrives(ctx, c, drives).value) == multiset(drives)
    ensures |RankEligibleTargetDrives(ctx, c, drives).value| == |drives|
  {
    var naive := RankBy(drives, TargetKey(ctx, c)).value;
    SortByPermutes(drives, Total(TargetKey(ctx, c)));
    var pref := ctx.targetsInfo.targetsConfig.targetHostPreference;
    if pref == PreferLocal || pref == PreferRemote {
      HostPreferenceBlocks(pref, naive);
    }
    assert |multiset(RankEligibleTargetDrives(ctx, c, drives).value)| == |multiset(drives)|;
  }

  // ---------------------------------------------------------------------
  // Order of the target ranking

  /** `rank_eligible_hot_plot_target_drives` sorts stably on the strategy's
      key and then applies the host preference. With no preference the
      whole ranking is sorted, ties in input order. With either preference
      the local block and the remote block are each sorted, and each keeps
      the input order of its drives whose keys tie. */
  lemma RankEligibleTargetDrivesIsStableSort(ctx: Context, c: Counters, drives: seq<HotPlotTargetDrive>)
    requires RankEligibleTargetDrives(ctx, c, drives).Success?
    ensures var key := Total(TargetKey(ctx, c));
            var r := RankEligibleTargetDrives(ctx, c, drives).value;
            && (ctx.targetsInfo.targetsConfig.targetHostPreference == Unspecified ==>
                  SortedBy(r, key) && forall k :: TiedWith(r, key, k) == TiedWith(drives, key, k))
            && SortedBy(Filter(r, IsLocalDrive), key)
            && SortedBy(Filter(r, IsRemoteDrive), key)
            && (forall k :: TiedWith(Filter(r, IsLocalDrive), key, k) == TiedWith(Filter(drives, IsLocalDrive), key, k))
            && (forall k :: TiedWith(Filter(r, IsRemoteDrive), key, k) == TiedWith(Filter(drives, IsRemoteDrive), key, k))
  {
    var key := Total(TargetKey(ctx, c));
    var naive := SortBy(drives, key);
    var pref := ctx.targetsInfo.targetsConfig.targetHostPreference;
    var r := RankEligibleTargetDrives(ctx, c, drives).value;
    SortBySorted(drives, key);
    if pref == PreferLocal || pref == PreferRemote {
      HostPreferenceBlocks(pref, naive);
    }
    assert Filter(r, IsLocalDrive) == Filter(naive, IsLocalDrive);
    assert Filter(r, IsRemoteDrive) == Filter(naive, IsRemoteDrive);
    FilterSorted(naive, IsLocalDrive, key);
    FilterSorted(naive, IsRemoteDrive, key);
    forall k
      ensures TiedWith(naive, key, k) == TiedWith(drives, key, k)
      ensures TiedWith(Filter(naive, IsLocalDrive), key, k) == TiedWith(Filter(drives, IsLocalDrive), key, k)
      ensures TiedWith(Filter(naive, IsRemoteDrive), key, k) == TiedWith(Filter(drives, IsRemoteDrive), key, k)
    {
      SortByStable(drives, key, k);
      FilterTied(naive, IsLocalDrive, key, k);
      FilterTied(drives, IsLocalDrive, key, k);
      FilterTied(naive, IsRemoteDrive, key, k);
      FilterTied(drives, IsRemoteDrive, key, k);
    }
  }

  /** Position by position: two ranked drives are in key order whenever no
      preference is set or both are on the same side of it. */
  lemma RankEligibleTargetDrivesOrder(ctx: Context, c: Counters, drives: seq<HotPlotTargetDrive>)
    requires RankEligibleTargetDrives(ctx, c, drives).Success?
    ensures var key := Total(TargetKey(ctx, c));
            var pref := ctx.targetsInfo.targetsConfig.targetHostPreference;
            var r := RankEligibleTargetDrives(ctx, c, drives).value;
            forall i, j :: 0 <= i < j < |r| && (pref == Unspecified || r[i].IsLocal() == r[j].IsLocal())
                           ==> KeyLe(key(r[i]), key(r[j]))
  {
    var key := Total(TargetKey(ctx, c));
    var naive := SortBy(drives, key);
    var pref := ctx.targetsInfo.targetsConfig.targetHostPreference;
    SortBySorted(drives, key);
    if pref == PreferLocal {
      BlocksInKeyOrder(naive, IsLocalDrive, IsRemoteDrive, key);
    } else if pref == PreferRemote {
      BlocksInKeyOrder(naive, IsRemoteDrive, IsLocalDrive, key);
      var r := Filter(naive, IsRemoteDrive) + Filter(naive, IsLocalDrive);
      assert RankEligibleTargetDrives(ctx, c, drives).value == r;
      forall i, j | 0 <= i < j < |r| && r[i].IsLocal() == r[j].IsLocal()
        ensures KeyLe(key(r[i]), key(r[j]))
      {
        assert IsRemoteDrive(r[i]) == IsRemoteDrive(r[j]);
        assert 0 <= i < j < |Filter(naive, IsRemoteDrive) + Filter(naive, IsLocalDrive)|;
      }
    }
  }

  /** Ranked by least space remaining, drives come in ascending space left;
      by most space remaining, in descending space left; when a host
      preference is set, this holds within the local and within the remote
      block. Neither strategy raises, so only an unrecognised preference
      does. */
  lemma SpaceTargetRankingOrder(ctx: Context, c: Counters, drives: seq<HotPlotTargetDrive>)
    requires ctx.targetsInfo.targetsConfig.selectionStrategy == TargetDriveWithLeastSpaceRemaining
          || ctx.targetsInfo.targetsConfig.selectionStrategy == TargetDriveWithMostSpaceRemaining
    ensures RankEligibleTargetDrives(ctx, c, drives).Success?
        <==> ctx.targetsInfo.targetsConfig.targetHostPreference != UnrecognizedPreference
    ensures var strategy := ctx.targetsInfo.targetsConfig.selectionStrategy;
            var pref := ctx.targetsInfo.targetsConfig.targetHostPreference;
            var r := RankEligibleTargetDrives(ctx, c, drives);
            r.Success? ==>
              forall i, j :: 0 <= i < j < |r.value| && (pref == Unspecified || r.value[i].IsLocal() == r.value[j].IsLocal()) ==>
                && (strategy == TargetDriveWithLeastSpaceRemaining ==> TargetSpace(c, r.value[i]) <= TargetSpace(c, r.value[j]))
                && (strategy == TargetDriveWithMostSpaceRemaining ==> TargetSpace(c, r.value[i]) >= TargetSpace(c, r.value[j]))
  {
    assert RankBy(drives, TargetKey(ctx, c)).Success?;
    if RankEligibleTargetDrives(ctx, c, drives).Success? {
      RankEligibleTargetDrivesOrder(ctx, c, drives);
    }
  }
}
