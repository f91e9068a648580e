/** What one pass of hotplots/hotplots_pairing_engine.py guarantees: every
    plot is settled exactly once, each pairing goes to a drive that was
    eligible at that moment, and the caps and the room rule bound what a
    pass can commit. */
module PassProperties {
  import opened Wrappers
  import opened Config
  import opened Models
  import opened Seqs
  import opened PairingQueries
  import opened PairingSeeding
  import opened PairingEngine

  /** The plots of a list of pairings, in commit order. */
  function PairedPlots(ps: seq<Pairing>): seq<HotPlot>
    decreases |ps|
  {
    if |ps| == 0 then [] else PairedPlots(ps[..|ps| - 1]) + [ps[|ps| - 1].0]
  }

  lemma PairedPlotsSnoc(ps: seq<Pairing>, p: Pairing)
    ensures PairedPlots(ps + [p]) == PairedPlots(ps) + [p.0]
  {
    assert (ps + [p])[..|ps|] == ps;
  }

  /** The plot of every pairing is among the paired plots. */
  lemma {:induction false} PairedPlotsMembership(ps: seq<Pairing>, p: Pairing)
    requires p in ps
    ensures p.0 in PairedPlots(ps)
    decreases |ps|
  {
    if ps[|ps| - 1] != p {
      var init := ps[..|ps| - 1];
      assert ps == init + [ps[|ps| - 1]];
      PairedPlotsMembership(init, p);
    }
  }

  /** Every plot settled so far, however it ended. */
  function Tally(ps: PassState): multiset<HotPlot>
  {
    multiset(PairedPlots(ps.pairings)) + multiset(ps.unpairedDueToCapping) + multiset(ps.unpairedDueToLackOfSpace)
  }

  function Max0(x: int): int
  {
    if x < 0 then 0 else x
  }

  // ---------------------------------------------------------------------
  // One iteration

  /** One successful iteration removes exactly the best-ranked plot from
      the unprocessed list. */
  lemma StepPopsNextPlot(ctx: Context, ps: PassState)
    requires |ps.unprocessed| > 0 && Step(ctx, ps).Success?
    ensures RankHotPlots(ctx, ps.counters, ps.unprocessed).Success?
    ensures var n := Step(ctx, ps).value;
      && n.unprocessed == Remaining(ctx, ps)
      && multiset(n.unprocessed) + multiset{NextPlot(ctx, ps)} == multiset(ps.unprocessed)
  {
    RankHotPlotsIsStableSort(ctx, ps.counters, ps.unprocessed);
    var ranked := RankHotPlots(ctx, ps.counters, ps.unprocessed).value;
    assert ranked == [ranked[0]] + ranked[1..];
  }

  /** The head of the ranked eligible drives. */
  function BestEligible(ctx: Context, ps: PassState): HotPlotTargetDrive
    requires |ps.unprocessed| > 0 && RankHotPlots(ctx, ps.counters, ps.unprocessed).Success?
    requires Step(ctx, ps).Success? && |EligibleDrives(ctx, ps.counters, NextPlot(ctx, ps))| > 0
  {
    var drives := RankEligibleTargetDrives(ctx, ps.counters, EligibleDrives(ctx, ps.counters, NextPlot(ctx, ps)));
    RankEligiblePermutes(ctx, ps.counters, EligibleDrives(ctx, ps.counters, NextPlot(ctx, ps)));
    drives.value[0]
  }

  /** When some drive is eligible for the popped plot, the iteration pairs
      it with the head of the ranked eligible drives, a drive of the
      snapshot that is neither capped nor short of room, and charges the
      counters as `commit_pairing` does. (With no eligible drive the
      iteration records the plot as capped or as lacking space; see
      `PairingEngine.StepLeavesUnpaired`.) */
  lemma StepPairsWithBestEligible(ctx: Context, ps: PassState)
    requires |ps.unprocessed| > 0 && RankHotPlots(ctx, ps.counters, ps.unprocessed).Success?
    requires Step(ctx, ps).Success? && |EligibleDrives(ctx, ps.counters, NextPlot(ctx, ps))| > 0
    ensures var hp, td, c := NextPlot(ctx, ps), BestEligible(ctx, ps), ps.counters;
      && td in ctx.allHotPlotTargetDrives
      && !IsFrequencyCapped(ctx, c, hp, td) && HasEnoughSpace(c, hp, td)
      && Step(ctx, ps).value == ps.(counters := CommitCounters(c, hp, td), unprocessed := Remaining(ctx, ps),
                                    pairings := ps.pairings + [(hp, td)])
  {
    var c, hp, td := ps.counters, NextPlot(ctx, ps), BestEligible(ctx, ps);
    var eligible := EligibleDrives(ctx, c, hp);
    RankEligiblePermutes(ctx, c, eligible);
    assert td in multiset(eligible);
    DriveClassification(ctx, c, hp, td);
    StepPairs(ctx, ps, td);
  }

  lemma TallyPairing(ps: PassState, p: Pairing, c: Counters, u: seq<HotPlot>)
    ensures Tally(ps.(counters := c, unprocessed := u, pairings := ps.pairings + [p])) == Tally(ps) + multiset{p.0}
  {
    PairedPlotsSnoc(ps.pairings, p);
  }

  lemma TallyCapped(ps: PassState, hp: HotPlot, u: seq<HotPlot>)
    ensures Tally(ps.(unprocessed := u, unpairedDueToCapping := ps.unpairedDueToCapping + [hp])) == Tally(ps) + multiset{hp}
  {
  }

  lemma TallyLackOfSpace(ps: PassState, hp: HotPlot, u: seq<HotPlot>)
    ensures Tally(ps.(unprocessed := u, unpairedDueToLackOfSpace := ps.unpairedDueToLackOfSpace + [hp])) == Tally(ps) + multiset{hp}
  {
  }

  /** The settled plot joins the tally and the three lists only grow. */
  lemma StepTally(ctx: Context, ps: PassState)
    requires |ps.unprocessed| > 0 && RankHotPlots(ctx, ps.counters, ps.unprocessed).Success?
    requires Step(ctx, ps).Success?
    ensures var n := Step(ctx, ps).value;
      && Tally(n) == Tally(ps) + multiset{NextPlot(ctx, ps)}
      && ps.pairings <= n.pairings
      && ps.unpairedDueToCapping <= n.unpairedDueToCapping
      && ps.unpairedDueToLackOfSpace <= n.unpairedDueToLackOfSpace
  {
    var hp := NextPlot(ctx, ps);
    if |EligibleDrives(ctx, ps.counters, hp)| > 0 {
      StepPairsWithBestEligible(ctx, ps);
      var td := BestEligible(ctx, ps);
      TallyPairing(ps, (hp, td), CommitCounters(ps.counters, hp, td), Remaining(ctx, ps));
    } else {
      StepLeavesUnpaired(ctx, ps);
      TallyCapped(ps, hp, Remaining(ctx, ps));
      TallyLackOfSpace(ps, hp, Remaining(ctx, ps));
    }
  }

  /** An iteration moves its plot from the unprocessed list to the tally. */
  lemma StepConserves(ctx: Context, ps: PassState)
    requires |ps.unprocessed| > 0 && Step(ctx, ps).Success?
    ensures var n := Step(ctx, ps).value;
      && Tally(n) + multiset(n.unprocessed) == Tally(ps) + multiset(ps.unprocessed)
      && ps.pairings <= n.pairings
      && ps.unpairedDueToCapping <= n.unpairedDueToCapping
      && ps.unpairedDueToLackOfSpace <= n.unpairedDueToLackOfSpace
  {
    StepPopsNextPlot(ctx, ps);
    StepTally(ctx, ps);
  }

  // ---------------------------------------------------------------------
  // The whole pass

  /** `|pairings| + |capped| + |no space|` grows by the number of plots
      the pass started with, because each one is settled exactly once, and
      the three lists are only ever appended to. */
  lemma {:induction false} PassConservation(ctx: Context, ps: PassState)
    requires RunPass(ctx, ps).Success?
    ensures var r := RunPass(ctx, ps).value;
      && Tally(r) == Tally(ps) + multiset(ps.unprocessed)
      && ps.pairings <= r.pairings
      && ps.unpairedDueToCapping <= r.unpairedDueToCapping
      && ps.unpairedDueToLackOfSpace <= r.unpairedDueToLackOfSpace
    decreases |ps.unprocessed|
  {
    if |ps.unprocessed| > 0 {
      StepConserves(ctx, ps);
      PassConservation(ctx, Step(ctx, ps).value);
    }
  }

  // ---------------------------------------------------------------------
  // Per-source-drive outbound cap

  function FromSourceDrive(d: SourceDriveConfig): Pairing -> bool
  {
    (p: Pairing) => SourceDriveOf(p.0) == d
  }

  /** An iteration pairs from `d` only below `d`'s limit, and then adds
      one to `d`'s transfer count. */
  lemma StepSourceCount(ctx: Context, ps: PassState, d: SourceDriveConfig)
    requires |ps.unprocessed| > 0 && Step(ctx, ps).Success?
    ensures var n := Step(ctx, ps).value;
      var added := |Filter(n.pairings, FromSourceDrive(d))| - |Filter(ps.pairings, FromSourceDrive(d))|;
      && Get(n.counters.sourceDriveTransfersInFlight, d) == Get(ps.counters.sourceDriveTransfersInFlight, d) + added
      && (added == 0 || (added == 1 && Get(ps.counters.sourceDriveTransfersInFlight, d) < d.maxConcurrentOutboundTransfers))
  {
    StepPopsNextPlot(ctx, ps);
    var hp := NextPlot(ctx, ps);
    if |EligibleDrives(ctx, ps.counters, hp)| > 0 {
      StepPairsWithBestEligible(ctx, ps);
      FilterSnoc(ps.pairings, (hp, BestEligible(ctx, ps)), FromSourceDrive(d));
    } else {
      StepLeavesUnpaired(ctx, ps);
    }
  }

  /** Within a pass, the pairings taken from source drive `d` never exceed
      what its limit leaves over the transfers it had at the start. */
  lemma {:induction false} SourceDriveBound(ctx: Context, ps: PassState, d: SourceDriveConfig)
    requires RunPass(ctx, ps).Success?
    ensures var r := RunPass(ctx, ps).value;
      var added := |Filter(r.pairings, FromSourceDrive(d))| - |Filter(ps.pairings, FromSourceDrive(d))|;
      && added == Get(r.counters.sourceDriveTransfersInFlight, d) - Get(ps.counters.sourceDriveTransfersInFlight, d)
      && added <= Max0(d.maxConcurrentOutboundTransfers - Get(ps.counters.sourceDriveTransfersInFlight, d))
    decreases |ps.unprocessed|
  {
    if |ps.unprocessed| > 0 {
      StepSourceCount(ctx, ps, d);
      SourceDriveBound(ctx, Step(ctx, ps).value, d);
    }
  }

  // ---------------------------------------------------------------------
  // Remote-outbound cap

  const ToRemote: Pairing -> bool := (p: Pairing) => !p.1.IsLocal()

  /** Any pairing at all needs the remote-outbound count below its limit;
      a remote pairing adds one to it. */
  lemma StepRemoteCount(ctx: Context, ps: PassState)
    requires |ps.unprocessed| > 0 && Step(ctx, ps).Success?
    ensures var n := Step(ctx, ps).value;
      var added := |Filter(n.pairings, ToRemote)| - |Filter(ps.pairings, ToRemote)|;
      && n.counters.totalRemoteTransfersFromSourceHost == ps.counters.totalRemoteTransfersFromSourceHost + added
      && (ps.counters.totalRemoteTransfersFromSourceHost >= RemoteOutboundLimit(ctx) ==> n.pairings == ps.pairings)
      && (added == 0 || added == 1)
  {
    StepPopsNextPlot(ctx, ps);
    var hp := NextPlot(ctx, ps);
    if |EligibleDrives(ctx, ps.counters, hp)| > 0 {
      StepPairsWithBestEligible(ctx, ps);
      FilterSnoc(ps.pairings, (hp, BestEligible(ctx, ps)), ToRemote);
    } else {
      StepLeavesUnpaired(ctx, ps);
    }
  }

  /** Within a pass, the remote pairings never exceed what the
      remote-outbound limit leaves over the count at the start; once that
      count is at the limit, nothing is paired at all. */
  lemma {:induction false} RemoteTotalBound(ctx: Context, ps: PassState)
    requires RunPass(ctx, ps).Success?
    ensures var r := RunPass(ctx, ps).value;
      var added := |Filter(r.pairings, ToRemote)| - |Filter(ps.pairings, ToRemote)|;
      && added == r.counters.totalRemoteTransfersFromSourceHost - ps.counters.totalRemoteTransfersFromSourceHost
      && added <= Max0(RemoteOutboundLimit(ctx) - ps.counters.totalRemoteTransfersFromSourceHost)
      && (ps.counters.totalRemoteTransfersFromSourceHost >= RemoteOutboundLimit(ctx) ==> r.pairings == ps.pairings)
    decreases |ps.unprocessed|
  {
    if |ps.unprocessed| > 0 {
      var n := Step(ctx, ps).value;
      StepRemoteCount(ctx, ps);
      RemoteTotalBound(ctx, n);
    }
  }

  // ---------------------------------------------------------------------
  // Per-target-drive inbound cap

  function ToDrive(id: DriveId): Pairing -> bool
  {
    (p: Pairing) => p.1.Id() == id
  }

  /** An iteration pairs with drive `id` of a host limited to `n` only
      while the drive's transfer count is below `n`, and then adds one to
      that count. */
  lemma StepDriveCount(ctx: Context, ps: PassState, id: DriveId, n: int)
    requires |ps.unprocessed| > 0 && Step(ctx, ps).Success?
    requires id.0.InboundLimit() == AtMost(n)
    ensures var next := Step(ctx, ps).value;
      var added := |Filter(next.pairings, ToDrive(id))| - |Filter(ps.pairings, ToDrive(id))|;
      && Get(next.counters.targetDriveTransfersInFlight, id) == Get(ps.counters.targetDriveTransfersInFlight, id) + added
      && (added == 0 || (added == 1 && Get(ps.counters.targetDriveTransfersInFlight, id) < n))
  {
    StepPopsNextPlot(ctx, ps);
    var hp := NextPlot(ctx, ps);
    if |EligibleDrives(ctx, ps.counters, hp)| > 0 {
      StepPairsWithBestEligible(ctx, ps);
      FilterSnoc(ps.pairings, (hp, BestEligible(ctx, ps)), ToDrive(id));
    } else {
      StepLeavesUnpaired(ctx, ps);
    }
  }

  /** Within a pass, the pairings with a drive of a host limited to `n`
      never exceed what `n` leaves over that drive's count at the start. */
  lemma {:induction false} RemoteDriveBound(ctx: Context, ps: PassState, id: DriveId, n: int)
    requires RunPass(ctx, ps).Success?
    requires id.0.InboundLimit() == AtMost(n)
    ensures var r := RunPass(ctx, ps).value;
      var added := |Filter(r.pairings, ToDrive(id))| - |Filter(ps.pairings, ToDrive(id))|;
      && added == Get(r.counters.targetDriveTransfersInFlight, id) - Get(ps.counters.targetDriveTransfersInFlight, id)
      && added <= Max0(n - Get(ps.counters.targetDriveTransfersInFlight, id))
    decreases |ps.unprocessed|
  {
    if |ps.unprocessed| > 0 {
      StepDriveCount(ctx, ps, id, n);
      RemoteDriveBound(ctx, Step(ctx, ps).value, id, n);
    }
  }

  // ---------------------------------------------------------------------
  // Room on a target drive

  /** An iteration commits to drive `id` only when its free bytes, less
      1.05 times the bytes already committed, cover the plot. */
  lemma StepDriveBytes(ctx: Context, ps: PassState, id: DriveId, free: int)
    requires |ps.unprocessed| > 0 && Step(ctx, ps).Success?
    requires Get(ps.counters.targetDriveBytesInFlight, id) >= 0
    requires forall td :: td in ctx.allHotPlotTargetDrives && td.Id() == id ==> td.targetDriveInfo.freeBytes == free
    ensures var b, b' := Get(ps.counters.targetDriveBytesInFlight, id), Get(Step(ctx, ps).value.counters.targetDriveBytesInFlight, id);
      b <= b' && (b' == b || b' <= free)
  {
    StepPopsNextPlot(ctx, ps);
    if |EligibleDrives(ctx, ps.counters, NextPlot(ctx, ps))| > 0 {
      StepPairsWithBestEligible(ctx, ps);
    } else {
      StepLeavesUnpaired(ctx, ps);
    }
  }

  /** The bytes a pass commits to a drive never take it past its free
      bytes: the committed total ends at most at the larger of its start
      value and the drive's free bytes. */
  lemma {:induction false} DriveNeverOvercommitted(ctx: Context, ps: PassState, id: DriveId, free: int)
    requires RunPass(ctx, ps).Success?
    requires Get(ps.counters.targetDriveBytesInFlight, id) >= 0
    requires forall td :: td in ctx.allHotPlotTargetDrives && td.Id() == id ==> td.targetDriveInfo.freeBytes == free
    ensures var b, b' := Get(ps.counters.targetDriveBytesInFlight, id), Get(RunPass(ctx, ps).value.counters.targetDriveBytesInFlight, id);
      b <= b' && (b' == b || b' <= free)
    decreases |ps.unprocessed|
  {
    if |ps.unprocessed| > 0 {
      StepDriveBytes(ctx, ps, id, free);
      DriveNeverOvercommitted(ctx, Step(ctx, ps).value, id, free);
    }
  }

  // ---------------------------------------------------------------------
  // What `get_pairings_result` returns

  /** The final state of a pass that completes. */
  function FinalState(si: SourceInfo, ti: TargetsInfo): PassState
    requires PairingsOutcome(si, ti).Success?
  {
    RunPass(InitialContext(si, ti), InitialPassState(si, ti)).value
  }

  /** The recommendation of a completed pass: every initially unprocessed
      plot is settled once; pairings win over capping, capping over lack
      of space; a replacement is recommended only when every plot lacked
      space; and nothing is returned exactly when there was no plot. */
  lemma OutcomeMeaning(si: SourceInfo, ti: TargetsInfo)
    requires PairingsOutcome(si, ti).Success?
    ensures var f, u, r := FinalState(si, ti), InitialSourceSeed(si, ti).unprocessed, PairingsOutcome(si, ti).value;
      && Tally(f) == multiset(u)
      && (r.None? <==> |u| == 0)
      && (|f.pairings| > 0 <==> r == Some(EligiblePairingsResult(f.pairings)))
      && (r == Some(NoActionResult) <==> f.pairings == [] && |f.unpairedDueToCapping| > 0)
      && (r == Some(PlotReplacementResult) <==>
            |u| > 0 && f.pairings == [] && f.unpairedDueToCapping == [] && multiset(f.unpairedDueToLackOfSpace) == multiset(u))
  {
    PassConservation(InitialContext(si, ti), InitialPassState(si, ti));
  }

  /** Only plots that were unprocessed at the start are paired, so a plot
      already in flight is never paired again. */
  lemma SkippedNeverPaired(si: SourceInfo, ti: TargetsInfo, p: Pairing)
    requires PairingsOutcome(si, ti).Success?
    requires p in FinalState(si, ti).pairings
    ensures p.0 in InitialSourceSeed(si, ti).unprocessed
    ensures p.0 !in InitialSourceSeed(si, ti).skipped
  {
    OutcomeMeaning(si, ti);
    var f := FinalState(si, ti);
    PairedPlotsMembership(f.pairings, p);
    assert p.0 in multiset(InitialSourceSeed(si, ti).unprocessed);
    SourcePartition(SeedTargets(AllEntries(ti)).initialTransfersMap, AllHotPlots(si.sourceDriveInfos));
  }

  /** A pass takes from source drive `d` at most its limit less the
      transfers `__init__` counted for it ... */
  lemma OutcomeSourceBound(si: SourceInfo, ti: TargetsInfo, d: SourceDriveConfig)
    requires PairingsOutcome(si, ti).Success?
    ensures |Filter(FinalState(si, ti).pairings, FromSourceDrive(d))|
         <= Max0(d.maxConcurrentOutboundTransfers - Get(InitialPassState(si, ti).counters.sourceDriveTransfersInFlight, d))
  {
    assert InitialPassState(si, ti).pairings == [];
    SourceDriveBound(InitialContext(si, ti), InitialPassState(si, ti), d);
  }

  /** ... which are the plots of `d` already in flight. */
  lemma InitialSourceCount(si: SourceInfo, ti: TargetsInfo, d: SourceDriveConfig)
    ensures Get(InitialPassState(si, ti).counters.sourceDriveTransfersInFlight, d)
         == |Filter(InitialSourceSeed(si, ti).skipped, FromDrive(d))|
  {
    SourceTransfersMeaning(SeedTargets(AllEntries(ti)).initialTransfersMap, AllHotPlots(si.sourceDriveInfos), d);
  }

  /** A pass pairs at most the remote-outbound limit less the remote
      transfers `__init__` counted ... */
  lemma OutcomeRemoteBound(si: SourceInfo, ti: TargetsInfo)
    requires PairingsOutcome(si, ti).Success?
    ensures |Filter(FinalState(si, ti).pairings, ToRemote)|
         <= Max0(RemoteOutboundLimit(InitialContext(si, ti)) - InitialPassState(si, ti).counters.totalRemoteTransfersFromSourceHost)
  {
    assert InitialPassState(si, ti).pairings == [];
    RemoteTotalBound(InitialContext(si, ti), InitialPassState(si, ti));
  }

  /** ... which are the in-flight transfers of source plots heading to
      remote hosts. */
  lemma InitialRemoteCount(si: SourceInfo, ti: TargetsInfo)
    ensures var tm := SeedTargets(AllEntries(ti)).initialTransfersMap;
      InitialPassState(si, ti).counters.totalRemoteTransfersFromSourceHost
         == |Filter(InitialSourceSeed(si, ti).skipped, MatchedRemote(tm))|
  {
    SourceRemoteMeaning(SeedTargets(AllEntries(ti)).initialTransfersMap, AllHotPlots(si.sourceDriveInfos));
  }

  /** Because the per-drive transfer count starts empty, a pass may pair up
      to the host's limit with a remote drive however many transfers to it
      are already in flight. */
  lemma OutcomeRemoteDriveBound(si: SourceInfo, ti: TargetsInfo, id: DriveId, n: int)
    requires PairingsOutcome(si, ti).Success?
    requires id.0.InboundLimit() == AtMost(n)
    ensures |Filter(FinalState(si, ti).pairings, ToDrive(id))| <= Max0(n)
  {
    RemoteDriveBound(InitialContext(si, ti), InitialPassState(si, ti), id, n);
  }
}
