/** hotplots/hotplots_pairing_engine.py: one pass that pairs every
    unprocessed hot plot with a target drive or records why it could not,
    then turns the outcome into a recommendation. */
module PairingEngine {
  import opened Wrappers
  import opened Config
  import opened Models
  import opened Ordering
  import opened Sorting
  import opened Seqs
  import opened PairingQueries
  import opened PairingSeeding
  import opened PairingStates

  datatype PairingsResult =
    | EligiblePairingsResult(pairings: seq<Pairing>)
    | NoActionResult
    | PlotReplacementResult

  // ---------------------------------------------------------------------
  // Sorting the target drives for one plot

  function CappedFor(ctx: Context, c: Counters, hp: HotPlot): HotPlotTargetDrive -> bool
  {
    (td: HotPlotTargetDrive) => IsFrequencyCapped(ctx, c, hp, td)
  }

  function FilledFor(ctx: Context, c: Counters, hp: HotPlot): HotPlotTargetDrive -> bool
  {
    (td: HotPlotTargetDrive) => !IsFrequencyCapped(ctx, c, hp, td) && !HasEnoughSpace(c, hp, td)
  }

  function EligibleFor(ctx: Context, c: Counters, hp: HotPlot): HotPlotTargetDrive -> bool
  {
    (td: HotPlotTargetDrive) => !IsFrequencyCapped(ctx, c, hp, td) && HasEnoughSpace(c, hp, td)
  }

  /** The capped drives, in the order of `get_all_hot_plot_target_drives`. */
  function CappedDrives(ctx: Context, c: Counters, hp: HotPlot): seq<HotPlotTargetDrive>
  {
    Filter(ctx.allHotPlotTargetDrives, CappedFor(ctx, c, hp))
  }

  /** The drives that are not capped but lack room for the plot. */
  function FilledDrives(ctx: Context, c: Counters, hp: HotPlot): seq<HotPlotTargetDrive>
  {
    Filter(ctx.allHotPlotTargetDrives, FilledFor(ctx, c, hp))
  }

  /** The drives that are neither capped nor short of room. */
  function EligibleDrives(ctx: Context, c: Counters, hp: HotPlot): seq<HotPlotTargetDrive>
  {
    Filter(ctx.allHotPlotTargetDrives, EligibleFor(ctx, c, hp))
  }

  /** Every target drive falls in exactly one of the three lists. */
  lemma DrivesPartition(ctx: Context, c: Counters, hp: HotPlot)
    ensures multiset(CappedDrives(ctx, c, hp)) + multiset(FilledDrives(ctx, c, hp)) + multiset(EligibleDrives(ctx, c, hp))
         == multiset(ctx.allHotPlotTargetDrives)
  {
    ThreeWayPermutes(ctx.allHotPlotTargetDrives, CappedFor(ctx, c, hp), FilledFor(ctx, c, hp), EligibleFor(ctx, c, hp));
  }

  /** Each list holds exactly the drives its rule names. */
  lemma DriveClassification(ctx: Context, c: Counters, hp: HotPlot, td: HotPlotTargetDrive)
    ensures td in CappedDrives(ctx, c, hp) <==> td in ctx.allHotPlotTargetDrives && IsFrequencyCapped(ctx, c, hp, td)
    ensures td in FilledDrives(ctx, c, hp) <==>
              td in ctx.allHotPlotTargetDrives && !IsFrequencyCapped(ctx, c, hp, td) && !HasEnoughSpace(c, hp, td)
    ensures td in EligibleDrives(ctx, c, hp) <==>
              td in ctx.allHotPlotTargetDrives && !IsFrequencyCapped(ctx, c, hp, td) && HasEnoughSpace(c, hp, td)
  {
    FilterMembership(ctx.allHotPlotTargetDrives, CappedFor(ctx, c, hp), td);
    FilterMembership(ctx.allHotPlotTargetDrives, FilledFor(ctx, c, hp), td);
    FilterMembership(ctx.allHotPlotTargetDrives, EligibleFor(ctx, c, hp), td);
  }

  /** The loop over `get_all_hot_plot_target_drives` in
      `get_pairings_result`. */
  method SortTargetDrives(state: PairingState, hp: HotPlot)
    returns (capped: seq<HotPlotTargetDrive>, filled: seq<HotPlotTargetDrive>, eligible: seq<HotPlotTargetDrive>)
    ensures capped == CappedDrives(state.Ctx(), state.CurrentCounters(), hp)
    ensures filled == FilledDrives(state.Ctx(), state.CurrentCounters(), hp)
    ensures eligible == EligibleDrives(state.Ctx(), state.CurrentCounters(), hp)
  {
    var ctx, c := state.Ctx(), state.CurrentCounters();
    var drives := state.allHotPlotTargetDrives;
    capped, filled, eligible := [], [], [];
    for i := 0 to |drives|
      invariant capped == Filter(drives[..i], CappedFor(ctx, c, hp))
      invariant filled == Filter(drives[..i], FilledFor(ctx, c, hp))
      invariant eligible == Filter(drives[..i], EligibleFor(ctx, c, hp))
    {
      var td := drives[i];
      assert drives[..i + 1] == drives[..i] + [td];
      FilterSnoc(drives[..i], td, CappedFor(ctx, c, hp));
      FilterSnoc(drives[..i], td, FilledFor(ctx, c, hp));
      FilterSnoc(drives[..i], td, EligibleFor(ctx, c, hp));
      if IsFrequencyCapped(ctx, c, hp, td) {
        capped := capped + [td];
      } else if !HasEnoughSpace(c, hp, td) {
        filled := filled + [td];
      } else {
        eligible := eligible + [td];
      }
    }
    assert drives[..|drives|] == drives;
  }

  // ---------------------------------------------------------------------
  // The pass as a function of the pass state

  /** Plots handled so far, however they ended. */
  function Settled(ps: PassState): nat
  {
    |ps.pairings| + |ps.unpairedDueToCapping| + |ps.unpairedDueToLackOfSpace|
  }

  /** The plot one iteration pops: the head of the re-ranked list. */
  function NextPlot(ctx: Context, ps: PassState): HotPlot
    requires |ps.unprocessed| > 0 && RankHotPlots(ctx, ps.counters, ps.unprocessed).Success?
  {
    RankHotPlots(ctx, ps.counters, ps.unprocessed).value[0]
  }

  /** The plots still unprocessed after that pop. */
  function Remaining(ctx: Context, ps: PassState): seq<HotPlot>
    requires |ps.unprocessed| > 0 && RankHotPlots(ctx, ps.counters, ps.unprocessed).Success?
  {
    RankHotPlots(ctx, ps.counters, ps.unprocessed).value[1..]
  }

  /** One iteration of the `while` loop of `get_pairings_result`: exactly
      one plot leaves the unprocessed list and is settled in exactly one
      way. */
  function Step(ctx: Context, ps: PassState): (r: Result<PassState, PassError>)
    requires |ps.unprocessed| > 0
    ensures r.Success? ==> |r.value.unprocessed| + 1 == |ps.unprocessed| && Settled(r.value) == Settled(ps) + 1
  {
    match RankHotPlots(ctx, ps.counters, ps.unprocessed)
    case Failure(e) => Failure(e)
    case Success(ranked) =>
      var hp := ranked[0];
      var c := ps.counters;
      var eligible := EligibleDrives(ctx, c, hp);
      if |eligible| > 0 then
        match RankEligibleTargetDrives(ctx, c, eligible)
        case Failure(e) => Failure(e)
        case Success(drives) =>
          var td := drives[0];
          Success(ps.(counters := CommitCounters(c, hp, td), unprocessed := ranked[1..], pairings := ps.pairings + [(hp, td)]))
      else if |CappedDrives(ctx, c, hp)| > 0 then
        Success(ps.(unprocessed := ranked[1..], unpairedDueToCapping := ps.unpairedDueToCapping + [hp]))
      else
        Success(ps.(unprocessed := ranked[1..], unpairedDueToLackOfSpace := ps.unpairedDueToLackOfSpace + [hp]))
  }

  /** The whole loop: every unprocessed plot is settled, or the first
      error raised ends the pass. */
  function RunPass(ctx: Context, ps: PassState): (r: Result<PassState, PassError>)
    ensures r.Success? ==> r.value.unprocessed == [] && Settled(r.value) == Settled(ps) + |ps.unprocessed|
    decreases |ps.unprocessed|
  {
    if |ps.unprocessed| == 0 then Success(ps)
    else
      match Step(ctx, ps)
      case Failure(e) => Failure(e)
      case Success(next) => RunPass(ctx, next)
  }

  /** The recommendation from the settled plots: pairings first, then
      capping, then lack of space; with nothing to settle the source
      returns no result at all. */
  function Classify(ps: PassState): (r: Option<PairingsResult>)
    ensures r.None? <==> Settled(ps) == 0
  {
    if |ps.pairings| > 0 then Some(EligiblePairingsResult(ps.pairings))
    else if |ps.unpairedDueToCapping| > 0 then Some(NoActionResult)
    else if |ps.unpairedDueToLackOfSpace| > 0 then Some(PlotReplacementResult)
    else None
  }

  /** `get_pairings_result` on a snapshot, errors included. */
  function PairingsOutcome(si: SourceInfo, ti: TargetsInfo): Result<Option<PairingsResult>, PassError>
  {
    match SnapshotError(si, ti)
    case Some(e) => Failure(e)
    case None =>
      match RunPass(InitialContext(si, ti), InitialPassState(si, ti))
      case Failure(e) => Failure(e)
      case Success(final) => Success(Classify(final))
  }

  // The four ways one iteration can end, one lemma each.

  lemma StepRankingFails(ctx: Context, ps: PassState)
    requires |ps.unprocessed| > 0 && RankHotPlots(ctx, ps.counters, ps.unprocessed).Failure?
    ensures Step(ctx, ps) == Failure(RankHotPlots(ctx, ps.counters, ps.unprocessed).error)
  {
  }

  lemma StepTargetRankingFails(ctx: Context, ps: PassState)
    requires |ps.unprocessed| > 0 && RankHotPlots(ctx, ps.counters, ps.unprocessed).Success?
    requires var hp := NextPlot(ctx, ps);
             && |EligibleDrives(ctx, ps.counters, hp)| > 0
             && RankEligibleTargetDrives(ctx, ps.counters, EligibleDrives(ctx, ps.counters, hp)).Failure?
    ensures Step(ctx, ps) == Failure(RankEligibleTargetDrives(ctx, ps.counters, EligibleDrives(ctx, ps.counters, NextPlot(ctx, ps))).error)
  {
  }

  /** With a target strategy no branch recognises, the first plot that
      has an eligible drive ends the pass with that error. */
  lemma StepUnmatchedTargetStrategy(ctx: Context, ps: PassState)
    requires ctx.targetsInfo.targetsConfig.selectionStrategy == UnrecognizedTargetStrategy
    requires |ps.unprocessed| > 0 && RankHotPlots(ctx, ps.counters, ps.unprocessed).Success?
    requires |EligibleDrives(ctx, ps.counters, NextPlot(ctx, ps))| > 0
    ensures Step(ctx, ps) == Failure(UnmatchedTargetStrategy)
  {
    StepTargetRankingFails(ctx, ps);
  }

  lemma StepPairs(ctx: Context, ps: PassState, td: HotPlotTargetDrive)
    requires |ps.unprocessed| > 0 && RankHotPlots(ctx, ps.counters, ps.unprocessed).Success?
    requires var hp := NextPlot(ctx, ps);
             var ranked := RankEligibleTargetDrives(ctx, ps.counters, EligibleDrives(ctx, ps.counters, hp));
             && |EligibleDrives(ctx, ps.counters, hp)| > 0
             && ranked.Success? && |ranked.value| > 0 && ranked.value[0] == td
    ensures var hp := NextPlot(ctx, ps);
            Step(ctx, ps) == Success(ps.(counters := CommitCounters(ps.counters, hp, td), unprocessed := Remaining(ctx, ps),
                                         pairings := ps.pairings + [(hp, td)]))
  {
  }

  lemma StepLeavesUnpaired(ctx: Context, ps: PassState)
    requires |ps.unprocessed| > 0 && RankHotPlots(ctx, ps.counters, ps.unprocessed).Success?
    requires |EligibleDrives(ctx, ps.counters, NextPlot(ctx, ps))| == 0
    ensures var hp := NextPlot(ctx, ps);
            Step(ctx, ps) == Success(
              if |CappedDrives(ctx, ps.counters, hp)| > 0
              then ps.(unprocessed := Remaining(ctx, ps), unpairedDueToCapping := ps.unpairedDueToCapping + [hp])
              else ps.(unprocessed := Remaining(ctx, ps), unpairedDueToLackOfSpace := ps.unpairedDueToLackOfSpace + [hp]))
  {
  }

  /** The body of the `while` loop of `get_pairings_result`: pop the next
      plot, sort the target drives for it, and commit a pairing or the
      reason there is none. `Some` is the error the iteration raises. */
  method ProcessNextHotPlot(state: PairingState) returns (err: Option<PassError>)
    requires |state.unprocessedHotPlots| > 0
    modifies state`unprocessedHotPlots, state`pairings,
      state`unpairedHotPlotsDueToCapping, state`unpairedHotPlotsDueToLackOfSpace,
      state`totalRemoteTransfersFromSourceHost, state`sourceDriveTransfersInFlight, state`sourceDriveBytesInFlight,
      state`targetHostTransfersInFlight, state`targetDriveTransfersInFlight, state`targetDriveBytesInFlight
    ensures state.Ctx() == old(state.Ctx())
    ensures err.None? ==> Step(state.Ctx(), old(state.View())) == Success(state.View())
    ensures err.Some? ==> Step(state.Ctx(), old(state.View())) == Failure(err.value)
  {
    ghost var ctx, before := state.Ctx(), state.View();
    var popped := state.PopNextUnprocessedHotPlot();
    if popped.Failure? {
      StepRankingFails(ctx, before);
      assert state.View() == before;
      return Some(popped.error);
    }
    err := SettleHotPlot(state, popped.value, ctx, before);
  }

  /** What the loop body does once the plot `hp` has been popped. */
  method SettleHotPlot(state: PairingState, hp: HotPlot, ghost ctx: Context, ghost before: PassState)
    returns (err: Option<PassError>)
    requires |before.unprocessed| > 0 && RankHotPlots(ctx, before.counters, before.unprocessed).Success?
    requires hp == NextPlot(ctx, before)
    requires state.Ctx() == ctx && state.View() == before.(unprocessed := Remaining(ctx, before))
    modifies state`pairings, state`unpairedHotPlotsDueToCapping, state`unpairedHotPlotsDueToLackOfSpace,
      state`totalRemoteTransfersFromSourceHost, state`sourceDriveTransfersInFlight, state`sourceDriveBytesInFlight,
      state`targetHostTransfersInFlight, state`targetDriveTransfersInFlight, state`targetDriveBytesInFlight
    ensures state.Ctx() == ctx
    ensures err.None? ==> Step(ctx, before) == Success(state.View())
    ensures err.Some? ==> Step(ctx, before) == Failure(err.value)
  {
    var capped, filled, eligible := SortTargetDrives(state, hp);
    if |eligible| > 0 {
      err := PairWithBestDrive(state, hp, eligible, ctx, before);
    } else {
      StepLeavesUnpaired(ctx, before);
      if |capped| > 0 {
        state.CommitUnpairedDueToCapping(hp);
      } else {
        state.CommitUnpairedDueToLackOfSpace(hp);
      }
      err := None;
    }
  }

  /** The eligible branch: rank the eligible drives and pair `hp` with the
      first of them. */
  method PairWithBestDrive(state: PairingState, hp: HotPlot, eligible: seq<HotPlotTargetDrive>,
                           ghost ctx: Context, ghost before: PassState)
    returns (err: Option<PassError>)
    requires |before.unprocessed| > 0 && RankHotPlots(ctx, before.counters, before.unprocessed).Success?
    requires hp == NextPlot(ctx, before)
    requires state.Ctx() == ctx && state.View() == before.(unprocessed := Remaining(ctx, before))
    requires eligible == EligibleDrives(ctx, before.counters, hp) && |eligible| > 0
    modifies state`pairings,
      state`totalRemoteTransfersFromSourceHost, state`sourceDriveTransfersInFlight, state`sourceDriveBytesInFlight,
      state`targetHostTransfersInFlight, state`targetDriveTransfersInFlight, state`targetDriveBytesInFlight
    ensures state.Ctx() == ctx
    ensures err.None? ==> Step(ctx, before) == Success(state.View())
    ensures err.Some? ==> Step(ctx, before) == Failure(err.value)
  {
    var ranked := RankEligibleTargetDrives(state.Ctx(), state.CurrentCounters(), eligible);
    if ranked.Failure? {
      StepTargetRankingFails(ctx, before);
      return Some(ranked.error);
    }
    RankEligiblePermutes(state.Ctx(), state.CurrentCounters(), eligible);
    StepPairs(ctx, before, ranked.value[0]);
    state.CommitPairing(hp, ranked.value[0]);
    err := None;
  }

  /** `HotplotsPairingEngine.get_pairings_result`. */
  method GetPairingsResult(si: SourceInfo, ti: TargetsInfo) returns (r: Result<Option<PairingsResult>, PassError>)
    ensures r == PairingsOutcome(si, ti)
  {
    var err := SnapshotError(si, ti);
    if err.Some? {
      return Failure(err.value);
    }
    var state := new PairingState(si, ti);
    ghost var ctx := InitialContext(si, ti);
    ghost var start := InitialPassState(si, ti);
    while |state.unprocessedHotPlots| > 0
      invariant state.Ctx() == ctx
      invariant RunPass(ctx, state.View()) == RunPass(ctx, start)
      decreases |state.unprocessedHotPlots|
    {
      ghost var before := state.View();
      var failed := ProcessNextHotPlot(state);
      if failed.Some? {
        return Failure(failed.value);
      }
    }
    if |state.pairings| > 0 {
      r := Success(Some(EligiblePairingsResult(state.pairings)));
    } else if |state.unpairedHotPlotsDueToCapping| > 0 {
      r := Success(Some(NoActionResult));
    } else if |state.unpairedHotPlotsDueToLackOfSpace| > 0 {
      r := Success(Some(PlotReplacementResult));
    } else {
      r := Success(None);
    }
  }
}
