/** The one-shot mover of the root-level hotplots.py: every source plot
    that is not already being transferred goes to the emptiest idle
    destination, and the destination is marked busy so that the rest of
    the run leaves it alone. Listing the directories, reading free space
    and starting rsync are inputs and outputs of this model, not part of
    it. */
module LegacyHotplots {
  import opened Wrappers
  import opened Ordering
  import opened Sorting
  import opened Seqs
  import opened Strings
  import opened PlotNames

  // ---------------------------------------------------------------------
  // `parse_plot_filename_metadata`

  /** The older parser keeps every field, the k-size included, as text. */
  datatype LegacyMetadata = LegacyMetadata(
    ksize: string, year: string, month: string, day: string, hour: string, minute: string, plotId: string)

  /** Only the basename is read. A name with a leading '.' must split on
      '.' into four pieces and any other name into two; the stem must split
      on '-' into eight fields, of which the first is dropped. */
  function LegacyParse(plotFilename: string): Result<LegacyMetadata, ParseError>
  {
    var basename := Basename(plotFilename);
    var pieces := Split(basename, '.');
    var stem :=
      if StartsWith(basename, '.') then (if |pieces| == 4 then Some(pieces[1]) else None)
      else (if |pieces| == 2 then Some(pieces[0]) else None);
    match stem
    case None => Failure(WrongDotCount(basename))
    case Some(stem) =>
      var f := Split(stem, '-');
      if |f| != 8 then Failure(WrongFieldCount(stem))
      else Success(LegacyMetadata(f[1], f[2], f[3], f[4], f[5], f[6], f[7]))
  }

  /** The older parser accepts every name the newer one accepts and reads
      the same fields from it; it rejects a name only where the newer one
      does too, the one extra rule of the newer one being that the k-size
      field, stripped of its 'k's, is a number. */
  lemma LegacyParseAgrees(plotFilename: string)
    ensures var legacy, current := LegacyParse(plotFilename), ParseFromFilename(plotFilename);
      && (legacy.Failure? ==> current == Failure(legacy.error))
      && (current.Success? ==>
            && legacy.Success?
            && ParseInt(Strip(legacy.value.ksize, 'k')) == Some(current.value.k)
            && legacy.value.plotId == current.value.plotId
            && [legacy.value.year, legacy.value.month, legacy.value.day, legacy.value.hour, legacy.value.minute]
               == [current.value.year, current.value.month, current.value.day, current.value.hour, current.value.minute])
  {
  }

  /** The hidden form of a transfer in progress parses like the complete
      name, so both give the same plot id. */
  lemma LegacyHiddenFormParsesLikeComplete(stem: string, ext: string, suffix: string)
    requires |stem| > 0
    requires '.' !in stem && '.' !in ext && '.' !in suffix
    requires '/' !in stem && '/' !in ext && '/' !in suffix
    ensures LegacyParse("." + stem + "." + ext + "." + suffix) == LegacyParse(stem + "." + ext)
  {
    var hidden := "." + stem + "." + ext + "." + suffix;
    var complete := stem + "." + ext;
    HiddenPieces(stem, ext, suffix);
    CompletePieces(stem, ext);
    assert stem[0] != '.';
    assert StartsWith(hidden, '.');
    assert complete[0] == stem[0];
  }

  // ---------------------------------------------------------------------
  // Destinations

  datatype DestinationConfig =
    | LocalDestination(dir: string)
    | RemoteDestination(hostname: string, port: int, username: string, dir: string)

  /** What `get_destination_info` returns: the free bytes and the hidden
      in-flight file names found in the destination directory. */
  datatype Destination = Destination(config: DestinationConfig, freeBytes: int, inFlightTransfers: seq<string>)

  /** A source plot as `run` builds it; the name is parsed separately. */
  datatype SourcePlotFile = SourcePlotFile(absoluteReference: string, size: nat)

  /** Every in-flight name, destination by destination: the order in which
      the nested loops of `is_already_being_transferred` visit them. */
  function InFlightNames(dests: seq<Destination>): seq<string>
    decreases |dests|
  {
    if |dests| == 0 then [] else dests[0].inFlightTransfers + InFlightNames(dests[1..])
  }

  /** The scan over the in-flight names: the first name whose id matches
      answers `true`; a name that does not parse raises on the spot. */
  function TransfersMatch(names: seq<string>, plotId: string): Result<bool, ParseError>
    decreases |names|
  {
    if |names| == 0 then Success(false)
    else match LegacyParse(names[0])
      case Failure(e) => Failure(e)
      case Success(m) => if plotId == m.plotId then Success(true) else TransfersMatch(names[1..], plotId)
  }

  /** `is_already_being_transferred`, given the source plot's id. */
  function IsAlreadyBeingTransferred(dests: seq<Destination>, plotId: string): Result<bool, ParseError>
  {
    TransfersMatch(InFlightNames(dests), plotId)
  }

  /** When every in-flight name parses, the answer is whether one of them
      carries the plot's id; an error means some name does not parse, and
      `true` means some name carries the id. */
  lemma {:induction false} TransfersMatchMeaning(names: seq<string>, plotId: string)
    ensures var r := TransfersMatch(names, plotId);
      && ((forall i :: 0 <= i < |names| ==> LegacyParse(names[i]).Success?) ==>
            r == Success(exists i :: 0 <= i < |names| && LegacyParse(names[i]).value.plotId == plotId))
      && (r.Failure? ==> exists i :: 0 <= i < |names| && LegacyParse(names[i]) == Failure(r.error))
      && (r == Success(true) ==>
            exists i :: 0 <= i < |names| && LegacyParse(names[i]).Success? && LegacyParse(names[i]).value.plotId == plotId)
    decreases |names|
  {
    if |names| > 0 {
      var rest := names[1..];
      TransfersMatchMeaning(rest, plotId);
      assert forall i :: 0 <= i < |rest| ==> rest[i] == names[i + 1];
      if LegacyParse(names[0]).Success? && LegacyParse(names[0]).value.plotId != plotId {
        if forall i :: 0 <= i < |names| ==> LegacyParse(names[i]).Success? {
          assert forall i :: 0 <= i < |rest| ==> LegacyParse(rest[i]).Success?;
          if exists i :: 0 <= i < |names| && LegacyParse(names[i]).value.plotId == plotId {
            var i :| 0 <= i < |names| && LegacyParse(names[i]).value.plotId == plotId;
            assert LegacyParse(rest[i - 1]).value.plotId == plotId;
          }
        }
      }
    }
  }

  lemma {:induction false} TransfersMatchConcat(a: seq<string>, b: seq<string>, plotId: string)
    ensures TransfersMatch(a + b, plotId)
         == if TransfersMatch(a, plotId) == Success(false) then TransfersMatch(b, plotId) else TransfersMatch(a, plotId)
    decreases |a|
  {
    if |a| > 0 {
      assert (a + b)[0] == a[0] && (a + b)[1..] == a[1..] + b;
      TransfersMatchConcat(a[1..], b, plotId);
    } else {
      assert a + b == b;
    }
  }

  lemma {:induction false} InFlightNamesConcat(a: seq<Destination>, b: seq<Destination>)
    ensures InFlightNames(a + b) == InFlightNames(a) + InFlightNames(b)
    decreases |a|
  {
    if |a| > 0 {
      assert (a + b)[0] == a[0] && (a + b)[1..] == a[1..] + b;
      InFlightNamesConcat(a[1..], b);
    } else {
      assert a + b == b;
    }
  }

  /** Appending one name to destination `i` inserts it right after that
      destination's other names. */
  lemma InFlightNamesAppend(dests: seq<Destination>, i: int, name: string)
    requires 0 <= i < |dests|
    ensures var d := dests[i].(inFlightTransfers := dests[i].inFlightTransfers + [name]);
      && InFlightNames(dests) == InFlightNames(dests[..i]) + dests[i].inFlightTransfers + InFlightNames(dests[i + 1..])
      && InFlightNames(dests[i := d]) == InFlightNames(dests[..i]) + dests[i].inFlightTransfers + [name] + InFlightNames(dests[i + 1..])
  {
    var d := dests[i].(inFlightTransfers := dests[i].inFlightTransfers + [name]);
    assert dests == dests[..i] + [dests[i]] + dests[i + 1..];
    assert dests[i := d] == dests[..i] + [d] + dests[i + 1..];
    InFlightNamesConcat(dests[..i] + [dests[i]], dests[i + 1..]);
    InFlightNamesConcat(dests[..i], [dests[i]]);
    InFlightNamesConcat(dests[..i] + [d], dests[i + 1..]);
    InFlightNamesConcat(dests[..i], [d]);
    assert InFlightNames([dests[i]]) == dests[i].inFlightTransfers;
    assert InFlightNames([d]) == d.inFlightTransfers;
  }

  // ---------------------------------------------------------------------
  // `choose_destination`

  /** The filter of `choose_destination`: strictly more free bytes than the
      plot's size, and no transfer already in progress. */
  predicate Idle(d: Destination, size: int)
  {
    d.freeBytes > size && |d.inFlightTransfers| == 0
  }

  function Positions(n: nat): (r: seq<int>)
    ensures |r| == n && forall i :: 0 <= i < n ==> r[i] == i
  {
    seq(n, i => i)
  }

  function IdleAt(dests: seq<Destination>, size: int): int -> bool
  {
    (i: int) => 0 <= i < |dests| && Idle(dests[i], size)
  }

  /** `sort(key=free_bytes, reverse=True)`: the stable sort on the negated
      free bytes. */
  function MostFreeFirst(dests: seq<Destination>): int -> Key
  {
    (i: int) => if 0 <= i < |dests| then Negate(Rat(dests[i].freeBytes, 1)) else Rat(0, 1)
  }

  /** The positions of the idle destinations, in list order. */
  function IdlePositions(dests: seq<Destination>, size: int): seq<int>
  {
    Filter(Positions(|dests|), IdleAt(dests, size))
  }

  /** The filtered list keeps the destinations in their order and the sort
      works on these positions, so the result names the very destination
      `run` then updates. None when no destination is idle. */
  function ChooseDestination(dests: seq<Destination>, size: int): Option<int>
  {
    var eligible := IdlePositions(dests, size);
    if |eligible| == 0 then None else Some(SortBy(eligible, MostFreeFirst(dests))[0])
  }

  /** The filtered positions are increasing. */
  lemma {:induction false} FilterPositionsIncreasing(n: nat, p: int -> bool)
    ensures forall a, b :: 0 <= a < b < |Filter(Positions(n), p)| ==> Filter(Positions(n), p)[a] < Filter(Positions(n), p)[b]
    ensures forall a :: 0 <= a < |Filter(Positions(n), p)| ==> 0 <= Filter(Positions(n), p)[a] < n
    decreases n
  {
    if n > 0 {
      FilterPositionsIncreasing(n - 1, p);
      assert Positions(n) == Positions(n - 1) + [n - 1];
      FilterSnoc(Positions(n - 1), n - 1, p);
    }
  }

  lemma IdlePositionsIncreasing(dests: seq<Destination>, size: int)
    ensures var e := IdlePositions(dests, size);
      forall a, b :: 0 <= a < b < |e| ==> e[a] < e[b]
  {
    FilterPositionsIncreasing(|dests|, IdleAt(dests, size));
  }

  lemma IdlePositionsMembership(dests: seq<Destination>, size: int, j: int)
    ensures j in IdlePositions(dests, size) <==> 0 <= j < |dests| && Idle(dests[j], size)
  {
    FilterMembership(Positions(|dests|), IdleAt(dests, size), j);
    if 0 <= j < |dests| {
      assert Positions(|dests|)[j] == j;
    }
  }

  /** `choose_destination` answers None exactly when no destination is
      idle. */
  lemma ChooseDestinationNone(dests: seq<Destination>, size: int)
    ensures ChooseDestination(dests, size).None? <==> forall j :: 0 <= j < |dests| ==> !Idle(dests[j], size)
  {
    if ChooseDestination(dests, size).None? {
      forall j | 0 <= j < |dests|
        ensures !Idle(dests[j], size)
      {
        IdlePositionsMembership(dests, size, j);
      }
    } else {
      var e := IdlePositions(dests, size);
      assert e[0] in e;
      IdlePositionsMembership(dests, size, e[0]);
    }
  }

  /** Otherwise it answers an idle destination with the most free bytes,
      the first of them in list order when several tie. */
  lemma ChooseDestinationBest(dests: seq<Destination>, size: int)
    requires ChooseDestination(dests, size).Some?
    ensures var i := ChooseDestination(dests, size).value;
      && 0 <= i < |dests| && Idle(dests[i], size)
      && (forall j :: 0 <= j < |dests| && Idle(dests[j], size) ==> dests[j].freeBytes <= dests[i].freeBytes)
      && (forall j :: 0 <= j < i && Idle(dests[j], size) ==> dests[j].freeBytes < dests[i].freeBytes)
  {
    var key := MostFreeFirst(dests);
    var e := IdlePositions(dests, size);
    IdlePositionsIncreasing(dests, size);
    SortByHead(e, key);
    FirstMinIndexIsFirstMinimum(e, key);
    var m := FirstMinIndex(e, key);
    var best := e[m];
    IdlePositionsMembership(dests, size, best);
    forall j | 0 <= j < |dests| && Idle(dests[j], size)
      ensures dests[j].freeBytes <= dests[best].freeBytes
    {
      IdlePositionsMembership(dests, size, j);
      var a :| 0 <= a < |e| && e[a] == j;
      assert KeyLe(key(e[m]), key(e[a]));
      NegateReverses(Rat(dests[best].freeBytes, 1), Rat(dests[j].freeBytes, 1));
    }
    forall j | 0 <= j < best && Idle(dests[j], size)
      ensures dests[j].freeBytes < dests[best].freeBytes
    {
      IdlePositionsMembership(dests, size, j);
      var a :| 0 <= a < |e| && e[a] == j;
      assert a < m;
      assert KeyLt(key(e[m]), key(e[a]));
      NegateReverses(Rat(dests[best].freeBytes, 1), Rat(dests[j].freeBytes, 1));
    }
  }

  // ---------------------------------------------------------------------
  // `run`

  datatype Move = Move(plot: SourcePlotFile, destination: int)

  /** The destinations as `run` has updated them and the `move_plot` calls
      made so far. */
  datatype RunState = RunState(dests: seq<Destination>, moves: seq<Move>)

  datatype RunError =
    | MalformedPlotName(error: ParseError)   // ValueError from the parser
    | NoIdleDestination                      // the None `choose_destination` returns is subscripted

  /** The file name `run` records on the destination in place of the
      transfer it starts. */
  function TransferMarker(p: SourcePlotFile): string
  {
    "." + Basename(p.absoluteReference) + ".xxxxx"
  }

  /** One iteration of the inner loop of `run`. */
  function HandlePlot(s: RunState, p: SourcePlotFile): Result<RunState, RunError>
  {
    match LegacyParse(p.absoluteReference)
    case Failure(e) => Failure(MalformedPlotName(e))
    case Success(m) =>
      match IsAlreadyBeingTransferred(s.dests, m.plotId)
      case Failure(e) => Failure(MalformedPlotName(e))
      case Success(true) => Success(s)
      case Success(false) =>
        match ChooseDestination(s.dests, p.size)
        case None => Failure(NoIdleDestination)
        case Some(i) =>
          assert 0 <= i < |s.dests| by { ChooseDestinationBest(s.dests, p.size); }
          var d := s.dests[i];
          Success(RunState(s.dests[i := d.(inFlightTransfers := d.inFlightTransfers + [TransferMarker(p)])],
                           s.moves + [Move(p, i)]))
  }

  /** The whole loop over the source plots, in the order the directories
      are listed; the first error ends the run. */
  function RunAll(s: RunState, plots: seq<SourcePlotFile>): Result<RunState, RunError>
    decreases |plots|
  {
    if |plots| == 0 then Success(s)
    else match RunAll(s, plots[..|plots| - 1])
      case Failure(e) => Failure(e)
      case Success(t) => HandlePlot(t, plots[|plots| - 1])
  }

  lemma {:induction false} RunAllFailureSticks(s: RunState, plots: seq<SourcePlotFile>, k: nat)
    requires k <= |plots| && RunAll(s, plots[..k]).Failure?
    ensures RunAll(s, plots) == RunAll(s, plots[..k])
    decreases |plots| - k
  {
    if k < |plots| {
      assert plots[..k + 1][..k] == plots[..k];
      RunAllFailureSticks(s, plots, k + 1);
    } else {
      assert plots[..k] == plots;
    }
  }

  /** `run` on the destination infos and the listed source plots. */
  method Run(destinations: seq<Destination>, plots: seq<SourcePlotFile>) returns (r: Result<RunState, RunError>)
    ensures r == RunAll(RunState(destinations, []), plots)
  {
    ghost var start := RunState(destinations, []);
    var dests := destinations;
    var moves: seq<Move> := [];
    for k := 0 to |plots|
      invariant RunAll(start, plots[..k]) == Success(RunState(dests, moves))
    {
      var p := plots[k];
      assert plots[..k + 1][..k] == plots[..k] && plots[..k + 1][k] == p;
      var metadata := LegacyParse(p.absoluteReference);
      if metadata.Failure? {
        RunAllFailureSticks(start, plots, k + 1);
        return Failure(MalformedPlotName(metadata.error));
      }
      var transferred := IsAlreadyBeingTransferred(dests, metadata.value.plotId);
      if transferred.Failure? {
        RunAllFailureSticks(start, plots, k + 1);
        return Failure(MalformedPlotName(transferred.error));
      }
      if !transferred.value {
        var chosen := ChooseDestination(dests, p.size);
        if chosen.None? {
          RunAllFailureSticks(start, plots, k + 1);
          return Failure(NoIdleDestination);
        }
        var i := chosen.value;
        ChooseDestinationBest(dests, p.size);
        dests := dests[i := dests[i].(inFlightTransfers := dests[i].inFlightTransfers + [TransferMarker(p)])];
        moves := moves + [Move(p, i)];
      }
    }
    assert plots[..|plots|] == plots;
    return Success(RunState(dests, moves));
  }

  // ---------------------------------------------------------------------
  // Properties of `run`

  /** The destination of every move has a transfer recorded. */
  ghost predicate MovesMarked(s: RunState)
  {
    forall k :: 0 <= k < |s.moves| ==>
      0 <= s.moves[k].destination < |s.dests| && |s.dests[s.moves[k].destination].inFlightTransfers| > 0
  }

  /** No two moves of a run share a destination. */
  ghost predicate DistinctDestinations(moves: seq<Move>)
  {
    forall a, b :: 0 <= a < b < |moves| ==> moves[a].destination != moves[b].destination
  }

  /** One iteration keeps the destination count, moves the plot to an idle
      destination only, and leaves the destinations moved to marked. */
  lemma HandlePlotKeepsMarks(s: RunState, p: SourcePlotFile)
    requires MovesMarked(s) && DistinctDestinations(s.moves)
    requires HandlePlot(s, p).Success?
    ensures var n := HandlePlot(s, p).value;
      && |n.dests| == |s.dests|
      && MovesMarked(n) && DistinctDestinations(n.moves)
      && (|n.moves| == |s.moves| || (|n.moves| == |s.moves| + 1 && Idle(s.dests[n.moves[|s.moves|].destination], p.size)))
  {
    if ChooseDestination(s.dests, p.size).Some? {
      ChooseDestinationBest(s.dests, p.size);
    }
  }

  /** The idea behind "mark the destination instead of reloading it": in
      one run no destination receives two plots. */
  lemma {:induction false} EachDestinationChosenOnce(destinations: seq<Destination>, plots: seq<SourcePlotFile>)
    requires RunAll(RunState(destinations, []), plots).Success?
    ensures var r := RunAll(RunState(destinations, []), plots).value;
      && |r.dests| == |destinations| && MovesMarked(r) && DistinctDestinations(r.moves)
    decreases |plots|
  {
    if |plots| > 0 {
      var init := plots[..|plots| - 1];
      EachDestinationChosenOnce(destinations, init);
      HandlePlotKeepsMarks(RunAll(RunState(destinations, []), init).value, plots[|plots| - 1]);
    }
  }

  /** The marker `run` records parses like the plot's own name, so a later
      plot with the same id is found to be in transfer already. */
  lemma MarkerCarriesPlotId(p: SourcePlotFile)
    requires LegacyParse(p.absoluteReference).Success?
    requires !StartsWith(Basename(p.absoluteReference), '.')
    ensures LegacyParse(TransferMarker(p)) == LegacyParse(p.absoluteReference)
  {
    var b := Basename(p.absoluteReference);
    var pieces := Split(b, '.');
    assert |pieces| == 2;
    var stem, ext := pieces[0], pieces[1];
    assert b == stem + "." + ext by {
      JoinSplit(b, '.');
    }
    assert '/' !in stem && '/' !in ext && '.' !in stem && '.' !in ext by {
      assert forall c :: c in stem ==> c in b;
      assert forall c :: c in ext ==> c in b;
    }
    assert |stem| > 0;
    assert LegacyParse(TransferMarker(p)) == LegacyParse(b) by {
      assert TransferMarker(p) == "." + stem + "." + ext + "." + "xxxxx";
      LegacyHiddenFormParsesLikeComplete(stem, ext, "xxxxx");
    }
    assert LegacyParse(b) == LegacyParse(p.absoluteReference) by {
      SplitWithoutSeparator(b, '/');
    }
  }

  /** After a plot is moved, the same plot id counts as being transferred. */
  lemma MovedPlotCountsAsTransferred(s: RunState, p: SourcePlotFile)
    requires HandlePlot(s, p).Success? && |HandlePlot(s, p).value.moves| > |s.moves|
    requires !StartsWith(Basename(p.absoluteReference), '.')
    ensures IsAlreadyBeingTransferred(HandlePlot(s, p).value.dests, LegacyParse(p.absoluteReference).value.plotId) == Success(true)
  {
    var id := LegacyParse(p.absoluteReference).value.plotId;
    ChooseDestinationBest(s.dests, p.size);
    var i := ChooseDestination(s.dests, p.size).value;
    var marker := TransferMarker(p);
    MarkerCarriesPlotId(p);
    InFlightNamesAppend(s.dests, i, marker);
    var before := InFlightNames(s.dests[..i]) + s.dests[i].inFlightTransfers;
    var after := InFlightNames(s.dests[i + 1..]);
    TransfersMatchConcat(before, after, id);
    TransfersMatchConcat(before + [marker], after, id);
    TransfersMatchConcat(before, [marker], id);
    assert TransfersMatch([marker], id) == Success(true);
  }
}
