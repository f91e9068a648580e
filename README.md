# hotplots pairing pass, modelled in Dafny

hotplots moves finished Chia plot files from fast "hot" source drives to
slower target drives. Each cycle it takes a snapshot of the source drives
and their plots, and of the local and remote target drives with their free
bytes and partially written hidden files. It then runs one pairing pass
that decides which plot goes to which target drive. This project models
that pass and proves what it guarantees.

- `PairingState` (hotplots/pairing_state.py) is a Dafny class with the
  same counters and lists as fields.
  - Its constructor runs the seeding loops of `__init__` as loops with
    invariants, proved against fold functions. It splits the source plots into
    initially skipped and unprocessed, and seeds the five transfer/byte
    counters and the remote-outbound count.
  - Its commit methods change exactly the fields `commit_pairing` and the
    `commit_unpaired_*` methods change, and nothing else.
- The read-only queries (`is_frequency_capped`, `has_enough_space`,
  `rank_hot_plots`, `rank_eligible_hot_plot_target_drives`) are pure
  functions over a `Counters` value (pairing_queries.dfy).
  - Python's stable `sorted(key=…)` is a stable insertion sort over an
    explicit `Key` datatype: exact rationals for the byte and percent keys,
    and Python string-tuple order for the text keys.
  - `reverse=True` is the stable sort on the negated key. Python keeps
    stability under `reverse=True`, so this is exact.
  - The 1.05 safety term is the exact ratio 105/100.
- `HotplotsPairingEngine.get_pairings_result` (hotplots/hotplots_pairing_engine.py)
  is an imperative `while` loop over a `PairingState` object.
  - It is proved equal to `PairingsOutcome`, a pure definition of the pass:
    `Step` is one iteration, `RunPass` is the whole loop, `Classify` is
    the final case split.
  - The pass-level lemmas are proved about that definition
    (pass_properties.dfy): conservation of plots, where each plot goes,
    outcome priority, and the per-source, remote-total and per-drive caps.
- The plot file-name codec `PlotNameMetadata.parse_from_filename`
  (hotplots/models.py), as a `Result`-valued parser over a model of
  `split`, `os.path.basename` and `int()` (strings.dfy, plot_names.dfy).
- The configuration records (hotplots/hotplots_config.py) and the constants
  table (build/lib/hotplots/constants.py).
- The older one-shot mover of the root-level hotplots.py (legacy_hotplots.dfy).
  This covers its parser copy, `is_already_being_transferred`,
  `choose_destination` and the bookkeeping of `run`. `run` is a `method`
  with a loop, proved equal to a fold over the listed plots.

The exceptions the modelled code raises on its inputs are `Failure`s of a
`Result`, except for the ones named under "Left out":

| error | raised when |
|---|---|
| `UnknownPlotSize` | `KeyError` on `PLOT_BYTES_BY_K` |
| `MalformedName` | `ValueError` while unpacking a split name or converting k with `int()` |
| `DivisionByZero` | `ZeroDivisionError` in a percent key |
| `MissingConfigOrder` | `KeyError` on a config-order lookup |
| `UnmatchedSourceStrategy`, `UnmatchedHostPreference`, `UnmatchedTargetStrategy` | a strategy or preference string that no branch recognises, so a method returns `None` and the caller fails on it |

### The code as written, where it differs from what its names suggest

The model follows the code. These behaviours are modelled as they are and
stated as lemmas:

- **The remote-outbound cap blocks every target.** Once the remote-outbound
  count reaches the remote limit, `is_frequency_capped` holds for local
  targets too (`RemoteCapBlocksLocalTargets`).
- **The per-drive cap is never seeded.**
  - The third cap check compares the per-drive transfer count with the
    host's inbound limit, and never reads the per-host count
    (`CappingIgnoresHostCounter`).
  - `__init__` seeds only the per-host count, so the per-drive count starts
    at zero. A pass may therefore pair up to the full limit with one
    remote drive, whatever is already in flight there
    (`OutcomeRemoteDriveBound`).
- **The local host has no inbound limit.** `LocalHostConfig` in
  hotplots/hotplots_config.py has no inbound limit field; the build copy
  uses `sys.maxsize`. The model treats it as unbounded (`InboundLimit`,
  `LocalTargetsHaveNoInboundCap`).
- **The "lowest percent" source key is inverted.** The key is
  total / (free + in flight), ascending. The plot on the drive with the
  largest remaining fraction therefore comes first, the opposite of what
  the test in hotplots/_test/hotplots_pairing_engine_test.py expects
  (`LowestPercentRankingOrder`).
- **Unmatched strategy names fail.**
  - The default source strategy `least_available_space` matches no branch
    of `rank_hot_plots`. With the defaults, any pass that has a plot to
    rank fails (`ConfigDefaults`, `RankHotPlotsFailure`).
  - An unrecognised `target_host_preference` fails the same way
    (`HostPreferenceOutcome`).
  - An unrecognised target `selection_strategy` makes the naive target
    ranking `None`. The next use of it raises, whatever the preference, so
    the first plot that has an eligible drive ends the pass with
    `UnmatchedTargetStrategy` (`RankEligibleTargetDrivesFailure`,
    `StepUnmatchedTargetStrategy`).
  - All three fields are free strings in the configuration. The model
    names each recognised value and has one value for every other string
    (`LeastAvailableSpace` for the source strategy, which behaves like
    any other unrecognised source strategy).
- **Timestamps stay strings.** The timestamp fields are kept as strings, so
  the "oldest" key compares them as strings, tuple-wise.
- **No plots, no result.** With no unprocessed plot the engine returns no
  result at all (`Classify`, `OutcomeMeaning`).
- **The legacy `run` crashes with no idle destination.** When no
  destination is idle, `run` subscripts `None`; the model returns the
  `NoIdleDestination` error (`ChooseDestinationNone`, `Run`).
- **Records defined only by use.**
  - hotplots/models.py does not define `HotPlot`, `HotPlotTargetDrive`,
    `TargetsInfo` or the `total_bytes` fields, and it gives `SourcePlot` a
    stored metadata field.
  - hotplots/pairing_state.py instead calls
    `source_plot.plot_name_metadata()` and reads
    `in_flight_transfer.plot_name_metadata`.
  - The records follow those uses: `SourcePlot.PlotNameMetadata()` parses
    the path on each call, and an `InFlightTransfer` carries parsed
    metadata.
  - Two field names differ from hotplots/models.py. hotplots/pairing_state.py
    reads `target_drive_info.target_drive_config` and
    `local_targets_info.local_host_config`, while hotplots/models.py
    declares `TargetDriveInfo.target_disk_config` and
    `LocalTargetInfo.local_target_config`. The records use the names the
    pairing code reads.
  - hotplots/models.py:4 imports `LocalTargetConfig`, which
    hotplots/hotplots_config.py does not define, so importing
    hotplots/models.py as written raises `ImportError`. The model's records
    stand for the ones hotplots/models.py declares, without that import.

## Model

| member | source | states |
|---|---|---|
| Constants.PlotBytesByK | build/lib/hotplots/constants.py:12-17 | the lookup succeeds exactly for k in 32..35 and then gives the table entry; any other k is the KeyError case |
| Constants.PlotBytesStrictlyIncreasing | build/lib/hotplots/constants.py:12-17 | a larger k in the table means strictly more expected bytes |
| Constants.TerabyteIsThousandGigabytes | build/lib/hotplots/constants.py:20-21 | TERABYTE is 1000 GIGABYTE, which is 10^12 |
| Constants.ErrorTermOverstates | build/lib/hotplots/constants.py:9 | for non-negative committed bytes, scaling by 1.05 never understates them, and it strictly overstates any positive amount |
| Config.HostConfig.IsLocal | hotplots/hotplots_config.py:50-67 | a host is local exactly when it is a LocalHostConfig |
| Config.HostConfig.InboundLimit | hotplots/hotplots_config.py:50-67 | the inbound limit is unbounded exactly for the local host; a remote host's limit is its max_concurrent_inbound_transfers |
| Config.ConfigDefaults | hotplots/hotplots_config.py:23-81 | the declared defaults: one outbound transfer per source drive, source strategy least_available_space, a 60 s source-check sleep, plot replacement disabled with empty type and value, host preference local |
| Strings.Split | hotplots/models.py:27-33 | `split` on one character yields one piece more than there are separators, and no piece contains the separator |
| Strings.SplitJoin | hotplots/models.py:27-33 | splitting a join of separator-free pieces gives the pieces back |
| Strings.JoinSplit | hotplots/models.py:27-33 | joining the pieces of a split gives the string back |
| Strings.Basename | hotplots/models.py:24 | a basename never contains '/' |
| Strings.BasenameOfPathJoin | hotplots/models.py:24 | the basename of dir joined with name is name |
| Strings.Strip | hotplots/models.py:36 | the result of `strip(c)` neither starts nor ends with c, and it is a slice of the input outside which every character is c |
| Strings.ParseNatToString | hotplots/models.py:36 | `int(str(n)) == n` for a natural number n |
| PlotNames.ParseRejectsWrongDotCount | hotplots/models.py:25-30 | a basename with other than three dots (hidden form) or one dot (complete form) is rejected |
| PlotNames.ParseRejectsWrongFieldCount | hotplots/models.py:33 | a name with the right dots whose stem does not hold exactly seven '-' (eight fields) is rejected with `WrongFieldCount` |
| PlotNames.ParsedIdHasNoSeparators | hotplots/models.py:33 | a parsed id contains no '-', '.' or '/' |
| PlotNames.ParseIgnoresDirectory | hotplots/models.py:24 | any directory prefix leaves the parse unchanged |
| PlotNames.HiddenFormParsesLikeComplete | hotplots/models.py:25-30 | `.<stem>.<ext>.<suffix>` parses exactly as `<stem>.<ext>`, so the id is stable between an in-flight file and the finished file |
| PlotNames.SplitFormattedStem | hotplots/models.py:33 | a formatted stem splits on '-' into its eight fields |
| PlotNames.ParseCompleteName | hotplots/models.py:28-30 | a complete name `<stem>.plot` parses as its stem |
| PlotNames.ParseFormattedStem | hotplots/models.py:33-43 | a formatted stem parses to k as an integer, with the other fields kept |
| PlotNames.RoundTrip | hotplots/models.py:19-43 | parsing the name built by the test helper's format, under any directory, recovers k, the timestamp fields as decimal strings, and an id free of '-', '.' and '/' |
| PlotNames.ParseStem | hotplots/models.py:33-43 | splitting a stem on '-' into eight fields and reading k with `int()`; its meaning is given by ParseFormattedStem and ParsedIdHasNoSeparators |
| PlotNames.ParseFromFilename | hotplots/models.py:19-43 | `parse_from_filename`, failing on a wrong dot or field count and on a non-integer k; its meaning is given by ParseRejectsWrongDotCount, ParseIgnoresDirectory, HiddenFormParsesLikeComplete, ParseCompleteName and RoundTrip |
| Ordering.KeyLeTotal | hotplots/pairing_state.py:131-204 | any two sort keys are comparable |
| Ordering.KeyLeTransitive | hotplots/pairing_state.py:131-204 | the sort-key order is transitive |
| Ordering.KeyLtIrreflexive | hotplots/pairing_state.py:131-204 | no key is below itself |
| Ordering.StrLtTotal | hotplots/pairing_state.py:136 | Python string order is total on distinct strings |
| Ordering.TupleLtTransitive | hotplots/pairing_state.py:136 | Python tuple order on string tuples is transitive |
| Ordering.NegateReverses | hotplots/pairing_state.py:174-187 | negating a key reverses the order, which is how `reverse=True` is modelled |
| Sorting.SortByPermutes | hotplots/pairing_state.py:131-190 | `sorted` returns a permutation of its input |
| Sorting.SortBySorted | hotplots/pairing_state.py:131-190 | `sorted` orders its output by the key |
| Sorting.SortByStable | hotplots/pairing_state.py:131-190 | the elements whose keys tie keep their input order |
| Sorting.FirstMinIndexIsFirstMinimum | hotplots/pairing_state.py:124-126 | the chosen index has a minimal key, and every element before it has a strictly larger key |
| Sorting.SortByHead | hotplots/pairing_state.py:124-126 | the head of the stable sort is the first minimum of its input |
| Sorting.FirstKeyError | hotplots/pairing_state.py:131-190 | no error exactly when every key can be computed; otherwise an error of some element |
| Sorting.RankBy | hotplots/pairing_state.py:131-190 | key computation fails exactly when some element's key fails; otherwise the result has the input's length |
| PairingQueries.Bump | hotplots/pairing_state.py:89-104 | `d[k] += n` on a defaultdict adds n at k and changes no other key |
| PairingQueries.Quotient | hotplots/pairing_state.py:148 | division fails exactly on a zero divisor; otherwise it gives the exact quotient |
| PairingQueries.IsFrequencyCapped | hotplots/pairing_state.py:206-226 | `is_frequency_capped`, the three cap checks; its meaning is given by CappingIsPermanent, RemoteCapBlocksLocalTargets, CappingIgnoresHostCounter and LocalTargetsHaveNoInboundCap |
| PairingQueries.HasEnoughSpace | hotplots/pairing_state.py:228-238 | `has_enough_space` with the 1.05 term; its meaning is given by SpaceCheckIsConservative, LackOfSpaceIsPermanent and Constants.ErrorTermOverstates |
| PairingQueries.SourceKeyOf | hotplots/pairing_state.py:131-161 | the sort key of each source strategy; its meaning is given by RankHotPlotsFailure and the four source ranking-order lemmas |
| PairingQueries.TargetKeyOf | hotplots/pairing_state.py:163-190 | the sort key of each target strategy; its meaning is given by ReverseStrategiesReverseTheOrder and SpaceTargetRankingOrder |
| PairingQueries.ApplyHostPreference | hotplots/pairing_state.py:194-204 | the host-preference step; its meaning is given by HostPreferenceOutcome and HostPreferenceBlocks |
| PairingQueries.RankEligibleTargetDrives | hotplots/pairing_state.py:163-204 | `rank_eligible_hot_plot_target_drives`; its meaning is given by RankEligiblePermutes, RankEligibleTargetDrivesIsStableSort and RankEligibleTargetDrivesOrder |
| PairingQueries.CommitCounters | hotplots/pairing_state.py:89-104 | the counter updates of `commit_pairing`; its meaning is given by CommitCountersEffect |
| PairingQueries.RankHotPlots | hotplots/pairing_state.py:131-161 | the ranking keeps the number of plots, and an unmatched strategy fails |
| PairingQueries.RankHotPlotsIsStableSort | hotplots/pairing_state.py:131-161 | a successful ranking is a permutation of the plots, ordered by the strategy's key, with ties in input order |
| PairingQueries.RankHotPlotsHead | hotplots/pairing_state.py:124-161 | the plot ranked first is the first plot whose key is minimal |
| PairingQueries.RankHotPlotsFailure | hotplots/pairing_state.py:131-161 | ranking fails exactly when the strategy is least_available_space or some plot's key fails |
| PairingQueries.LeastSpaceRankingOrder | hotplots/pairing_state.py:139-144 | ranking by least space never fails, and orders by ascending free plus in-flight bytes |
| PairingQueries.LowestPercentRankingOrder | hotplots/pairing_state.py:145-150 | with positive denominators, ranking never fails and orders by ascending total / (free + in flight) |
| PairingQueries.ConfigOrderRankingOrder | hotplots/pairing_state.py:151-155 | a successful config-order ranking orders by ascending config position of the source drive |
| PairingQueries.RandomRankingOrder | hotplots/pairing_state.py:156-161 | a successful "random" ranking orders by ascending plot id |
| PairingQueries.RandomKey | hotplots/pairing_state.py:156-161 | the "random" key of a plot is its plot id |
| PairingQueries.CommitCountersEffect | hotplots/pairing_state.py:89-104 | a commit adds one transfer and the plot size to the plot's source drive and to the target drive, one transfer to the host, and one remote-outbound transfer exactly for a remote target; every other counter entry is unchanged |
| PairingQueries.CappingIsPermanent | hotplots/pairing_state.py:206-226 | a capped pair stays capped after any commit |
| PairingQueries.LackOfSpaceIsPermanent | hotplots/pairing_state.py:228-238 | a drive without room for a plot still has none after any commit |
| PairingQueries.SpaceCheckIsConservative | hotplots/pairing_state.py:228-238 | for non-negative committed bytes, a drive judged to have room has at least the plot's size left after its committed bytes |
| PairingQueries.RemoteCapBlocksLocalTargets | hotplots/pairing_state.py:213-215 | at the remote-outbound limit, local targets are capped too |
| PairingQueries.CappingIgnoresHostCounter | hotplots/pairing_state.py:222-224 | capping does not depend on the per-host transfer counts |
| PairingQueries.LocalTargetsHaveNoInboundCap | hotplots/pairing_state.py:222-224 | for a local target, capping does not depend on the per-drive transfer counts |
| PairingQueries.ReverseStrategiesReverseTheOrder | hotplots/pairing_state.py:170-187 | "most space" orders drives exactly opposite to "least space", and "highest percent" exactly opposite to "lowest percent" |
| PairingQueries.RankEligibleTargetDrivesFailure | hotplots/pairing_state.py:163-204 | the target ranking fails exactly when the strategy is unrecognised, some drive's key fails or the preference is unrecognised, and an unrecognised strategy fails with `UnmatchedTargetStrategy` |
| PairingQueries.HostPreferenceOutcome | hotplots/pairing_state.py:194-204 | the host-preference step fails exactly for an unrecognised value, and "unspecified" keeps the naive ranking |
| PairingQueries.HostPreferenceBlocks | hotplots/pairing_state.py:194-204 | "local" puts all local drives before all remote ones and "remote" the reverse; each block keeps the naive order; the result is a permutation |
| PairingQueries.RankEligiblePermutes | hotplots/pairing_state.py:163-204 | a successful target ranking is a permutation of the eligible drives |
| PairingQueries.RankEligibleTargetDrivesIsStableSort | hotplots/pairing_state.py:163-204 | with no host preference the ranking is sorted by the strategy's key with ties in input order; with either preference the local block and the remote block are each sorted by the key, ties in input order |
| PairingQueries.RankEligibleTargetDrivesOrder | hotplots/pairing_state.py:163-204 | any two ranked drives are in key order when no preference is set or both are on the same side (local or remote) |
| PairingQueries.SpaceTargetRankingOrder | hotplots/pairing_state.py:170-204 | least/most space remaining fail only on an unrecognised preference, and order drives by ascending/descending free minus committed bytes, within each host block when a preference is set |
| PairingSeeding.FirstUnknownSize | hotplots/pairing_state.py:46-67 | no error exactly when every in-flight transfer's k is in the table |
| PairingSeeding.FirstMalformedName | hotplots/pairing_state.py:78 | no error exactly when every source plot's name parses |
| PairingSeeding.TransfersMapDomain | hotplots/pairing_state.py:46-67 | a plot id is in the transfers map exactly when some in-flight transfer carries it |
| PairingSeeding.TransfersMapLastWriter | hotplots/pairing_state.py:46-67 | a mapped id maps to the host and drive of the last in-flight transfer carrying it |
| PairingSeeding.HostTransfersMeaning | hotplots/pairing_state.py:46-67 | a host's transfer count is the number of in-flight transfers on its drives |
| PairingSeeding.DriveBytesMeaning | hotplots/pairing_state.py:46-67 | a drive's committed bytes are the sum over its in-flight transfers of expected bytes less current size |
| PairingSeeding.HostDrivesLength | hotplots/pairing_state.py:46-57 | one host's entries are as many as its drives' transfers, and all belong to that host |
| PairingSeeding.RemoteEntriesAreRemote | hotplots/pairing_state.py:59-73 | every entry found in the remote loop belongs to a remote host |
| PairingSeeding.LocalHostTransfers | hotplots/pairing_state.py:44-51 | after seeding, the local host's count is the number of transfers on the local drives |
| PairingSeeding.SourceListsMeaning | hotplots/pairing_state.py:75-87 | skipped holds exactly the plots whose id is mapped, unprocessed the others, both in input order |
| PairingSeeding.SourceTransfersMeaning | hotplots/pairing_state.py:83 | a source drive's transfer count is the number of its skipped plots |
| PairingSeeding.SourceBytesMeaning | hotplots/pairing_state.py:84 | a source drive's bytes in flight are the total size of its skipped plots |
| PairingSeeding.SourceRemoteMeaning | hotplots/pairing_state.py:79-81 | the remote-outbound count is the number of skipped plots matched to a remote host |
| PairingSeeding.SourcePartition | hotplots/pairing_state.py:75-87 | every source plot is skipped or unprocessed, never both, and the two lists together are a permutation of the source plots |
| PairingSeeding.SkipRule | hotplots/pairing_state.py:42-87 | a plot is skipped exactly when some in-flight transfer on any local or remote drive has its plot id |
| PairingSeeding.IndexLookupMeaning | hotplots/pairing_state.py:240-257 | `lookup[k] = i` over a list holds exactly its keys, each numbered by its last position |
| PairingSeeding.IndexLookupOfDistinct | hotplots/pairing_state.py:240-257 | with no repeated keys, each key is numbered by its position |
| PairingSeeding.TargetConfigOrderNumbering | hotplots/pairing_state.py:246-257 | with distinct drive configs, local drives are numbered 0..n-1 and remote drives n, n+1, … in host order |
| PairingSeeding.SeedTargets | hotplots/pairing_state.py:44-73 | the target seeding loops as a fold; its meaning is given by TransfersMapDomain, TransfersMapLastWriter, HostTransfersMeaning and DriveBytesMeaning |
| PairingSeeding.SeedSources | hotplots/pairing_state.py:75-87 | the source seeding loop as a fold; its meaning is given by SourceListsMeaning, SourceTransfersMeaning, SourceBytesMeaning, SourceRemoteMeaning and SourcePartition |
| PairingSeeding.InitialPassState | hotplots/pairing_state.py:36-87 | the state `__init__` leaves; the constructor is proved to reach it, and its meaning is given by SkipRule, InitialSourceCount and InitialRemoteCount |
| PairingStates.PairingState.constructor | hotplots/pairing_state.py:36-87 | after `__init__`, the context, the lists and the counters are the seeding functions of the snapshot |
| PairingStates.PairingState.CommitPairing | hotplots/pairing_state.py:89-104 | appends the pairing and applies exactly the commit's counter updates |
| PairingStates.PairingState.CommitUnpairedDueToCapping | hotplots/pairing_state.py:115-116 | appends the plot to the capped list and changes nothing else |
| PairingStates.PairingState.CommitUnpairedDueToLackOfSpace | hotplots/pairing_state.py:118-119 | appends the plot to the no-space list and changes nothing else |
| PairingStates.PairingState.PopNextUnprocessedHotPlot | hotplots/pairing_state.py:124-126 | returns the head of the re-ranked list and keeps the rest, or returns the ranking's error |
| PairingStates.InitializeConfigOrderLookups | hotplots/pairing_state.py:240-257 | the two lookups are the index lookups of the source drives and of the target drives in config order |
| PairingStates.NumberTargetDrives | hotplots/pairing_state.py:246-257 | the target loop numbers local drives, then every remote host's drives, from one running counter |
| PairingStates.NumberHostDrives | hotplots/pairing_state.py:252-257 | one remote host's drives are numbered on from the running counter |
| PairingStates.SeedDriveTransfers | hotplots/pairing_state.py:47-51 | the loop over one drive's in-flight transfers is the fold of the target step |
| PairingStates.SeedHostDrives | hotplots/pairing_state.py:46-57 | the loop over one host's drives folds their transfers and appends one target drive per drive |
| PairingStates.SeedTargetsOf | hotplots/pairing_state.py:44-73 | both target loops compute the target seed of all transfers, local first, and the list of all target drives |
| PairingStates.SeedSourcePlots | hotplots/pairing_state.py:77-87 | the loop over one drive's plots is the fold of the source step |
| PairingStates.SeedSourcesOf | hotplots/pairing_state.py:75-87 | the source loop computes the source seed of all plots, drive by drive |
| PairingEngine.DrivesPartition | hotplots/hotplots_pairing_engine.py:39-45 | for one plot, the capped, no-room and eligible drives together are a permutation of all target drives |
| PairingEngine.DriveClassification | hotplots/hotplots_pairing_engine.py:39-45 | a drive is capped when its cap holds, no-room when it is not capped and lacks room, and eligible when it is neither; capping is checked first |
| PairingEngine.SortTargetDrives | hotplots/hotplots_pairing_engine.py:37-45 | the loop over the target drives builds exactly these three lists |
| PairingEngine.Step | hotplots/hotplots_pairing_engine.py:32-57 | one iteration removes exactly one unprocessed plot and settles exactly one |
| PairingEngine.RunPass | hotplots/hotplots_pairing_engine.py:32-57 | a pass that completes leaves no plot unprocessed and settles every initially unprocessed plot |
| PairingEngine.Classify | hotplots/hotplots_pairing_engine.py:59-71 | there is no result exactly when no plot was settled |
| PairingEngine.StepRankingFails | hotplots/hotplots_pairing_engine.py:33 | a ranking error ends the iteration with that error |
| PairingEngine.StepTargetRankingFails | hotplots/hotplots_pairing_engine.py:47-48 | a target-ranking error ends the iteration with that error |
| PairingEngine.StepUnmatchedTargetStrategy | hotplots/hotplots_pairing_engine.py:47-49 | with an unrecognised target strategy, an iteration that has an eligible drive ends with `UnmatchedTargetStrategy` |
| PairingEngine.StepPairs | hotplots/hotplots_pairing_engine.py:47-50 | with an eligible drive, the plot is paired with the first ranked one and the commit is applied |
| PairingEngine.StepLeavesUnpaired | hotplots/hotplots_pairing_engine.py:51-57 | with no eligible drive, the plot is recorded as capped if some drive was capped, and as lacking space otherwise |
| PairingEngine.ProcessNextHotPlot | hotplots/hotplots_pairing_engine.py:32-57 | the loop body changes the object's state exactly as one Step, or returns Step's error |
| PairingEngine.SettleHotPlot | hotplots/hotplots_pairing_engine.py:37-57 | after the pop, the rest of the loop body completes the Step |
| PairingEngine.PairWithBestDrive | hotplots/hotplots_pairing_engine.py:47-50 | the eligible branch completes the Step, or returns the target-ranking error |
| PairingEngine.GetPairingsResult | hotplots/hotplots_pairing_engine.py:29-71 | the method returns exactly the pure outcome of the pass, errors included |
| PassProperties.PairedPlotsMembership | hotplots/hotplots_pairing_engine.py:49 | the plot of every pairing is among the paired plots |
| PassProperties.StepPopsNextPlot | hotplots/hotplots_pairing_engine.py:33 | a successful iteration removes exactly the best-ranked plot from the unprocessed multiset |
| PassProperties.StepPairsWithBestEligible | hotplots/hotplots_pairing_engine.py:47-50 | a committed target is an uncapped drive with room, ranked first among the eligible drives |
| PassProperties.StepTally | hotplots/hotplots_pairing_engine.py:47-57 | the popped plot joins the settled plots, and the three result lists only grow |
| PassProperties.StepConserves | hotplots/hotplots_pairing_engine.py:32-57 | an iteration moves its plot from the unprocessed plots to the settled ones |
| PassProperties.PassConservation | hotplots/hotplots_pairing_engine.py:32-57 | over a pass, the settled plots grow by exactly the multiset of plots that were unprocessed |
| PassProperties.StepSourceCount | hotplots/pairing_state.py:217-220 | an iteration pairs from a source drive only below its limit, and the drive's count grows by the pairings added |
| PassProperties.SourceDriveBound | hotplots/pairing_state.py:217-220 | within a pass, the pairings from a source drive are at most max(0, limit - count at the start) |
| PassProperties.StepRemoteCount | hotplots/pairing_state.py:213-215 | at the remote limit an iteration pairs nothing; otherwise the remote count grows by the remote pairings added |
| PassProperties.RemoteTotalBound | hotplots/pairing_state.py:213-215 | within a pass, the remote pairings are at most max(0, remote limit - count at the start), and none at the limit |
| PassProperties.StepDriveCount | hotplots/pairing_state.py:222-224 | an iteration pairs with a drive of a host limited to n only while the drive's count is below n |
| PassProperties.RemoteDriveBound | hotplots/pairing_state.py:222-224 | within a pass, the pairings with such a drive are at most max(0, n - count at the start) |
| PassProperties.StepDriveBytes | hotplots/pairing_state.py:228-238 | an iteration commits to a drive only when its committed bytes stay within its free bytes |
| PassProperties.DriveNeverOvercommitted | hotplots/pairing_state.py:228-238 | a pass that commits to a drive leaves its committed bytes within its free bytes |
| PassProperties.OutcomeMeaning | hotplots/hotplots_pairing_engine.py:32-71 | the settled plots are exactly the initially unprocessed ones; there is no result iff there were none; the outcome is pairings first, then NoActionResult for capping, then PlotReplacementResult |
| PassProperties.SkippedNeverPaired | hotplots/pairing_state.py:75-87 | only initially unprocessed plots are paired, never an already-transferring one |
| PassProperties.OutcomeSourceBound | hotplots/pairing_state.py:217-220 | a pass takes from source drive d at most max(0, limit - d's initial transfer count) |
| PassProperties.InitialSourceCount | hotplots/pairing_state.py:83 | d's initial transfer count is the number of its skipped plots |
| PassProperties.OutcomeRemoteBound | hotplots/pairing_state.py:213-215 | a pass makes at most max(0, remote limit - initial remote count) remote pairings |
| PassProperties.InitialRemoteCount | hotplots/pairing_state.py:79-81 | the initial remote count is the number of skipped plots in flight to a remote host |
| PassProperties.OutcomeRemoteDriveBound | hotplots/pairing_state.py:222-224 | because the per-drive count starts at zero, a pass pairs at most n plots with a drive of a host limited to n, whatever is already in flight there |
| LegacyHotplots.LegacyParseAgrees | hotplots.py:125-145 | where the older parser fails, the newer one fails with the same error; where the newer one succeeds, the older one succeeds with the same id and timestamp fields, and its k-size text converts to the newer k |
| LegacyHotplots.LegacyHiddenFormParsesLikeComplete | hotplots.py:125-145 | the hidden and complete forms give the same metadata, so the same plot id |
| LegacyHotplots.TransfersMatchMeaning | hotplots.py:71-77 | when every in-flight name parses, the answer is whether one has the plot's id; an error comes from some name that does not parse |
| LegacyHotplots.InFlightNamesAppend | hotplots.py:37-39 | appending a name to one destination inserts it right after that destination's names |
| LegacyHotplots.IdlePositionsMembership | hotplots.py:60-61 | a position passes the filter exactly when its destination has more free bytes than the plot and no in-flight transfer |
| LegacyHotplots.ChooseDestinationNone | hotplots.py:59-65 | there is no choice exactly when no destination is idle |
| LegacyHotplots.ChooseDestinationBest | hotplots.py:59-69 | the choice is an idle destination with the most free bytes, and the first such one |
| LegacyHotplots.Run | hotplots.py:20-40 | the loop computes the fold of one iteration over the listed plots |
| LegacyHotplots.RunAllFailureSticks | hotplots.py:25-40 | once an iteration fails, the rest of the run does not change the outcome |
| LegacyHotplots.HandlePlotKeepsMarks | hotplots.py:34-40 | one iteration keeps the destinations, moves to an idle destination, and marks it |
| LegacyHotplots.EachDestinationChosenOnce | hotplots.py:36-39 | within a run every destination is chosen at most once and each chosen one is marked |
| LegacyHotplots.MarkerCarriesPlotId | hotplots.py:37-39 | the marker `.<basename>.xxxxx` parses like the plot's own name |
| LegacyHotplots.MovedPlotCountsAsTransferred | hotplots.py:34-40 | after a plot is moved, its plot id counts as being transferred |
| LegacyHotplots.LegacyParse | hotplots.py:125-145 | the older parser; its meaning is given by LegacyParseAgrees and LegacyHiddenFormParsesLikeComplete |
| LegacyHotplots.IsAlreadyBeingTransferred | hotplots.py:71-77 | `is_already_being_transferred`; its meaning is given by TransfersMatchMeaning |
| LegacyHotplots.ChooseDestination | hotplots.py:59-69 | `choose_destination`; its meaning is given by ChooseDestinationNone and ChooseDestinationBest |
| LegacyHotplots.HandlePlot | hotplots.py:34-40 | one iteration of `run`; its meaning is given by HandlePlotKeepsMarks and MovedPlotCountsAsTransferred |
| LegacyHotplots.RunAll | hotplots.py:20-40 | the loop of `run` as a fold; its meaning is given by Run, RunAllFailureSticks and EachDestinationChosenOnce |

## Left out

- Snapshot collection and transfer I/O are left out: `df`/`find`/`stat`, SSH, `rsync`, directory listing, YAML loading, `get_destination_info` and `move_plot` of hotplots.py, and hotplots/hotplots_io.py and hotplots/fs_access.py. Snapshots are inputs, and a move is recorded as a `Move` value.
- `glob.glob` in the legacy `run` is left out: the listed plots are an input, taken in the order given, and their sizes are part of it.
- Polling, sleeping, logging and the CLI (the `main.py` files and the logging modules) are left out, since they do not decide any pairing.
- The `random` target strategy is modelled with every key equal, so it keeps the eligible drives' order. That is one of the orders `random.random()` can produce; the others are not modelled.
- Floating point is not modelled. `* 1.05` is exactly 105/100 and the percent keys are exact rationals, so float rounding on near-equal keys is not captured.
- The class-level mutable defaults of `PairingState`, which Python shares between instances, are not modelled: every construction starts from empty counters and lists.
- Python cannot hash a frozen dataclass that holds a list, so the host configs it uses as dict keys would raise. The model treats all config records as values and does not capture that.
- PairingStates.PairingState.constructor: requires that seeding raises nothing. The two errors `__init__` can raise (an unknown k-size, an unparsable source name) are modelled by `SnapshotError`, which `GetPairingsResult` checks before constructing.
- PairingStates.PairingState.PopNextUnprocessedHotPlot: when ranking fails, it leaves the list unchanged. For a source strategy that no branch recognises, the source assigns `None` to the list and then fails on `pop(0)`. When a key raises inside `sorted` (a zero denominator, a missing config-order entry), the assignment never runs and the list is left unchanged, as here. The pass ends with the error either way.
- PairingQueries.SpaceCheckIsConservative: requires that the drive's committed bytes are not negative. An in-flight file larger than its expected size makes them negative, and then 1.05 times them is below them, so a drive can pass the check with less room than the plot needs (free 0, committed -2000, plot 2050). The bound is not claimed there, and `Constants.ErrorTermOverstates` is stated for non-negative amounts for the same reason.
- PassProperties.StepDriveBytes: requires that the drive's committed bytes are not negative before the iteration. An in-flight file larger than its expected size makes them negative, and then a commit can leave them above the drive's free bytes, so the bound is not claimed.
- PassProperties.DriveNeverOvercommitted: requires that the drive's committed bytes are not negative at the start. An in-flight file larger than its expected size makes them negative, and then the bound is not claimed.
- PairingQueries.LowestPercentRankingOrder: requires that every plot's free plus in-flight bytes are positive; the zero case is the `DivisionByZero` failure, covered by `RankHotPlotsFailure`.
- LegacyHotplots.ChooseDestinationBest: returns the position of the chosen destination rather than the dictionary object, and `run` updates that position in a sequence. Aliasing of the dictionaries is not modelled.
- PlotNames.ParseStem: reads k with a model of `int()` that accepts only an optional sign and ASCII digits (`Strings.ParseInt`). Python's `int()` also accepts surrounding whitespace, `_` between digits and non-ASCII digits, so a name with k field `k3_2` parses with k = 32 in Python but fails with `InvalidK` in the model.
- hotplots/pairing_state.py:5 imports hotplots/constants.py, which has no `STAGED_FILES_ERROR_TERM`, so `has_enough_space` (line 228) raises `AttributeError` there. The model uses the term 1.05 from build/lib/hotplots/constants.py, which is the only copy that defines it.
- hotplots/pairing_state.py:222 reads `max_concurrent_inbound_transfers` of the host config, which `LocalHostConfig` in hotplots/hotplots_config.py does not have, so a local target raises `AttributeError` there. The model follows build/lib/hotplots/hotplots_config.py, where the local limit is `sys.maxsize`, and treats it as unbounded.
- The legacy `get_destination_info` returns `None` when a destination cannot be read (hotplots.py:119-121). The filter at hotplots.py:23 tests the config, not that result, so the `None` reaches line 60 or 73 and raises `TypeError`. Reading a destination is left out, and the model's destinations are always records.
- The legacy field values stay strings, and `LegacyParse` gives the k-size as text, as hotplots.py does.
- hotplots/hotplots.py (an orchestrator calling an engine method that does not exist) and hotplots/hotplots_engine.py (an empty stub) are not part of this model.
