# Aggregation firmware, verified

A Dafny model of the measurement aggregation that runs on the second real-time
core (`R5c1/src/MainApp/aggregation/`). It receives CRC-protected frames, moves
them through single-producer rings, and folds them into the intervals of IEC
61000-4-30, the flicker severities of IEC 61000-4-15, power-quality events,
ten-second frequency, energy, demand and mains signalling.

Each stateful component has two layers. A specification keeps what the
component stands for (lists of cycles, of blocks, of published records, exact
unbounded arithmetic), and the main theorems are about every run of it. A class
with the fields of the original updates them in place, and every method is
proved to take the fields where the specification takes the lists. Words,
wrap-around, truncation and saturation are written out. Concurrent components
are state machines whose steps are single word accesses, interleaved in every
order with sequentially consistent memory.

| Files | What they hold |
|---|---|
| `IntervalTypes`, `BasicTier`, `AggregateTier`, `LongTiers`, `IntervalTree`, `IntervalCompletion` | The interval tree on lists, what every published record folds, and that undisturbed input completes every tier |
| `UtcMarks`, `TwoHourMarks`, `UtcGrid`, `SteadyRuns` | Where a UTC mark leaves the next block and the two-hour interval, over every run, and runs that show it |
| `SignedLanes`, `SignedRuns` | The signed saturating lanes: when they are exact and independent of grouping, and a run in which they are not |
| `BasicAssembler`, `AggregateAssembler`, `LongAssemblers`, `AggregationEngine` | The same tree in accumulator slots, counters and pending bits |
| `HarmonicFamilies`, `HarmonicChanges`, `HarmonicMixedRun`, `HarmonicTiers`, `HarmonicEngine`, `HarmonicMagnitude`, `PhaseVector`, `WideArithmetic` | Harmonic tiers and their hand-written 128-bit arithmetic |
| `SpscRing`, `OutputService`, `SequenceLock` | Rings, notified output and configuration hand-over, step by step |
| `Crc32c`, `TransportFrames`, `AggregationDecoder`, `HarmonicDecoder`, `FrequencyDecoder` | CRC-32C and the strict decoders |
| `FrequencyValue`, `FrequencyStream` | The ten-second value and its gap-free stream |
| `Energy`, `EnergyRuns`, `SlidingDemand` | Exact energy, which families are integrated, and sample-weighted demand |
| `PqEvaluation`, `PqLifecycles`, `PqMachine`, `PqMarks`, `PqEvents` | Event conditions, lifecycles, the engine as a function and in place, and what becomes of a noted discontinuity |
| `MainsSignal` | The signalling correlator |
| `FlickerArithmetic`, `FlickerFilter`, `FlickerPhase`, `FlickerClassifier`, `IntegerRoot`, `FlickerSeverity` | Saturating fixed point, filters, histogram percentiles, severities |
| `Words` | Machine words and elementary arithmetic |

`dafny verify dfyconfig.toml` checks everything.

Where the code and its comments or expectations differ, the model follows the code:

- An aligned ten-minute record is meant to omit no Basic record. Its 16-bit
  block counter makes this true exactly when at most 2^16 were published
  (`AlignedRecordsTile`; a run with more: `SteadyRuns.CounterWraps`).
- A two-hour interval is meant to complete across clock boundaries. It goes on
  past a boundary exactly when the mark falls on a block start
  (`TwoHourMarks.TwoHourGrows`; from cycles and target updates alone:
  `UtcGrid.TwoHourGrowsOnGrid`). Otherwise the next ten-minute interval starts
  before the last one ends and the two hours start again, as they do just below
  50 Hz (`SteadyRuns.TwoHoursStartAgain`) and not at exactly 50 Hz
  (`SteadyRuns.TwoHoursGoOn`).
- An unbalance is divided by the mean over its phases, which is zero when the
  phases add up to less than one unit each (`MeanVanishes`). The model ends
  there, and says for a whole input when it does (`PqMachine.ProcessTraps`).
- The harmonic configuration test does not look at the two-hour tier. A change
  goes unnoticed there exactly when the short tier is empty
  (`HarmonicChanges.ChangeUnnoticed`; a two-hour family over two
  configurations: `HarmonicMixedRun.TwoHoursMix`).
- A discontinuity noted by the transport is meant to mark the next record. A
  stale packet takes the mark with it, in the frequency engine always
  (`DiscontinuityReaches`, `FrequencyStream.MarkIsLost`), in the event engine
  unless it has a mark of its own or its configuration is not in force
  (`PqMarks.MarkReaches`, `PqMarks.MarkIsLost`).
- An energy family is meant to be integrated once. An older incomplete family
  moves the session back, and a repeated family is then integrated again
  (`EnergyRuns.AgainIffBehind`, `EnergyRuns.IntegratedTwice`).
- The sequence lock relies on fewer than 2^32 revisions during one attempt
  (`WrapIsUnnoticed`; a run that exceeds them: `SequenceLock.TornAfterWrap`).
- Power and phasor sums saturate at every step, so their value can depend on the
  grouping into blocks and intervals (`SignedRuns.GroupingMattersInRun`); it
  does not exactly while the prefix sums fit in both (`SignedLanes.CascadeIsFlat`).

## Model

| member | source | states |
|---|---|---|
| `IntervalTree.EveryRun` | R5c1/src/MainApp/aggregation/aggregation_engine.cpp:596-616 | Over every run of calls, with any packets and any idle calls, every published record is justified by the records published before it: a Basic record folds exactly the expected number of whole consecutive cycles (10 at 50 Hz, 12 at 60 Hz) under one generation and nominal frequency and carries the next number; a 150/180-cycle record folds the last 15 Basic results at its closing, all eligible and of one configuration; a ten-minute record folds a linked run of the Basic results since the previous ten-minute record whose last block is the first to reach the target; a two-hour record folds the last twelve aligned, abutting ten-minute records |
| `IntervalTree.InvokePreserves` | R5c1/src/MainApp/aggregation/aggregation_engine.cpp:596-950 | One call, whatever it consumes or finalises, keeps the tier invariants and publishes at most one record, which is justified |
| `IntervalTree.AggregateIsFlat` | R5c1/src/MainApp/aggregation/aggregation_engine.cpp:1468-1584 | The 150/180-cycle record, whether it closed in the first slot or in a promoted UTC shadow, equals the flat fold over all cycles of exactly 15 consecutive eligible Basic records under one configuration |
| `IntervalTree.AlignedRecordsTile` | R5c1/src/MainApp/aggregation/aggregation_engine.cpp:1242-1370 | An aligned ten-minute record folds every Basic record published since the previous ten-minute record and nothing else if and only if there are at most 2^16 of them, and is their flat fold over cycles |
| `IntervalTree.TwoHourIsFlat` | R5c1/src/MainApp/aggregation/aggregation_engine.cpp:1737-1862 | The two-hour record is the cascaded fold of the last twelve ten-minute records, all aligned, and equals the flat fold over every cycle in them; without counter wrap these form one unbroken run of Basic results, by number and end to end on the sample axis |
| `IntervalTree.ArmedImagesKeep` | R5c1/src/MainApp/aggregation/aggregation_engine.cpp:596-616 | Between being armed and being finalised no accumulator changes, whatever the call and its input: an armed tier is published with exactly the contents it was armed with |
| `IntervalTree.DeferredWorkFinishes` | R5c1/src/MainApp/aggregation/r5_aggregation_engine.cpp:283-296 | After any packet three further calls finish all deferred work, so the bound of eight passes is never what ends the drain |
| `BasicTier.AcceptPreserves` | R5c1/src/MainApp/aggregation/aggregation_engine.cpp:711-950 | Offering a cycle keeps the block invariant (whole cycles in order, one generation and nominal frequency, a live shadow is a proper non-empty suffix of the open block) and a closed block is sound and takes the next number |
| `BasicTier.NextTargetIsFirstBeyond` | R5c1/src/MainApp/aggregation/aggregation_engine.cpp:759-770 | After a late UTC correction the next target is the first mark of its own 600-second grid beyond the cycle |
| `BasicTier.ClosePreserves` | R5c1/src/MainApp/aggregation/aggregation_engine.cpp:941-950 | A block closes with exactly the expected number of cycles and a live shadow takes its place with the invariant intact |
| `BasicTier.BlocksAreShort` | R5c1/src/MainApp/aggregation/aggregation_engine.cpp:856-941 | Neither the open block nor its shadow ever reaches the end of the 8-bit cycle counter |
| `BasicTier.CommandsPreserve` | R5c1/src/MainApp/aggregation/aggregation_engine.cpp:640-709 | A target update or a configuration apply keeps the block invariant |
| `BasicAssembler.Assembler.OnTarget` | R5c1/src/MainApp/aggregation/aggregation_engine.cpp:651-658 | The slots after a target update are those of the specification: the target moves and the shadow is dropped, the open block stays |
| `BasicAssembler.Assembler.OnApply` | R5c1/src/MainApp/aggregation/aggregation_engine.cpp:683-709 | The slots after an apply are those of the specification: settings replaced, both blocks discarded, the next block marked first |
| `BasicAssembler.Assembler.Admit` | R5c1/src/MainApp/aggregation/aggregation_engine.cpp:724-741 | A gap, a sequence break or a nominal change discards both blocks, and the expected numbers advance |
| `BasicAssembler.Assembler.PassMark` | R5c1/src/MainApp/aggregation/aggregation_engine.cpp:746-771 | A cycle at or past the UTC target starts a block in place when none is open and otherwise restarts one in the other slot |
| `BasicAssembler.Assembler.Join` | R5c1/src/MainApp/aggregation/aggregation_engine.cpp:773-939 | Merging the cycle into one or both slots leaves in each exactly the statistics of its list of cycles |
| `BasicAssembler.Assembler.Close` | R5c1/src/MainApp/aggregation/aggregation_engine.cpp:941-971 | The result handed on equals the fold of the listed cycles, and a live shadow slot is promoted |
| `BasicAssembler.Assembler.Accept` | R5c1/src/MainApp/aggregation/aggregation_engine.cpp:711-950 | One cycle offered to the slots in place does exactly what the list specification does, and yields a result exactly when it does |
| `AggregateTier.FoldPreserves` | R5c1/src/MainApp/aggregation/aggregation_engine.cpp:1380-1584 | Folding a Basic result keeps the invariant: the open interval is a clean run shorter than 15, a live shadow is a proper non-empty suffix of it, a closed interval has exactly 15 |
| `AggregateTier.FoldCases` | R5c1/src/MainApp/aggregation/aggregation_engine.cpp:1558-1584 | After a fold the open interval is empty, the joined run or the promoted shadow, and a closed interval is the joined run |
| `AggregateTier.CleanExtends` | R5c1/src/MainApp/aggregation/aggregation_engine.cpp:1417-1450 | A result that does not break continuity extends a clean run, including across the one marked UTC overlap |
| `AggregateAssembler.Assembler.Restart` | R5c1/src/MainApp/aggregation/aggregation_engine.cpp:1417-1450 | A configuration change, a sequence break or an unmarked sample break empties both slots |
| `AggregateAssembler.Assembler.Join` | R5c1/src/MainApp/aggregation/aggregation_engine.cpp:1452-1568 | The result joins the open slot; at a UTC mark it seeds the other slot, and a live shadow is extended with it |
| `AggregateAssembler.Assembler.Close` | R5c1/src/MainApp/aggregation/aggregation_engine.cpp:1570-1584 | The fifteenth block arms the slot and promotes a live shadow |
| `AggregateAssembler.Assembler.Fold` | R5c1/src/MainApp/aggregation/aggregation_engine.cpp:1380-1584 | Two slots in place do what the list specification does, and arm exactly when an interval closed |
| `AggregateAssembler.Assembler.Finalise` | R5c1/src/MainApp/aggregation/aggregation_engine.cpp:1585-1595 | The published quad is that of exactly the closed list, which is then emptied |
| `LongTiers.FoldTenPreserves` | R5c1/src/MainApp/aggregation/aggregation_engine.cpp:1242-1370 | Folding keeps the ten-minute invariant, and the interval is armed exactly at the first block that reaches the target |
| `LongTiers.FinaliseTenSound` | R5c1/src/MainApp/aggregation/aggregation_engine.cpp:1699-1728 | A finalised ten-minute interval is linked, continues the Basic numbering and reached its target with its last block; if aligned it omits nothing exactly when its counter did not wrap |
| `LongTiers.FoldTwoPreserves` | R5c1/src/MainApp/aggregation/aggregation_engine.cpp:1737-1862 | The two-hour parts stay usable, end to end on the sample axis and consecutive in number |
| `LongTiers.CascadeIsFlat` | R5c1/src/MainApp/aggregation/aggregation_engine.cpp:1808-1845 | Folding the folds of the parts equals folding all their blocks at once |
| `LongTiers.TwoHourOmitsNothing` | R5c1/src/MainApp/aggregation/aggregation_engine.cpp:1754-1796 | Without counter wrap, chained parts are one unbroken run of Basic numbers |
| `LongAssemblers.TenMinuteAssembler.Gather` | R5c1/src/MainApp/aggregation/aggregation_engine.cpp:1242-1305 | The accumulator in place keeps exactly the statistics of its list through seeding, extension, contamination and rejection |
| `LongAssemblers.TenMinuteAssembler.Fold` | R5c1/src/MainApp/aggregation/aggregation_engine.cpp:1234-1370 | One Basic result folded in place does what the list specification does and arms exactly when it does |
| `LongAssemblers.TenMinuteAssembler.Finalise` | R5c1/src/MainApp/aggregation/aggregation_engine.cpp:1699-1728 | The quad, alignment and 16-bit count are those of exactly the closed list |
| `LongAssemblers.TwoHourAssembler.Fold` | R5c1/src/MainApp/aggregation/aggregation_engine.cpp:1737-1862 | The two-hour accumulator in place holds exactly the parts of the list specification, and arms at the twelfth |
| `LongAssemblers.TwoHourAssembler.Finalise` | R5c1/src/MainApp/aggregation/aggregation_engine.cpp:1964-1987 | The two-hour quad is that of exactly its twelve parts |
| `AggregationEngine.Engine.Consume` | R5c1/src/MainApp/aggregation/aggregation_engine.cpp:617-950 | One packet on all four tiers in place does what the specification does and publishes the same records |
| `AggregationEngine.Engine.Dispatch` | R5c1/src/MainApp/aggregation/aggregation_engine.cpp:596-625 | The first pending pass runs, else the next packet, else nothing |
| `AggregationEngine.Engine.Invoke` | R5c1/src/MainApp/aggregation/aggregation_engine.cpp:596-950 | Every call refines the specification: the published quads are computed from the accumulators and equal the records of the lists, and the whole log stays justified |
| `AggregationEngine.Engine.Process` | R5c1/src/MainApp/aggregation/r5_aggregation_engine.cpp:283-296 | A packet and its deferred passes: the drain always ends with nothing pending, never at its bound |
| `UtcMarks.OfferResumes` | R5c1/src/MainApp/aggregation/aggregation_engine.cpp:746-971 | Whatever cycle is offered, the block beside the open one starts at the last cycle of it that arrived at its UTC mark, and the next block resumes the closed one there, or after it when no mark was inside |
| `UtcMarks.StartsWhereEnded` | R5c1/src/MainApp/aggregation/aggregation_engine.cpp:941-971 | On a seamless sample axis a block that resumes the one before it starts where that one ended if and only if no UTC mark fell inside the closed block |
| `UtcMarks.PassedOnGrid` | R5c1/src/MainApp/aggregation/aggregation_engine.cpp:746-771 | From the cycles and the target update alone: after an update to a sample, a cycle passes a mark if and only if a mark of its ten-minute grid lies between the start of the cycle before it and its own |
| `TwoHourMarks.BlocksResume` | R5c1/src/MainApp/aggregation/aggregation_engine.cpp:746-971 | Over every run: a Basic record that follows no discontinuity starts with the last cycle of the record before it that passed its mark, and with the cycle after that record when there is none |
| `TwoHourMarks.BlocksAbut` | R5c1/src/MainApp/aggregation/aggregation_engine.cpp:746-971 | So over every run it starts on the sample axis where that record ended if and only if no mark fell inside |
| `TwoHourMarks.TwoHourGrows` | R5c1/src/MainApp/aggregation/aggregation_engine.cpp:1737-1862 | Over every run: of two successive cascaded ten-minute records the second extends the two-hour interval if and only if that was not complete, the configuration is the same and no mark fell inside the block between them; otherwise the interval starts again with the second alone |
| `UtcGrid.InsideOnGrid` | R5c1/src/MainApp/aggregation/aggregation_engine.cpp:746-771 | Over every run: a mark fell inside a published block if and only if a mark of the ten-minute grid through the latest target update lies between the starts of two of its cycles |
| `UtcGrid.TwoHourGrowsOnGrid` | R5c1/src/MainApp/aggregation/aggregation_engine.cpp:1737-1862 | So over every run the two-hour guard is told from cycles and target updates alone |
| `SteadyRuns.TwoIntervals` | R5c1/src/MainApp/aggregation/aggregation_engine.cpp:1737-1862 | For evenly spaced cycles and marks on any cycle of a block the two-hour interval holds both of two ten-minute intervals or the second alone, as the first mark fell on a block start or not |
| `SteadyRuns.TwoHoursStartAgain` | R5c1/src/MainApp/aggregation/aggregation_engine.cpp:1744-1768 | A run at 641 samples a cycle and 32 kHz, just below 50 Hz, in which the mark falls inside a block, both records are aligned and the two-hour interval goes back to one part |
| `SteadyRuns.TwoHoursGoOn` | R5c1/src/MainApp/aggregation/aggregation_engine.cpp:1744-1768 | The same run at exactly 50 Hz keeps both parts |
| `SteadyRuns.CounterWraps` | R5c1/src/MainApp/aggregation/aggregation_engine.cpp:1242-1370 | A run in which an aligned ten-minute record omits Basic records: 95999 of them between two marks |
| `IntervalTypes.FoldConcat` | R5c1/src/MainApp/aggregation/aggregation_engine.cpp:1808-1845 | Merging two folds is folding all contributions at once, with the wrapping sum and the saturating sum of squares |
| `SignedLanes.FoldIsExact` | R5c1/src/MainApp/aggregation/aggregation_engine.cpp:817-843 | A signed 128-bit lane is the exact sum, its flag clear, if and only if every exact prefix sum fits |
| `SignedLanes.CascadeIsExact` | R5c1/src/MainApp/aggregation/aggregation_engine.cpp:1334-1348 | A fold of folds is flag-free if and only if the prefix sums inside each part and over whole parts fit, and then it is the exact sum of everything |
| `SignedLanes.CascadeIsFlat` | R5c1/src/MainApp/aggregation/aggregation_engine.cpp:1533-1547 | A cascaded fold is unflagged and equal to the flat fold if and only if the prefix sums fit inside each part, over whole parts and over everything |
| `SignedLanes.GroupingMatters` | R5c1/src/MainApp/aggregation/aggregation_engine.cpp:1533-1547 | One clear flag is not enough, whichever grouping it is of |
| `SignedLanes.TwoHourIsFlat` | R5c1/src/MainApp/aggregation/aggregation_engine.cpp:1825-1840 | Through the three cascades of cycles, blocks and ten-minute intervals the two-hour flag is clear exactly when no interval is flagged and the sums of whole intervals fit, and the lane is then that of all cycles if and only if the flat prefix sums fit as well |
| `SignedLanes.PublishedTwoHour` | R5c1/src/MainApp/aggregation/aggregation_engine.cpp:1825-1840 | Both conditions hold of every published two-hour record of every run |
| `SignedLanes.PublishedBlocks` | R5c1/src/MainApp/aggregation/aggregation_engine.cpp:1533-1547 | Every published 150/180-cycle and ten-minute record: its flag is clear exactly when the prefix sums inside and over its blocks fit, and its lane is then that of all its cycles if and only if the flat prefix sums fit as well |
| `SignedRuns.GroupingMattersInRun` | R5c1/src/MainApp/aggregation/aggregation_engine.cpp:1533-1547 | A run at exactly 50 Hz that publishes a ten-minute record whose lane is exact and unflagged while the same cycles one by one saturate |
| `IntervalCompletion.WholeCyclesClose` | R5c1/src/MainApp/aggregation/aggregation_engine.cpp:773-971 | With no block open, the next 10 or 12 undisturbed whole cycles are published as one block with exactly these cycles, and none is published before |
| `IntervalCompletion.FifteenBlocksClose` | R5c1/src/MainApp/aggregation/aggregation_engine.cpp:1417-1584 | With no interval open, the next fifteen clean blocks close one and not before; if a UTC mark fell inside, the interval restarted there stays open and goes on |
| `IntervalCompletion.TargetCloses` | R5c1/src/MainApp/aggregation/aggregation_engine.cpp:1242-1370 | Linked blocks up to the first that reaches the target make one ten-minute interval of exactly these blocks, and the next target is 600 seconds on |
| `IntervalCompletion.ChainedPartsGather` | R5c1/src/MainApp/aggregation/aggregation_engine.cpp:1737-1862 | Chained ten-minute intervals that may be cascaded are all gathered, so the twelfth completes two hours |
| `HarmonicFamilies.EveryRun` | R5c1/src/MainApp/aggregation/harmonic_aggregation_engine.cpp:711-811 | Over every run of families, timing updates and transport gaps: contaminated implies an empty two-hour tier, active tiers cover consecutive sequences, the ten-minute tier resumes where the two-hour tier stops, and every emitted family covers consecutive sources (15, or one ten-minute span, or twelve uncontaminated parts, each non-empty and of one configuration) |
| `HarmonicFamilies.PrepareReady` | R5c1/src/MainApp/aggregation/harmonic_aggregation_engine.cpp:744-769 | Before a family is folded every tier it does not directly follow, or whose configuration differs, has been cleared |
| `HarmonicFamilies.CloseTenPreserves` | R5c1/src/MainApp/aggregation/harmonic_aggregation_engine.cpp:787-810 | Closing a ten-minute tier cascades it only if uncontaminated, and the cascade stays consecutive |
| `HarmonicFamilies.ObserveTimingPreserves` | R5c1/src/MainApp/aggregation/harmonic_aggregation_engine.cpp:139-160 | A toggled timing context clears and contaminates the long tiers with the invariant intact |
| `HarmonicChanges.ChangeUnnoticed` | R5c1/src/MainApp/aggregation/harmonic_aggregation_engine.cpp:760-769 | Over every run: a family that starts the next part of a two-hour interval and differs in configuration from the last part leaves the interval in progress if and only if the short tier is empty, so exactly when a short record ended together with that part |
| `HarmonicChanges.RecordChanges` | R5c1/src/MainApp/aggregation/harmonic_aggregation_engine.cpp:760-769 | In every published two-hour family two consecutive parts of different configurations have a short record that ended with the first of them |
| `HarmonicMixedRun.TwoHoursMix` | R5c1/src/MainApp/aggregation/harmonic_aggregation_engine.cpp:760-769 | A run of 39000 families, the configuration changed after the ninth thousand, whose last record is a two-hour family over both configurations |
| `HarmonicTiers.AccumulateBaseHolds` | R5c1/src/MainApp/aggregation/harmonic_aggregation_engine.cpp:407-443 | Folding a base family keeps the tier exact: contributor count, header, validity flags, 128-bit vector sums and sum of squares are those of its list |
| `HarmonicTiers.VectorSumExact` | R5c1/src/MainApp/aggregation/harmonic_aggregation_engine.cpp:255-284 | With fewer than 2^32 base families the two-limb sums read as signed numbers are the exact integer vector sum |
| `HarmonicTiers.AccumulateFinalizedVector` | R5c1/src/MainApp/aggregation/harmonic_aggregation_engine.cpp:557-609 | Cascading a ten-minute tier makes the two-hour vector the sum over all base families of all parts while the point stays valid |
| `HarmonicTiers.AccumulateFinalizedValues` | R5c1/src/MainApp/aggregation/harmonic_aggregation_engine.cpp:557-609 | The two-hour validity flags are those of all base families, and its sum of squares is that of the parts' own finalised magnitudes, never overflowing below 2^32 families |
| `HarmonicTiers.BaseTierRecord` | R5c1/src/MainApp/aggregation/harmonic_aggregation_engine.cpp:540-555 | A published short or ten-minute family has the exact root-mean-square magnitude and vector of its list, valid exactly when every contribution was and it is not contaminated |
| `HarmonicTiers.CascadeRecord` | R5c1/src/MainApp/aggregation/harmonic_aggregation_engine.cpp:611-640 | A published two-hour family is valid exactly when all base families were, its magnitude is the root of the mean square of its twelve part magnitudes and its vector the sum over every base family |
| `HarmonicTiers.TwoHourBetween` | R5c1/src/MainApp/aggregation/harmonic_aggregation_engine.cpp:540-609 | A two-hour magnitude lies between the extremes of all its base families |
| `HarmonicEngine.Engine.ObserveTimingContext` | R5c1/src/MainApp/aggregation/harmonic_aggregation_engine.cpp:139-175 | The engine in place does what the specification does with a timing context |
| `HarmonicEngine.Engine.AcceptSequence` | R5c1/src/MainApp/aggregation/harmonic_aggregation_engine.cpp:711-740 | Stale sequences are refused; a gap or a displacement of more than two samples marks a discontinuity |
| `HarmonicEngine.Engine.PrepareTiers` | R5c1/src/MainApp/aggregation/harmonic_aggregation_engine.cpp:744-769 | Every reset before a fold, in place |
| `HarmonicEngine.Engine.FoldShort` | R5c1/src/MainApp/aggregation/harmonic_aggregation_engine.cpp:771-778 | The fifteenth family emits and clears the short tier, in place |
| `HarmonicEngine.Engine.FoldTwo` | R5c1/src/MainApp/aggregation/harmonic_aggregation_engine.cpp:794-803 | The twelfth part emits and clears the two-hour tier, in place |
| `HarmonicEngine.Engine.CloseTen` | R5c1/src/MainApp/aggregation/harmonic_aggregation_engine.cpp:787-810 | The ten-minute tier is emitted, cascaded and cleared, and the next target is 600 seconds on |
| `HarmonicEngine.Engine.Process` | R5c1/src/MainApp/aggregation/harmonic_aggregation_engine.cpp:742-811 | One family in place does what the specification does, and each emitted record states exactly what its families add up to |
| `HarmonicMagnitude.FinalizeMagnitude` | R5c1/src/MainApp/aggregation/harmonic_aggregation_engine.cpp:540-555 | The finalised magnitude is floor(sqrt(floor(sum of squares / n))) |
| `HarmonicMagnitude.MagnitudeBetween` | R5c1/src/MainApp/aggregation/harmonic_aggregation_engine.cpp:540-555 | It lies between the smallest and largest contributing magnitude |
| `HarmonicMagnitude.MagnitudeFixedPoint` | R5c1/src/MainApp/aggregation/harmonic_aggregation_engine.cpp:540-555 | Equal inputs are a fixed point |
| `HarmonicMagnitude.AccumulationExact` | R5c1/src/MainApp/aggregation/harmonic_aggregation_engine.cpp:430-437 | With 40-bit magnitudes and fewer than 2^32 contributors the overflow path is never taken and the sum is exact |
| `HarmonicMagnitude.AccumulateSquare` | R5c1/src/MainApp/aggregation/harmonic_aggregation_engine.cpp:430-437 | The sum of squares is exact or stuck at 2^128 - 1, and the flag says which |
| `WideArithmetic.MultiplyU64` | R5c1/src/MainApp/aggregation/harmonic_aggregation_engine.cpp:446-466 | Four half-word products and one carry column are the exact 128-bit product |
| `WideArithmetic.AddChecked` | R5c1/src/MainApp/aggregation/harmonic_aggregation_engine.cpp:468-480 | The sum modulo 2^128, and whether it was exact |
| `WideArithmetic.DivideU32` | R5c1/src/MainApp/aggregation/harmonic_aggregation_engine.cpp:483-503 | Schoolbook division by a 32-bit divisor is integer division |
| `WideArithmetic.LessEqual` | R5c1/src/MainApp/aggregation/harmonic_aggregation_engine.cpp:505-510 | Limb comparison is comparison of values |
| `WideArithmetic.IntegerSqrt` | R5c1/src/MainApp/aggregation/harmonic_aggregation_engine.cpp:512-538 | Sixty-four digits of the recurrence give the floor of the square root of a 128-bit operand |
| `PhaseVector.SineQ37` | R5c1/src/MainApp/aggregation/harmonic_aggregation_engine.cpp:235-253 | Interpolated sine with 37 fraction bits, bounded by 2^37 for every table of values up to 2^17 |
| `PhaseVector.InterpolationBetween` | R5c1/src/MainApp/aggregation/harmonic_aggregation_engine.cpp:235-253 | The interpolated value lies between its two table points |
| `PhaseVector.AddPhaseProduct` | R5c1/src/MainApp/aggregation/harmonic_aggregation_engine.cpp:255-274 | The signed product is added exactly modulo 2^128 |
| `PhaseVector.PhaseAbsolute` | R5c1/src/MainApp/aggregation/harmonic_aggregation_engine.cpp:287-293 | The limb negation is the absolute value of the signed reading |
| `PhaseVector.ShiftedPhase` | R5c1/src/MainApp/aggregation/harmonic_aggregation_engine.cpp:295-308 | The arithmetic right shift of two limbs is floor division, in one word whenever it fits |
| `PhaseVector.NormalizePhase` | R5c1/src/MainApp/aggregation/harmonic_aggregation_engine.cpp:310-345 | The common shift makes both components fit a signed word, leaves the larger one 62 significant bits whenever it shifts, and the vector is refused exactly when it is zero |
| `SpscRing.StepRefinesQueue` | R5c1/src/MainApp/aggregation/aggregation_frame_ring.cpp:7-47 | Each word-by-word step of either side is a push, a pop or nothing on one bounded FIFO queue; a refused push means a full queue, a refused pop an empty one |
| `SpscRing.EveryInterleaving` | R5c1/src/MainApp/aggregation/aggregation_frame_ring.cpp:7-47 | Over every interleaving, through any number of 2^32 index wraps, what was popped is frame for frame the front of what was pushed, and no more than the capacity is queued |
| `SpscRing.AssuredPushSucceeds` | R5c1/src/MainApp/aggregation/aggregation_shadow_service.cpp:138-145 | A push after a non-zero available_capacity is never refused |
| `SpscRing.InputTaskNeverOverflows` | R5c1/src/MainApp/aggregation/aggregation_shadow_service.cpp:130-159 | A task that measures before it reads never sees its push refused, so its overflow branch is unreachable |
| `SpscRing.IndexSurvivesWrap` | R5c1/src/MainApp/aggregation/aggregation_frame_ring.cpp:10-19 | Because the capacity divides 2^32, the slot of a wrapped index is the slot of the true count |
| `OutputService.WrittenIsPrefix` | R5c1/src/MainApp/aggregation/aggregation_output_service.cpp:19-85 | For every interleaving and every pattern of would-block and error results the written records are a prefix of the enqueued ones, in order, without repeats, short by at most the queue and the record in hand |
| `OutputService.NoLostWakeup` | R5c1/src/MainApp/aggregation/aggregation_output_service.cpp:25-54 | Over every interleaving, start-up included, the output task is never asleep on a non-empty ring unless a notification is pending or the producer is about to give one to the handle it will find |
| `OutputService.StartIsNotLost` | R5c1/src/MainApp/aggregation/aggregation_runtime.cpp:123-139 | Nor does it wait for its start once the input task has stored the handle and released it |
| `OutputService.HeldRecordIsRetried` | R5c1/src/MainApp/aggregation/aggregation_output_service.cpp:56-83 | A record the transport refuses stays in hand unchanged until it is written |
| `SequenceLock.EveryLoad` | R5c1/src/MainApp/aggregation/pq_event_lifecycle_engine.cpp:87-121 | In every run a successful load returns all words of the configuration completed last, provided fewer than 2^32 revisions passed during the attempt |
| `SequenceLock.SuccessIsUntorn` | R5c1/src/MainApp/aggregation/r5_aggregation_engine.cpp:63-82 | The same for one attempt from any reachable state, including the two-word demand profile: a packed word is never paired with another generation |
| `SequenceLock.WrapIsUnnoticed` | R5c1/src/MainApp/aggregation/pq_event_lifecycle_engine.cpp:104-121 | The bound is needed: after exactly 2^32 revisions any mixture of words is accepted |
| `SequenceLock.TornAfterWrap` | R5c1/src/MainApp/aggregation/r5_aggregation_engine.cpp:63-82 | A run of the demand lock in which, after 2^31 configurations between its two loads, a torn buffer that no configuration ever held is accepted |
| `Crc32c.TableEntry` | R5c1/src/MainApp/aggregation/crc32c.cpp:10-15 | A table entry is eight steps of the bit-serial division register |
| `Crc32c.MakeTable` | R5c1/src/MainApp/aggregation/crc32c.cpp:17-23 | Every entry of the table is |
| `Crc32c.UpdateByteIsSerial` | R5c1/src/MainApp/aggregation/crc32c.cpp:27-30 | The look-up step is eight bit-serial steps on the message bits of the byte |
| `Crc32c.UpdateWordIsSerial` | R5c1/src/MainApp/aggregation/crc32c.cpp:48-52 | Folding in a word is feeding its four bytes, low byte first, bit by bit |
| `Crc32c.Crc32cBytes` | R5c1/src/MainApp/aggregation/crc32c.cpp:34-41 | The byte loop is the bit-serial CRC-32C (RFC 3720, section 12.1) |
| `Crc32c.Crc32cWords` | R5c1/src/MainApp/aggregation/crc32c.cpp:43-55 | The word loop is the CRC-32C of the little-endian bytes |
| `Crc32c.StepInjective` | R5c1/src/MainApp/aggregation/crc32c.cpp:43-55 | One word step is injective in the running state and in the word |
| `Crc32c.SingleWordCorruptionRejected` | R5c1/src/MainApp/aggregation/aggregation_frame_decoder.cpp:25-28 | A frame that differs from an accepted one in exactly one of its words, the CRC word included, is rejected |
| `TransportFrames.CheckCrc` | R5c1/src/MainApp/aggregation/aggregation_frame_decoder.cpp:25-28 | The frame check accepts exactly the frames whose last word is the CRC of the words before it |
| `AggregationDecoder.Decode` | R5c1/src/MainApp/aggregation/aggregation_frame_decoder.cpp:7-54 | The decoder returns the first failing check in the source order and, when none fails, the view of the frame |
| `AggregationDecoder.CorruptCycleRejected` | R5c1/src/MainApp/aggregation/aggregation_frame_decoder.cpp:25-28 | A cycle frame one word away from an accepted one is never accepted |
| `HarmonicDecoder.Decode` | R5c1/src/MainApp/aggregation/harmonic_frame_decoder.cpp:40-135 | The decoder's scans return the first failing check in the source order |
| `HarmonicDecoder.AcceptedPoints` | R5c1/src/MainApp/aggregation/harmonic_aggregation_engine.cpp:199-217 | Every point of an accepted family is well formed (zero unless valid, an angle only beside a magnitude and below a full turn, nothing valid beyond the qualified order or on a disabled channel) and sits in the record labelled with its channel and order |
| `HarmonicDecoder.CorruptFamilyRejected` | R5c1/src/MainApp/aggregation/harmonic_frame_decoder.cpp:54-56 | A family frame one word away from an accepted one is never accepted |
| `FrequencyDecoder.Decode` | R5c1/src/MainApp/aggregation/frequency_10s_frame_decoder.cpp:38-148 | The decoder returns the first failing check; its crossing scan and tail scan decide exactly the stated conditions |
| `FrequencyDecoder.AcceptedFrame` | R5c1/src/MainApp/aggregation/frequency_10s_frame_decoder.cpp:60-135 | An accepted frame has a supported rate, ordered sample and UTC bounds and strictly increasing crossings within range |
| `FrequencyDecoder.CorruptFrameRejected` | R5c1/src/MainApp/aggregation/frequency_10s_frame_decoder.cpp:52-54 | A frequency frame one word away from an accepted one is never accepted |
| `FrequencyValue.RoundedDivideTiesToEven` | R5c1/src/MainApp/aggregation/frequency_10s_engine.cpp:50-71 | The quotient is the nearest integer with ties to even, and the overflow report is exact |
| `FrequencyValue.NearestUnique` | R5c1/src/MainApp/aggregation/frequency_10s_engine.cpp:50-71 | Nearest with ties to even determines one integer |
| `FrequencyValue.DurationsTelescope` | R5c1/src/MainApp/aggregation/frequency_10s_engine.cpp:209-235 | The included cycle durations add up to last crossing minus first |
| `FrequencyValue.CountCycles` | R5c1/src/MainApp/aggregation/frequency_10s_engine.cpp:200-235 | The loop keeps exactly the crossings inside the interval and counts exactly the zero or out-of-range durations |
| `FrequencyValue.Evaluate` | R5c1/src/MainApp/aggregation/frequency_10s_engine.cpp:200-270 | Every reason flag and the published value follow from the included crossings, with 64-bit products |
| `FrequencyValue.InRangeExact` | R5c1/src/MainApp/aggregation/frequency_10s_engine.cpp:39-48 | Below 2^48 the 64-bit range test is the exact statement that the cycle's frequency is in range |
| `FrequencyValue.ValueInRange` | R5c1/src/MainApp/aggregation/frequency_10s_engine.cpp:29-71 | If every cycle passes the range test the rounded mean is in range |
| `FrequencyValue.AcceptedValue` | R5c1/src/MainApp/aggregation/frequency_10s_engine.cpp:200-270 | For decoder-accepted input: at most 1023 cycles, the duration is their exact sum, the product never overflows, the value is rate*2^16*n/duration to nearest even, and out-of-range never appears without cycle-geometry |
| `FrequencyStream.Engine.PublishGaps` | R5c1/src/MainApp/aggregation/frequency_10s_engine.cpp:334-367 | Placeholders are published in order until the sink refuses, which stops the engine |
| `FrequencyStream.Engine.Process` | R5c1/src/MainApp/aggregation/frequency_10s_engine.cpp:390-425 | One frame in place does what the specification does with stale frames, gaps, refusals and remembered intervals |
| `FrequencyStream.EveryRun` | R5c1/src/MainApp/aggregation/frequency_10s_engine.cpp:319-425 | Over every run published sequence numbers are consecutive modulo 2^32, each placeholder starts where the record before it ends on both axes, and neither a placeholder nor the record after one is valid |
| `FrequencyStream.DiscontinuityReaches` | R5c1/src/MainApp/aggregation/frequency_10s_engine.cpp:390-410 | A noted discontinuity reaches the next record if and only if no stale frame arrives first; a stale frame consumes it |
| `FrequencyStream.MarkIsLost` | R5c1/src/MainApp/aggregation/frequency_10s_engine.cpp:390-410 | A run in which a repeated frame takes the mark: the next record is unmarked and valid, where without the repetition it is marked and invalid |
| `Energy.IntegratedHolds` | R5c1/src/MainApp/aggregation/energy_demand_engine.cpp:364-387 | One integration keeps value = min(floor(T/D), limit) and, below the limit, value*D + remainder = T, and reports exactly when the total first passes the limit |
| `Energy.NumeratorFits` | R5c1/src/MainApp/aggregation/energy_demand_engine.cpp:364-387 | The numerator never leaves 128 bits |
| `Energy.Engine.Integrate` | R5c1/src/MainApp/aggregation/energy_demand_engine.cpp:364-387 | The counter in place stays exact for the exact total, and the saturation flag is set exactly when some total has passed the limit |
| `Energy.Engine.IntegrateFamily` | R5c1/src/MainApp/aggregation/energy_demand_engine.cpp:552-578 | A family adds to each of the 28 counters exactly its own contribution, by sign and quadrant |
| `Energy.Engine.FinishBasic` | R5c1/src/MainApp/aggregation/energy_demand_engine.cpp:490-585 | Which families are integrated, skipped, refused as stale or counted as gaps, and that the counters then hold the exact totals of the integrated ones |
| `Energy.ReorderingConserves` | R5c1/src/MainApp/aggregation/energy_demand_engine.cpp:545-579 | Any two orders of the same families give the same totals |
| `EnergyRuns.ReplacementConserves` | R5c1/src/MainApp/aggregation/energy_demand_engine.cpp:364-387 | In any list, replacing families by their splits into consecutive parts or by the same energy at another supported rate keeps every total; the exact counters of both lists then show the same value, and below the limit the same remainder |
| `EnergyRuns.RemaindersPart` | R5c1/src/MainApp/aggregation/energy_demand_engine.cpp:364-387 | Past the limit the remainder can depend on the split: a full counter that does |
| `EnergyRuns.AgainIffBehind` | R5c1/src/MainApp/aggregation/energy_demand_engine.cpp:157-172 | An integrated family offered again within 2^31 numbers is integrated again if and only if the session has since moved to an earlier number, as an incomplete family can make it |
| `EnergyRuns.NoneTwice` | R5c1/src/MainApp/aggregation/energy_demand_engine.cpp:157-172 | While no incomplete family is older than the last remembered one, integrated families strictly advance over the run, and no number comes twice before 2^32 have passed |
| `EnergyRuns.NoneAgain` | R5c1/src/MainApp/aggregation/energy_demand_engine.cpp:157-172 | So an integrated family offered again is not integrated again |
| `EnergyRuns.IntegratedTwice` | R5c1/src/MainApp/aggregation/energy_demand_engine.cpp:490-505 | A run of three families in which the last repeats the first and both are integrated, after an older incomplete one between them |
| `SlidingDemand.WindowIsNewestRun` | R5c1/src/MainApp/aggregation/energy_demand_engine.cpp:775-812 | After any buckets the window is the newest part of the longest contiguous run of one generation and rate, in order |
| `SlidingDemand.NewestRunContiguous` | R5c1/src/MainApp/aggregation/energy_demand_engine.cpp:775-812 | That run is contiguous on the sample axis and a suffix of everything appended |
| `SlidingDemand.MeanBetween` | R5c1/src/MainApp/aggregation/energy_demand_engine.cpp:814-870 | The sample-weighted mean lies between the extremes of its buckets, so neither clamp is taken, and truncating twice is truncating once |
| `SlidingDemand.PeakIsLargest` | R5c1/src/MainApp/aggregation/energy_demand_engine.cpp:710-733 | A peak is the largest published value and its anchor the first record that reached it |
| `SlidingDemand.Engine.Append` | R5c1/src/MainApp/aggregation/energy_demand_engine.cpp:775-812 | The circular buffer in place holds exactly the specified list, restarted on a break |
| `SlidingDemand.Engine.Calculate` | R5c1/src/MainApp/aggregation/energy_demand_engine.cpp:814-870 | The published value is the truncated sample-weighted mean and the saturation flag never changes |
| `SlidingDemand.Engine.Configure` | R5c1/src/MainApp/aggregation/energy_demand_engine.cpp:76-93 | A changed valid profile clears window and peaks; an invalid one changes nothing |
| `SlidingDemand.Engine.Observe` | R5c1/src/MainApp/aggregation/energy_demand_engine.cpp:872-917 | An unusable interval empties the window and publishes an invalid record exactly when a family of it was seen; a usable one publishes exactly when the window is full |
| `PqEvaluation.EvaluationDisjoint` | R5c1/src/MainApp/aggregation/pq_event_lifecycle_engine.cpp:285-368 | For every valid profile an evaluation that ends never both starts and recovers |
| `PqEvaluation.StartAndRecoveryDisjoint` | R5c1/src/MainApp/aggregation/pq_event_lifecycle_engine.cpp:330-366 | The start and recovery conditions on a metric are disjoint for every valid profile |
| `PqEvaluation.InvalidProfileCanOverlap` | R5c1/src/MainApp/aggregation/pq_event_lifecycle_engine.cpp:330-366 | Without a valid profile they can both hold |
| `PqEvaluation.MeanVanishes` | R5c1/src/MainApp/aggregation/pq_event_lifecycle_engine.cpp:308-333 | The mean an unbalance divides by is zero if and only if the valid phases add up to less than one unit each, which a caller can test |
| `PqEvaluation.OneUnitDividesByZero` | R5c1/src/MainApp/aggregation/pq_event_lifecycle_engine.cpp:308-333 | One unit on one of three valid phases is such an input |
| `PqEvaluation.EvaluateTraps` | R5c1/src/MainApp/aggregation/pq_event_lifecycle_engine.cpp:285-368 | An evaluation divides by zero if and only if it is of an enabled unbalance over such phases, whatever the slot |
| `PqLifecycles.SteppedLinked` | R5c1/src/MainApp/aggregation/pq_event_lifecycle_engine.cpp:398-443 | One step publishes a record that is legal after the log and keeps the state linked to it: START only when none is open, UPDATE, END and ABORT only on the open lifecycle with its id, profile and origin unchanged, extremes only widening and around the current value |
| `PqLifecycles.LegalLogIsLifecycles` | R5c1/src/MainApp/aggregation/pq_event_lifecycle_engine.cpp:398-443 | For each type and slot a legal log is a prefix of (START UPDATE* (END or ABORT))*, open exactly when the log says so |
| `PqLifecycles.OpenSharesStart` | R5c1/src/MainApp/aggregation/pq_event_lifecycle_engine.cpp:370-396 | An open lifecycle carries the identifier and profile of its START |
| `PqLifecycles.StartsIncrease` | R5c1/src/MainApp/aggregation/pq_event_lifecycle_engine.cpp:370-396 | In every legal log with fewer than 2^64 - 1 STARTs each START carries a strictly larger identifier than every START before it |
| `PqMachine.AbortClears` | R5c1/src/MainApp/aggregation/pq_event_lifecycle_engine.cpp:250-264 | Aborting closes every open lifecycle and touches nothing else |
| `PqMachine.ProcessTraps` | R5c1/src/MainApp/aggregation/pq_event_lifecycle_engine.cpp:445-498 | A whole input meets a division by zero if and only if it is evaluated (neither stale nor without its configuration) and some enabled unbalance of the configuration in force is unsafe for it |
| `PqMachine.FirstInputCanTrap` | R5c1/src/MainApp/aggregation/pq_event_lifecycle_engine.cpp:308-333 | From the start, with a valid profile, the first input can |
| `PqMarks.ProcessTakesMark` | R5c1/src/MainApp/aggregation/pq_event_lifecycle_engine.cpp:445-475 | A whole input leaves a noted discontinuity noted if and only if it is without its configuration or carries a mark of its own; if it is evaluated it acts as marked, and if it is stale only the adoption of its configuration happens |
| `PqMarks.MarkReaches` | R5c1/src/MainApp/aggregation/pq_event_lifecycle_engine.cpp:445-475 | Over any list of inputs a noted discontinuity marks an evaluated input if and only if some input without a mark of its own is evaluated and no stale one without a mark of its own comes before it |
| `PqMarks.MarkEffect` | R5c1/src/MainApp/aggregation/pq_event_lifecycle_engine.cpp:454-471 | The first input to take it decides: an evaluated one acts as marked (lifecycles aborted, rapid-change history emptied), a stale one changes nothing beyond adopting its configuration |
| `PqMarks.MarkIsLost` | R5c1/src/MainApp/aggregation/pq_event_lifecycle_engine.cpp:454-466 | A run from the start, with a valid profile: a sag is open, a discontinuity is noted, the last input is repeated and takes it, and the lifecycle goes on through the next input; without the repetition that input aborts it |
| `PqEvents.Engine.Emit` | R5c1/src/MainApp/aggregation/pq_event_lifecycle_engine.cpp:175-248 | The log is what was asked for, in order, up to the first refusal, and stays so |
| `PqEvents.Engine.ProcessState` | R5c1/src/MainApp/aggregation/pq_event_lifecycle_engine.cpp:398-443 | One type and slot in place does what the specification does, including arming the rapid-change detector and stopping at a division by zero |
| `PqEvents.Engine.AbortAll` | R5c1/src/MainApp/aggregation/pq_event_lifecycle_engine.cpp:250-264 | Every lifecycle in progress is closed by an ABORT, in order |
| `PqEvents.Engine.ApplyMatching` | R5c1/src/MainApp/aggregation/pq_event_lifecycle_engine.cpp:266-283 | A staged configuration is adopted exactly when the input names its generation and it is not in force, after aborting what is in progress |
| `PqEvents.Engine.AcceptSequence` | R5c1/src/MainApp/aggregation/pq_event_lifecycle_engine.cpp:454-466 | A stale input is dropped, after it has taken a noted discontinuity with it |
| `PqEvents.Engine.ProcessTypes` | R5c1/src/MainApp/aggregation/pq_event_lifecycle_engine.cpp:473-486 | Every enabled type and slot is stepped, in order, and no other |
| `PqEvents.Engine.Process` | R5c1/src/MainApp/aggregation/pq_event_lifecycle_engine.cpp:445-498 | One input takes the whole engine where the specification takes it, while ready; it divides by zero exactly for an unsafe input that is evaluated; every published record is legal, and a refusal stops the engine with its log kept |
| `MainsSignal.CorrelationBound` | R5c1/src/MainApp/aggregation/mains_signal_engine.cpp:22-27 | Each correlation sum is bounded by 2^48 per analysed sample |
| `MainsSignal.WindowFits` | R5c1/src/MainApp/aggregation/mains_signal_engine.cpp:364-384 | With at most 6400 analysed samples the sums fit 64 bits |
| `MainsSignal.StepIsNearest` | R5c1/src/MainApp/aggregation/mains_signal_engine.cpp:61-76 | An accepted carrier's phase step is the nearest one, below half a turn and not truncated |
| `MainsSignal.ProbeBelowNyquist` | R5c1/src/MainApp/aggregation/mains_signal_engine.cpp:300-309 | Every probe of an accepted profile lies above zero and below half the analysis rate |
| `MainsSignal.SineQ17` | R5c1/src/MainApp/aggregation/mains_signal_engine.cpp:87-97 | The oscillator is bounded by one with 17 fraction bits |
| `MainsSignal.MeansOf` | R5c1/src/MainApp/aggregation/mains_signal_engine.cpp:127-134 | The mean of a window's sum is the truncated average scaled back, and fits 32 bits |
| `MainsSignal.OffsetWithinHalf` | R5c1/src/MainApp/aggregation/mains_signal_engine.cpp:436-452 | The magnitude-weighted offset is at most half a bandwidth |
| `MainsSignal.Estimate` | R5c1/src/MainApp/aggregation/mains_signal_engine.cpp:436-462 | The estimate is carrier plus the truncated weighted offset, within half a bandwidth, and none of its saturation or clamp branches is taken |
| `MainsSignal.Engine.Configure` | R5c1/src/MainApp/aggregation/mains_signal_engine.cpp:272-325 | A profile is accepted exactly under the source's conditions, with the step of every probe; a refused one changes nothing |
| `MainsSignal.Engine.Correlate` | R5c1/src/MainApp/aggregation/mains_signal_engine.cpp:371-384 | Each addition to a 64-bit sum fits, and the sum stays the correlation of the analysed voltages with an oscillator that advances one step each |
| `MainsSignal.Engine.Accept` | R5c1/src/MainApp/aggregation/mains_signal_engine.cpp:341-393 | A sample joins the window: decimation, counters, validity and all seven sums stay those of the samples heard |
| `MainsSignal.Engine.CompleteWindow` | R5c1/src/MainApp/aggregation/mains_signal_engine.cpp:398-407 | A completed window reports 200 ms of consecutive samples, its exact number of analysed ones, its validity, and the means of the exact correlations of the samples before the first invalid one |
| `MainsSignal.Engine.ProcessSample` | R5c1/src/MainApp/aggregation/mains_signal_engine.cpp:327-396 | For every sample: a break or a malformed sample starts the window again and marks a discontinuity, any other extends it, and exactly the last sample of 200 ms completes it |
| `FlickerArithmetic.SaturatingExpression` | R5c1/src/MainApp/aggregation/flicker_engine.cpp:196-232 | The exact three-term sum clamped to 64 bits, flagged exactly when it clamps |
| `FlickerArithmetic.MultiplyQ30` | R5c1/src/MainApp/aggregation/flicker_engine.cpp:234-262 | Rounded half away from zero and clamped, flagged exactly when it clamps, on the narrow and the wide path alike |
| `FlickerArithmetic.RoundAwayIsNearest` | R5c1/src/MainApp/aggregation/flicker_engine.cpp:246-256 | That rounding is nearest, and a half goes away from zero |
| `FlickerArithmetic.MultiplyShift` | R5c1/src/MainApp/aggregation/flicker_engine.cpp:144-164 | Narrow and wide paths both give the exact shifted product held to the limit |
| `FlickerArithmetic.ShiftWide` | R5c1/src/MainApp/aggregation/flicker_engine.cpp:128-142 | The limb shift is floor division by a power of two, held to the limit |
| `FlickerArithmetic.NormalizeIsFloor` | R5c1/src/MainApp/aggregation/flicker_engine.cpp:166-194 | Normalisation is floor division by 2^30 on both paths and both signs, held within eight nominal units |
| `FlickerArithmetic.FastNormalizeFits` | R5c1/src/MainApp/aggregation/flicker_engine.cpp:172-184 | The fast path's product fits one word |
| `FlickerFilter.LevelIsRelative` | R5c1/src/MainApp/aggregation/flicker_engine.cpp:535-537 | A normalised level is the sample relative to the reference voltage to within three units of 2^-16 |
| `FlickerFilter.RunBiquadIsExact` | R5c1/src/MainApp/aggregation/flicker_engine.cpp:264-282 | A biquad step raises the flag exactly when some intermediate of the exact step leaves 64 bits, and is exact otherwise |
| `FlickerFilter.AdapterBetween` | R5c1/src/MainApp/aggregation/flicker_engine.cpp:637-652 | The tracked level always moves toward the mean square and never past it |
| `FlickerFilter.FittingRunsGrow` | R5c1/src/MainApp/aggregation/flicker_engine.cpp:557-715 | A run that fits has fitted all along, and its readings only grow |
| `FlickerPhase.RatioFits` | R5c1/src/MainApp/aggregation/flicker_engine.cpp:656-660 | The ratio of mean square to tracked level never saturates |
| `FlickerPhase.SquareFits` | R5c1/src/MainApp/aggregation/flicker_engine.cpp:593-604 | The sum of squares of a decimation group never saturates |
| `FlickerPhase.Phase.Gather` | R5c1/src/MainApp/aggregation/flicker_engine.cpp:557-606 | One sample is normalised, squared and summed; the flag is raised exactly when the sample was saturated or too large |
| `FlickerPhase.Phase.Track` | R5c1/src/MainApp/aggregation/flicker_engine.cpp:637-655 | The level tracker is the truncated exponential average held to its floor, with no 64-bit wrap, and the reciprocal is refreshed once a second |
| `FlickerPhase.Phase.Chain` | R5c1/src/MainApp/aggregation/flicker_engine.cpp:665-668 | Six biquads in place follow the exact chain, and the flag is raised exactly when it does not fit |
| `FlickerPhase.Phase.Weigh` | R5c1/src/MainApp/aggregation/flicker_engine.cpp:661-685 | From relative level to reading: exact while the flag is clear, and the flag says exactly whether every step fits |
| `FlickerPhase.Phase.ProcessSample` | R5c1/src/MainApp/aggregation/flicker_engine.cpp:557-715 | Over every run of samples since a reset the overflow flag is clear if and only if every intermediate of the exact unbounded recurrence fits the machine, and until then state and readings are exactly that recurrence's |
| `FlickerClassifier.BinHolds` | R5c1/src/MainApp/aggregation/flicker_engine.cpp:301-318 | A bin holds exactly the values between its edges |
| `FlickerClassifier.BinsMeet` | R5c1/src/MainApp/aggregation/flicker_engine.cpp:301-318 | Consecutive bins meet, so they tile the classified range |
| `FlickerClassifier.BinMonotone` | R5c1/src/MainApp/aggregation/flicker_engine.cpp:301-318 | A larger value never falls in a lower bin |
| `FlickerClassifier.Percentile` | R5c1/src/MainApp/aggregation/flicker_engine.cpp:717-739 | The search from the top finds the highest bin at which the count reaches the target |
| `FlickerClassifier.PercentileAgreesWithSorting` | R5c1/src/MainApp/aggregation/flicker_engine.cpp:717-739 | For any samples in any order the percentile is the midpoint of the bin of their k-th largest, k = ceil(total*tenths/1000) |
| `FlickerClassifier.PercentileIsClose` | R5c1/src/MainApp/aggregation/flicker_engine.cpp:717-739 | It is within a sixty-fourth of that sample when none lies outside the range |
| `FlickerClassifier.PercentileNonIncreasing` | R5c1/src/MainApp/aggregation/flicker_engine.cpp:717-739 | A level exceeded for longer is not higher |
| `IntegerRoot.IntegerSqrt` | R5c1/src/MainApp/aggregation/flicker_engine.cpp:320-336 | The digit loop gives the floor of the square root |
| `IntegerRoot.RootsAgree` | R5c1/src/MainApp/aggregation/flicker_engine.cpp:320-336 | On every 64-bit operand this root and the 128-bit root of the harmonic tiers are the same number |
| `FlickerSeverity.ShortTerm` | R5c1/src/MainApp/aggregation/flicker_engine.cpp:741-764 | The short-term severity is the floor root of the weighted smoothed percentiles and stays below 2^20 |
| `FlickerSeverity.CubeFits` | R5c1/src/MainApp/aggregation/flicker_engine.cpp:338-343 | No short-term severity is large enough for a cube to leave 64 bits |
| `FlickerSeverity.LongTerm` | R5c1/src/MainApp/aggregation/flicker_engine.cpp:766-783 | The bisection returns the largest severity, not above the greatest, whose cube does not exceed the mean cube; so it is never below the least |
| `FlickerSeverity.Interval.Tick` | R5c1/src/MainApp/aggregation/flicker_engine.cpp:684-714 | A severity is published exactly for a complete interval of 1,200,000 readings, all in range and undisturbed, that is not the first since the reset and with no arithmetic overflow since the reset; it is that of exactly those readings |
| `FlickerSeverity.Interval.Conclude` | R5c1/src/MainApp/aggregation/flicker_engine.cpp:874-897 | The histogram total is the number of readings, and the severity is that of their histogram |

## Left out

- One lane of each accumulator, one harmonic point and one phase stand for the
  arrays of them; the shared decisions (sequence, configuration, targets) are
  modelled once.
- The interval finaliser and the word layout of published records: a record
  carries the fold it finalises. `met_finalize_interval` is not part of this model.
- Valid masks, locked and fallback status words, phasor-invalid bits, sticky
  arithmetic flags of the interval tiers, frequency means and diagnostic counters.
- The contents and numbering of open previews beyond the accumulator they show.
- `met_expected_cycles` at a nominal frequency other than 50 or 60 Hz is the
  parameter `other`; `MET_SINE_QLUT` is any table of 1025 values up to 2^17.
- The arctangent of a harmonic vector, the root of a mains phasor, and frequency
  responses: only the exact vector, the exact correlation and the exact
  recurrence are stated.
- Weak memory ordering: every interleaving is sequentially consistent.
- The start-up path on which initialization fails and the input task suspends.
- FreeRTOS scheduling, AXI FIFO access, interrupts, RPMsg, health counters,
  session identifiers, and core 0.
- The assembly of an energy family from its records, the energy quadrant of a
  power pair and fixed-block demand; demand has one power lane and windows of up
  to 1800 s.
- Power-quality settings fingerprints, and the cause and status words of event
  records.
- The voltage-sample decoder and the matching of a staged flicker or mains
  profile to a packet; the hand-over itself is `SequenceLock`.
- The ring of the last twelve short-term severities: `LongTerm` takes the twelve.
- IntervalTree.AggregateIsFlat: the record carries the wrapping sum, the
  saturating square, the minimum and the maximum. The signed power and phasor
  lanes, which are not independent of grouping, are in `SignedLanes`, for every
  published 150/180-cycle, ten-minute and two-hour record; the accumulators in
  place carry none of them, and the block flag that lasts until an apply is
  there a flag of one fold.
- IntervalTree.TwoHourIsFlat: the unbroken numbering is stated for ten-minute
  intervals of at most 2^16 blocks, because the 16-bit counter loses the rest,
  and the sample axis for fewer than 2^32 samples in each, because that counter
  wraps too. Signed lanes as above.
- LongTiers.CascadeIsFlat: signed lanes as above.
- IntervalTypes.FoldConcat: signed lanes as above.
- TwoHourMarks.TwoHourGrows: stated for intervals whose block and sample counters
  did not wrap and for cycles that tile the sample axis.
- UtcGrid.TwoHourGrowsOnGrid: as `TwoHourGrows`, and like `UtcGrid.InsideOnGrid`
  for cycles that start one after another at a positive rate, a ten-minute
  interval or more before the end of the 64-bit sample axis.
- EnergyRuns.NoneTwice: what an incomplete older family can do to it is
  `EnergyRuns.AgainIffBehind`; numbers wrap after 2^32 families.
- HarmonicTiers.CascadeRecord: the numeric part is stated for fewer than 2^32
  base families in two hours, because the 32-bit contributor count wraps there.
- SequenceLock.EveryLoad: stated for fewer than 2^32 revisions during the
  attempt, because the revision register wraps there.
- FlickerPhase.Phase.ProcessSample: one phase with a flag of its own, where the
  original shares the flag between three phases.
- HarmonicEngine.Engine.Process: a family is one record of one point, where the
  original publishes a record for each of its points and can be refused between
  two of them.
- SpscRing.EveryInterleaving: the record ring is copied word by word like the
  frame ring, where the original assigns a whole record.
