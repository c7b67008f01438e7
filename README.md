# Thin-block resource accounting and statistics

This is a Dafny model of two pieces of a Bitcoin Unlimited node's thin-block relay, as the unit test file `src/test/thinblock_data_tests.cpp` pins them down.

1. The **byte tracker** (`thinrelay`). It keeps a process-wide count of the bytes held by thin blocks under reconstruction, and each block keeps its own `nCurrentBlockSize`.
   - Adding bytes raises both counts.
   - A delete releases bytes from the total only.
   - A delete larger than the total is refused and leaves the total as it was. This is an anti-denial-of-service rule: a bogus size report cannot reset the accounting to zero.
2. The **statistics recorder** (`CThinBlockData`, with the test's scripted clock `TestTBD`). It keeps one channel of time-stamped samples per statistic, and a summary string renders each channel's aggregate:
   - the fraction of full-block bytes saved, as "66.7%";
   - the average bloom-filter size and the sum of mempool-limiter savings, as "49.50KB" and "4.95MB";
   - the number of re-request events, as ":100".

The headers that implement these classes, `blockrelay/thinblock.h` and `blockrelay/blockrelay_common.h`, are not part of this model. The model therefore follows what the test asserts.

Modules:

- `ByteTracker` (`byte_tracker.dfy`):
  - the classes `ThinRelay` and `BlockThinRelay`, whose methods update their fields in place;
  - a value-level account (`Step`, `Run`) of whole series of calls, with lemmas about adds, deletes, resets and clears.
- `ScriptedClock` (`scripted_clock.dfy`): the reading of the saturating time list.
- `Aggregates` (`aggregates.dfy`):
  - samples, the sums, the ratio saved and the average, all defined as 0 on an empty channel;
  - retention by timestamp, plus lemmas for ramps of samples.
- `Formatting` (`formatting.dfy`):
  - exact fixed-point rendering, with round-trip lemmas;
  - byte units in steps of 1000;
  - percentages and substring search.
- `ThinBlockStats` (`thinblock_stats.dfy`): the class `ThinBlockData`, holding the clock list, its cursor, the window and the channels, with update methods and summaries.
- `ThinBlockDataTests` (`thinblock_data_tests.dfy`): each test block as a method whose `ensures` is the value the test checks.
  - The update loops keep their `while` loops, with invariants that describe the channel built so far.

## Model

| member | source | states |
|---|---|---|
| ByteTracker.BlockThinRelay.constructor | src/test/thinblock_data_tests.cpp:51-56 | a new block has accumulated 0 bytes |
| ByteTracker.BlockThinRelay.SetNull | src/test/thinblock_data_tests.cpp:95-99 | clearing a block zeroes its byte count and changes nothing else |
| ByteTracker.Deleted | src/test/thinblock_data_tests.cpp:70-86 | a delete that fits lowers the total by exactly the amount; a larger one leaves the total unchanged; the total never grows |
| ByteTracker.DeleteNeverResets | src/test/thinblock_data_tests.cpp:80-86 | after a delete the total is 0 exactly when it already was 0 or the delete asked for all of it, so an oversized delete cannot zero it |
| ByteTracker.ThinRelay.constructor | src/test/thinblock_data_tests.cpp:54-55 | a fresh tracker holds 0 bytes |
| ByteTracker.ThinRelay.AddTotalBlockBytes | src/test/thinblock_data_tests.cpp:58-68 | the total and the block's count both rise by exactly the amount added (so adding 0 changes neither) |
| ByteTracker.ThinRelay.DeleteTotalBlockBytes | src/test/thinblock_data_tests.cpp:70-86 | the new total is `Deleted(old total, bytes)`; only the total may change, never a block's count |
| ByteTracker.ThinRelay.ResetTotalBlockBytes | src/test/thinblock_data_tests.cpp:110-112 | the total is 0 from any state |
| ByteTracker.ThinRelay.GetTotalBlockBytes | src/test/thinblock_data_tests.cpp:55 | returns the current total and changes nothing |
| ByteTracker.Step | src/test/thinblock_data_tests.cpp:54-112 | per call kind: add raises the total and the named block; delete applies `Deleted` to the total and keeps every block; reset zeroes the total only; clear zeroes one block only; other blocks keep their counts |
| ByteTracker.StepMatchesMethods | src/test/thinblock_data_tests.cpp:54-112 | on a tracker with one block, Step moves the total and the block's count exactly as the postconditions of AddTotalBlockBytes, DeleteTotalBlockBytes, ResetTotalBlockBytes and SetNull say, which ties the series lemmas to the classes |
| ByteTracker.AddsAccumulate | src/test/thinblock_data_tests.cpp:58-68 | over any series of adds the total grows by their sum and each block by the sum of the amounts added to it |
| ByteTracker.DeletesRelease | src/test/thinblock_data_tests.cpp:70-78 | over any series of deletes no block changes, the total never grows and never loses more than was asked for, and it loses exactly that much when it held that much |
| ByteTracker.ResetThenAdds | src/test/thinblock_data_tests.cpp:54-68 | after a reset followed by adds, the total is exactly the sum added |
| ByteTracker.SetNullThenAdd | src/test/thinblock_data_tests.cpp:95-99 | clearing a block and adding n leaves the block at n and the total n higher |
| ScriptedClock.ScriptedTime | src/test/thinblock_data_tests.cpp:22 | on a non-empty list, the reading at cursor idx is `times[idx]` while idx is in range and the last entry afterwards |
| ScriptedClock.ScriptedTimeMonotone | src/test/thinblock_data_tests.cpp:22 | over a non-decreasing list, the readings never go backwards as the cursor advances |
| ScriptedClock.MinuteTimes | src/test/thinblock_data_tests.cpp:117-122 | the test's list has n entries, entry k is 60000·k milliseconds, and it is non-decreasing |
| ThinBlockStats.ThinBlockData.constructor | src/test/thinblock_data_tests.cpp:27-32 | needs a non-empty time list; the cursor starts at 0 and every channel is empty |
| ThinBlockStats.ThinBlockData.GetTimeForStats | src/test/thinblock_data_tests.cpp:22 | returns the reading at the old cursor, saturating at the last entry, and advances the cursor by one |
| ThinBlockStats.ThinBlockData.ResetTimeIdx | src/test/thinblock_data_tests.cpp:33 | rewinds the cursor to 0 |
| ThinBlockStats.ThinBlockData.Record | src/test/thinblock_data_tests.cpp:142-143 | recording a sample keeps it, as the last sample; every sample left is within the window of its stamp; the old samples that remain are exactly the retained (recent) ones, in their order |
| ThinBlockStats.ThinBlockData.UpdateInBound | src/test/thinblock_data_tests.cpp:142-143 | the cursor advances by one; the inbound channel becomes `Record` of the old channel with the sample (thin, full) stamped with the reading at the old cursor (one reading per update is a modelling assumption, see below); every kept sample is within the window |
| ThinBlockStats.ThinBlockData.UpdateOutBound | src/test/thinblock_data_tests.cpp:153-154 | the same for the outbound channel |
| ThinBlockStats.ThinBlockData.UpdateInBoundBloomFilter | src/test/thinblock_data_tests.cpp:164-165 | the same for the inbound bloom-filter sizes |
| ThinBlockStats.ThinBlockData.UpdateOutBoundBloomFilter | src/test/thinblock_data_tests.cpp:175-176 | the same for the outbound bloom-filter sizes |
| ThinBlockStats.ThinBlockData.UpdateInBoundReRequestedTx | src/test/thinblock_data_tests.cpp:186-187 | the same for the re-request events |
| ThinBlockStats.ThinBlockData.UpdateMempoolLimiterBytesSaved | src/test/thinblock_data_tests.cpp:196-197 | the same for the mempool-limiter savings |
| ThinBlockStats.ThinBlockData.InBoundPercentToString | src/test/thinblock_data_tests.cpp:145-147 | the summary contains the inbound saved fraction rendered as a percentage with one decimal |
| ThinBlockStats.ThinBlockData.OutBoundPercentToString | src/test/thinblock_data_tests.cpp:156-158 | the same for outbound |
| ThinBlockStats.ThinBlockData.InBoundBloomFiltersToString | src/test/thinblock_data_tests.cpp:167-169 | the summary contains the average inbound filter size in the unit ScaleToUnit picks, with two decimals |
| ThinBlockStats.ThinBlockData.OutBoundBloomFiltersToString | src/test/thinblock_data_tests.cpp:178-179 | the same for outbound |
| ThinBlockStats.ThinBlockData.ReRequestedTxToString | src/test/thinblock_data_tests.cpp:189-190 | the summary contains ":" followed by the number of re-request events |
| ThinBlockStats.ThinBlockData.MempoolLimiterBytesSavedToString | src/test/thinblock_data_tests.cpp:199-200 | the summary contains the summed savings in the unit ScaleToUnit picks, with two decimals |
| ThinBlockStats.ThinBlockData.ToString | src/test/thinblock_data_tests.cpp:128 | the combined report contains each of the six summaries |
| Aggregates.Retained | src/test/thinblock_data_tests.cpp:142-143 | every kept sample is from the channel and recent enough, every recent sample of the channel is kept, and the result is no longer than the channel |
| Aggregates.RetainedCounts | src/test/thinblock_data_tests.cpp:142-143 | every copy of a recent sample is kept and no copy of an old one, so identical samples are kept with their multiplicity |
| Aggregates.RetainedAppend | src/test/thinblock_data_tests.cpp:142-143 | retaining a concatenation retains each part, so the kept samples stay in their order |
| Aggregates.RetainedSingle | src/test/thinblock_data_tests.cpp:142-143 | a single sample is kept exactly when it is stamped at or after the cutoff |
| Aggregates.RetainedAll | src/test/thinblock_data_tests.cpp:117-122 | while every sample is recent enough, retention drops nothing |
| Aggregates.RatioSaved | src/test/thinblock_data_tests.cpp:142-147 | the saved fraction is 0 when no full bytes were recorded and never above 1 |
| Aggregates.RatioSavedMeaning | src/test/thinblock_data_tests.cpp:142-147 | where full bytes were recorded, (1 − saved fraction) times the full total is the thin total |
| Aggregates.RatioSavedInUnitRange | src/test/thinblock_data_tests.cpp:142-147 | when no thin block is larger than its full block, the saved fraction lies in [0, 1] |
| Aggregates.RatioSavedOfProportional | src/test/thinblock_data_tests.cpp:142-147 | when every full size is f times its thin size, the saved fraction is 1 − 1/f, and 0 while nothing was recorded |
| Aggregates.AverageMeaning | src/test/thinblock_data_tests.cpp:164-169 | the average times the sample count is the sum, and the average lies between 0 and any bound on the values |
| Aggregates.ValueTotalBounded | src/test/thinblock_data_tests.cpp:196-200 | the sum of a channel is at most its length times any bound on its values |
| Aggregates.ValueTotalOfRamp | src/test/thinblock_data_tests.cpp:196-200 | over values step·k, twice the sum is step·n·(n − 1) |
| Aggregates.ThinTotalOfRamp | src/test/thinblock_data_tests.cpp:142-143 | over thin sizes k, twice the sum is n·(n − 1) |
| Formatting.NatToString | src/test/thinblock_data_tests.cpp:189-190 | the decimal digits of n: non-empty, digits only, no leading zero, and they read back as n |
| Formatting.PadDigits | src/test/thinblock_data_tests.cpp:167-169 | exactly `width` digits that read back as n |
| Formatting.ScaledDigits | src/test/thinblock_data_tests.cpp:145-147 | the magnitude scaled by 10^d, rounded to within one half |
| Formatting.FractionPart | src/test/thinblock_data_tests.cpp:145-147 | the last d digits: below 10^d, and the whole part shifted by d digits plus them is q |
| Formatting.FixedPoint | src/test/thinblock_data_tests.cpp:145-147 | the rendering is non-empty and starts with '-' exactly when the value is negative |
| Formatting.UnsignedDecimalRoundTrip | src/test/thinblock_data_tests.cpp:145-147 | parsing the rendering of q with d decimals gives back q |
| Formatting.DecimalStringRoundTrip | src/test/thinblock_data_tests.cpp:145-147 | the same with a sign |
| Formatting.FixedPointRoundTrip | src/test/thinblock_data_tests.cpp:167-169 | parsing the fixed-point rendering of x gives back the signed scaled digits of x |
| Formatting.PercentRoundTrip | src/test/thinblock_data_tests.cpp:145-147 | a percentage ends in '%' and the number before it parses back to 100 times the fraction, rounded to one decimal |
| Formatting.FormatInfoUnitRoundTrip | src/test/thinblock_data_tests.cpp:167-169 | a byte-size rendering is a number followed by the chosen unit's name; the number parses back to the value in that unit rounded to two decimals, and that value times 1000 per unit step is the byte count |
| Formatting.ScaleToUnit | src/test/thinblock_data_tests.cpp:196-200 | the chosen unit is valid; the value in it times 1000 per step is the input; it stays at most 1000 in magnitude unless the last unit is reached; and each step is taken only from above 1000 |
| Formatting.Contains | src/test/thinblock_data_tests.cpp:147 | a string found inside another is no longer than it |
| Formatting.ContainsMeaning | src/test/thinblock_data_tests.cpp:147 | Contains holds exactly when the string occurs at some position, which is what a successful `find` reports |
| Formatting.ContainsInfix | src/test/thinblock_data_tests.cpp:147 | a string is found inside any string that has it as a middle part |
| Formatting.JoinLinesContains | src/test/thinblock_data_tests.cpp:128 | every line is found inside the joined report |
| Formatting.ZeroDecimal | src/test/thinblock_data_tests.cpp:129-136 | zero with d decimals is "0." followed by d zeros |
| Formatting.ZeroPercent | src/test/thinblock_data_tests.cpp:129-130 | a zero fraction renders as "0.0%" |
| Formatting.ZeroBytes | src/test/thinblock_data_tests.cpp:131-136 | zero bytes render as "0.00B" |
| ThinBlockDataTests.PercentOfTwoThirds | src/test/thinblock_data_tests.cpp:147 | two thirds renders as "66.7%" |
| ThinBlockDataTests.KilobytesOfAverage | src/test/thinblock_data_tests.cpp:169 | 49500 bytes render as "49.50KB" |
| ThinBlockDataTests.MegabytesOfSum | src/test/thinblock_data_tests.cpp:200 | 4950000 bytes render as "4.95MB" |
| ThinBlockDataTests.EmptyRatio | src/test/thinblock_data_tests.cpp:129-130 | the saved fraction of an empty channel renders as "0.0%" |
| ThinBlockDataTests.EmptyAverage | src/test/thinblock_data_tests.cpp:131-132 | the average of an empty channel renders as "0.00B" |
| ThinBlockDataTests.EmptySum | src/test/thinblock_data_tests.cpp:136 | the sum of an empty channel renders as "0.00B" |
| ThinBlockDataTests.SizeRamp | src/test/thinblock_data_tests.cpp:142-143 | the inbound channel after n updates under the one-reading clock assumption: sample k is (k, 3k), stamped k minutes in |
| ThinBlockDataTests.ByteRamp | src/test/thinblock_data_tests.cpp:164-165 | the byte channel after n updates under the one-reading clock assumption: sample k is 1000·k, stamped k minutes in |
| ThinBlockDataTests.SizeRampGrows | src/test/thinblock_data_tests.cpp:142-143 | one more update at the next minute extends the ramp by one and drops nothing |
| ThinBlockDataTests.ByteRampGrows | src/test/thinblock_data_tests.cpp:164-165 | the same for the byte ramp |
| ThinBlockDataTests.SizeRampSaved | src/test/thinblock_data_tests.cpp:142-147 | over (k, 3k) for k < 100 the saved fraction is exactly 2/3 |
| ThinBlockDataTests.ByteRampTotals | src/test/thinblock_data_tests.cpp:164-169 | over 1000·k for k < 100 the sum is 4950000 and the average 49500 |
| ThinBlockDataTests.ByteTrackingScenario | src/test/thinblock_data_tests.cpp:39-113 | the totals and block counts after each call are exactly the values the test checks, including the refused delete of 436993 |
| ThinBlockDataTests.FirstBlock | src/test/thinblock_data_tests.cpp:54-86 | the totals and block counts after each call of the first block are the values the test checks, and the oversized delete leaves 436992 |
| ThinBlockDataTests.SecondBlock | src/test/thinblock_data_tests.cpp:95-112 | from 436992, clearing the block and the calls that follow give the totals and block count the test checks, ending at 0 after the reset |
| ThinBlockDataTests.EmptySummariesScenario | src/test/thinblock_data_tests.cpp:124-137 | on a fresh recorder every summary is defined and reports a zero aggregate ("0.0%", "0.00B", ":0") |
| ThinBlockDataTests.InBoundScenario | src/test/thinblock_data_tests.cpp:139-148 | after 100 inbound updates the summary contains "66.7%" |
| ThinBlockDataTests.OutBoundScenario | src/test/thinblock_data_tests.cpp:150-159 | after 100 outbound updates the summary contains "66.7%" |
| ThinBlockDataTests.InBoundBloomFilterScenario | src/test/thinblock_data_tests.cpp:161-170 | after 100 inbound filter updates the summary contains "49.50KB" |
| ThinBlockDataTests.OutBoundBloomFilterScenario | src/test/thinblock_data_tests.cpp:172-180 | after 100 outbound filter updates the summary contains "49.50KB" |
| ThinBlockDataTests.ReRequestedTxScenario | src/test/thinblock_data_tests.cpp:183-191 | after 100 re-request updates the summary contains ":100" |
| ThinBlockDataTests.MempoolLimiterScenario | src/test/thinblock_data_tests.cpp:193-201 | after 100 limiter updates the summary contains "4.95MB" |

## Left out

- Byte counts are unbounded naturals. The source's 64-bit counters and their wrap-around are not modelled; no shown value comes near the limit.
- Locking around the shared total and the channels is not modelled. Every operation is sequential on one instance.
- The node's own clock, the production `getTimeForStats`, is not modelled. Only the scripted clock of the test is.
- How the recorder reads its clock is assumed, because the header that calls `getTimeForStats` is not part of this model: each update reads the clock exactly once and uses that reading both as the sample's stamp and as the base of the pruning cutoff, and no summary reads the clock. If the recorder read the clock more often, the samples would get other entries of the list as stamps.
- The network objects the test builds as scaffolding (`CNode`, `CAddress`, `CXThinBlock`) are not modelled. They carry no accounting.
- Of a block's state, only `nCurrentBlockSize` is modelled.
- The response-time and validation-time channels and their summaries are not modelled. The test calls them but checks no value.
- Formatting.FixedPoint: renders exact rationals rounded half up. It does not model the binary floating point and printf rounding of the source, which can differ at exact halves.
- ThinBlockStats.ThinBlockData.ToString: states only that the report contains each summary. Its layout and wording are not modelled.
- The captions of the summary strings use wording of our own. Only the rendered values, which the test searches for, are fixed.
- The channels are sequences in recording order, not maps keyed by timestamp. Two samples with the same timestamp are both kept.
- Pruning of expired samples is modelled on update only, with the window as a parameter. That pruning is a modelling assumption: the shown test never lets a sample expire.
- `src/threadgroup.h` (thread lifecycle) and `src/electrum/electrs.h` (launching an external process) are not part of this model.
- `blockrelay/thinblock.h` and `blockrelay/blockrelay_common.h` are not part of this model.
