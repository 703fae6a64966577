# htstools fragment aggregation and proper-pair fixing, in Dafny

This project models two tools from the htstools package. Both read a stream
of SAM/BAM alignment records.

- `dnafrags` filters the records and bins the leading mate of each pair by
  the midpoint of its fragment, per chromosome. When the stream moves to
  another chromosome, and once more at its end, it writes one row per bin:
  the bin key, the read count, the median fragment length and the
  chromosome name without "chr". With `--fill-in`, a CSV file also gets
  zero rows for the keys no fragment reached.
- `ppflag-fixer` writes every record back. It sets the "mapped in proper
  pair" bit (0x2) on the records its rule picks out, and counts the records
  read and the records edited.

The modules:

- `SamRecord` (`sam_record.dfy`): the record fields the tools read, the
  FLAG bits as `bv16`, and the C conversion of an `int` to `uint64_t`.
- `Rounding` (`rounding.dfy`): `roundPosition`, which rounds a midpoint to
  a multiple of the bin size: down when the remainder is below half the
  bin size (rounded down), up otherwise. For an even bin size that is the
  nearest multiple with ties going up. For an odd bin size, a remainder
  of exactly `bin_size / 2` goes up although the multiple below is nearer.
- `Median` (`median.dfy`): `calcMedian` over a sorted copy of the lengths.
  Sorting is an insertion sort specified as "sorted and a permutation".
- `Filter` (`filter.dfy`): the six filter checks of the read loop, which
  give one verdict per record, and the skip counters.
- `Flush` (`flush.dfy`): `flushOut`, both as a method with the C loops and
  as the function `FlushRows` it is proved equal to.
- `Aggregation` (`aggregation.dfy`): the read loop of `program_main`, with
  the chromosome switch, bin update and final flush.
  - The fold `Feed`/`Run` over the record stream is its specification.
  - The method `ProgramMain`, with its helper methods `ReadRecord`,
    `AcceptRecord` and `RecordFragment`, is the loop, proved against `Run`.
- `ProperPair` (`ppflag.dfy`): the marking rule, the flag edit and the
  counting loop of `ppflag-fixer`.

The model follows the C code in these places:

- Integer conversions are written out:
  - `reads < reads_min` compares against the `int` minimum converted to
    `uint64_t`, so a negative minimum hides every bin.
  - `--max-tlen` is a `uint64_t` whose default of -1 is 2^64 - 1.
  - `abs` of the smallest 32-bit `int` comes back negative.
- The length bounds are compared with the signed template length, not with
  its absolute value.
- An accepted record with a template length below 1 still opens or
  switches the chromosome. Only after that is it left out of the bins.
- Fill-in uses the previous key in first-seen order, whether or not that
  bin was written (`Flush.FillInAfterHiddenBinExample`).
- The first bin of a chromosome gets no fill-in rows: both the last and
  the expected previous position are 0 there.
- The fill-in stride is the constant 50, whatever the bin size.
- Keys are kept in the order first seen, and that need not be ascending.
  A fill-in whose previous key is above the current key, or not a multiple
  of 50 below it, steps past the key (`Flush.FillInMissesKeyExamples`). It
  then runs on until its 64-bit position wraps round, some 2^63 rows later,
  or for ever when the keys differ by an odd amount.
  - The model calls such a flush runaway: `Run` gives `None`.
  - `FlushOut` and `ProgramMain` require that no such flush occurs.

## Model

| member | source | states |
|---|---|---|
| SamRecord.AsU64 | dnafrags.cpp:148 | an `int` converted to `uint64_t` is the one value in [0, 2^64) congruent to it modulo 2^64 |
| Rounding.RoundPosition | dnafrags.cpp:110-122 | the rounded position is non-negative and lies within half a bin below or above the input, strictly above the lower end for bin sizes of 2 or more; bin size 1 leaves the input unchanged |
| Rounding.RoundPositionIsMultiple | dnafrags.cpp:110-122 | the rounded position is a multiple of the bin size |
| Rounding.RoundPositionUnique | dnafrags.cpp:110-122 | for bin sizes of at least 2, the rounded position is the only multiple of the bin size in the window (x - half, x + size - half], where half is the bin size / 2 rounded down; for an even bin size that is the nearest multiple |
| Rounding.RoundPositionOddHalfGoesFarther | dnafrags.cpp:115-121 | with an odd bin size, a remainder of bin size / 2 rounds up to the multiple above, although the one below is nearer |
| Rounding.RoundPositionTieRoundsUp | dnafrags.cpp:115-121 | a remainder of exactly half the bin size rounds up |
| Rounding.RoundPositionIdempotent | dnafrags.cpp:111-113 | a position already on a bin boundary stays where it is, so rounding a rounded position leaves it unchanged |
| Rounding.RoundPositionExamples | dnafrags.cpp:110-122 | with bin size 50: 124 goes to 100; 125 and 126 go to 150; 100 and 0 stay; 1 goes to 3 with bin size 3 and 25 to 51 with bin size 51 |
| Median.Insert | dnafrags.cpp:127 | inserting into a sorted list gives a sorted list with the same elements plus the new one |
| Median.SortAscending | dnafrags.cpp:127 | the sorted copy is sorted and a permutation of the lengths |
| Median.SortedUnique | dnafrags.cpp:127 | two sorted permutations of the same lengths are equal, so the sort result is determined |
| Median.SortOfSorted | dnafrags.cpp:127 | sorting sorted lengths leaves them unchanged |
| Median.CalcMedian | dnafrags.cpp:124-137 | no lengths give a median of 0.0, and a median is never negative |
| Median.MedianOrderIndependent | dnafrags.cpp:124-137 | the median depends only on the multiset of lengths, not their order |
| Median.MedianOfSorted | dnafrags.cpp:128-135 | for sorted lengths: the middle element for an odd count, the mean of the two central elements for an even count |
| Median.MedianBetweenLengths | dnafrags.cpp:124-137 | a non-empty median lies between the smallest and largest length |
| Median.MedianBetweenMiddle | dnafrags.cpp:128-135 | the median lies between the two central sorted lengths |
| Median.MedianOfSingle | dnafrags.cpp:133-135 | one length of 7 has median 7.0 |
| Median.MedianOfUnorderedFour | dnafrags.cpp:127-132 | the lengths 2, 8, 4, 6 have median 5.0 |
| Filter.Classify | dnafrags.cpp:282-305 | each verdict holds exactly when its check fails and all earlier checks pass; a record is accepted exactly when no check fails |
| Filter.Tally | dnafrags.cpp:281-304 | counting a record adds one to `total` and one to the counter of its skip verdict, and nothing to any other counter |
| Filter.ZeroLengthNeverAccepted | dnafrags.cpp:282-289 | a record with template length 0 is dropped by the quality or the position check |
| Filter.MateMismatchNeedsOption | dnafrags.cpp:302-305 | without `--rnext-ineq`, a record whose mate lies on another reference is dropped |
| Filter.LowMapqExample | dnafrags.cpp:290-293 | mapping quality 49 under the default minimum of 50 is dropped by the quality threshold |
| Flush.StripChr | dnafrags.cpp:140-143 | a leading "chr" is dropped from the name, and any other name is shown unchanged |
| Flush.WriteGaps | dnafrags.cpp:161-167 | the fill-in loop appends one zero row per step of 50, from the previous key + 50 up to (but not including) the bin's key |
| Flush.WriteBin | dnafrags.cpp:145-174 | one loop iteration appends exactly the rows of that bin: nothing below the reads minimum, else fill-in rows (CSV with fill-in) followed by the data row |
| Flush.FlushOut | dnafrags.cpp:139-176 | the rows written are `FlushRows`: the bins in first-seen key order, each as `WriteBin` states |
| Flush.GapsBeforeShape | dnafrags.cpp:152-168 | the zero rows before the bin at index i: none for the first bin; otherwise (key - previous key) / 50 - 1 rows carrying the keys previous + 50, previous + 100, ... in order |
| Flush.BinRowsShape | dnafrags.cpp:145-171 | a bin writes nothing exactly when it is below the reads minimum; otherwise its last row is its data row, and any rows before it are zero rows of a CSV file with fill-in |
| Flush.FlushRowsShape | dnafrags.cpp:144-175 | without a CSV file only console lines are written, with one only CSV rows, and zero rows only with fill-in; leaving zero rows aside, one data row per bin that reaches the reads minimum, in first-seen key order |
| Flush.GapRowsShape | dnafrags.cpp:162-167 | the fill-in rows are (stop - start) / 50 rows carrying the keys start, start + 50, ... in order |
| Flush.BinRowsWithFillIn | dnafrags.cpp:152-171 | with fill-in, the first bin gets no zero rows; a later bin gets exactly the zero rows strictly between the previous key and its own |
| Flush.ShownKeysMembership | dnafrags.cpp:148-150 | a key is written exactly when it was seen and its bin reaches the reads minimum; with a non-negative minimum, that means `reads >= reads_min` |
| Flush.NegativeReadsMinHidesAll | dnafrags.cpp:148-150 | a negative reads minimum, compared as unsigned, hides every bin of realistic size |
| Flush.FillInExample | dnafrags.cpp:152-171 | bins at 100 and 250 with fill-in give the rows 100, 150 (zero), 200 (zero), 250 |
| Flush.FillInAfterHiddenBinExample | dnafrags.cpp:148-168 | a hidden bin at 150 between 100 and 250 still serves as the previous key: only a zero row at 200 is written |
| Flush.FillInMissesKeyExamples | dnafrags.cpp:162-167 | keys 300 then 150, or 30 then 60, are not one or more steps of 50 apart, so the fill-in loop steps past the key |
| Aggregation.BinKey | dnafrags.cpp:328-338 | the key is the midpoint `pos + isize / 2` when the bin size is 0 or 1; otherwise it is a multiple of the bin size in the half-open window (midpoint - half, midpoint + size - half], half being the bin size / 2 rounded down |
| Aggregation.BinKeyUnique | dnafrags.cpp:328-338 | for bin sizes of 2 or more, every multiple of the bin size in that window is the key, so half a bin rounds up as `roundPosition` does |
| Aggregation.BinKeyTieExample | dnafrags.cpp:328-338 | a fragment at 100 with template length 50 (midpoint 125) goes to the bin at 150 with bin size 50 |
| Aggregation.AddFragment | dnafrags.cpp:339-347 | a new key is appended to the key list; the key's bin gains one read and the length; every other bin is unchanged; the map and the key list keep agreeing |
| Aggregation.AddFragmentReads | dnafrags.cpp:339-347 | adding a fragment adds exactly one read across all bins |
| Aggregation.Step | dnafrags.cpp:279-347 | one record leaves the session valid, counts it under its verdict, and only appends to the rows written |
| Aggregation.StepDropped | dnafrags.cpp:282-305 | a dropped record changes only the counters: not the chromosome, the bins or the output |
| Aggregation.StepSwitch | dnafrags.cpp:311-327 | an accepted record on another reference flushes the open chromosome's rows, opens its own chromosome with empty bins, and adds itself if it is a leading mate |
| Aggregation.StepStay | dnafrags.cpp:306-347 | an accepted record on the open chromosome writes nothing and adds itself to a bin only if its template length is positive |
| Aggregation.Feed | dnafrags.cpp:279-366 | the read loop over a stream keeps the session valid, counts every record in `total`, and never takes back a row once written |
| Aggregation.FinalFlush | dnafrags.cpp:381-383 | the flush after the stream runs away exactly when the open chromosome's fill-in would; with no chromosome open it writes nothing; otherwise it writes the open chromosome's data rows as `FlushRowsShape` states |
| Aggregation.Run | dnafrags.cpp:279-383 | a finished run counts every record in `total`, and its rows extend those written while reading |
| Aggregation.FeedAppend | dnafrags.cpp:279-366 | reading `a + b` is reading `a`, then `b` from where `a` left off |
| Aggregation.FeedAfterSwitch | dnafrags.cpp:306-347 | after one chromosome, the next chromosome's records change neither the chromosome, the bins nor the output until one is accepted; from then on the first chromosome's rows are written and the bins are those a fresh run over the new records builds |
| Aggregation.RunTwoChromosomes | dnafrags.cpp:279-383 | a run over the records of one chromosome and then another writes exactly the first chromosome's flush followed by the second's, each binned as a run over its own records alone |
| Aggregation.FeedCounts | dnafrags.cpp:281-304 | after a stream, each skip counter grew by the number of records its check dropped |
| Aggregation.VerdictsPartition | dnafrags.cpp:282-305 | every record receives exactly one verdict |
| Aggregation.FeedSummary | dnafrags.cpp:281-305 | from the start, `total` is the number of records, and `total` less every skip counts the accepted records |
| Aggregation.RunCounts | dnafrags.cpp:281-305 | a finished run's `total` is the number of records, and `total` less every skip counts the accepted records |
| Aggregation.RunProcessedAsWritten | dnafrags.cpp:379 | the printed "processed" figure counts the accepted records plus those dropped for their mate's reference |
| Aggregation.MateSkipReportedProcessed | dnafrags.cpp:379 | one record with its mate on another reference is dropped, yet is reported as processed |
| Aggregation.FeedOneChromosome | dnafrags.cpp:306-347 | records of one chromosome write nothing, and add one read per accepted leading mate |
| Aggregation.RunOneChromosome | dnafrags.cpp:279-383 | a run over one chromosome writes exactly the final flush of a single aggregate, which holds one read per accepted leading mate |
| Aggregation.RecordFragment | dnafrags.cpp:339-347 | the in-place bin update computes `AddFragment` |
| Aggregation.AcceptRecord | dnafrags.cpp:306-347 | the chromosome switch and bin update for an accepted record compute `Step` |
| Aggregation.ReadRecord | dnafrags.cpp:281-347 | one iteration of the read loop (filter chain, counters, switch and bin update) computes `Step` |
| Aggregation.ProgramMain | dnafrags.cpp:279-383 | the read loop followed by the final flush yields exactly the rows and counters of `Run` |
| ProperPair.CAbs | ppflag-fixer.cpp:124 | C `abs` on a 32-bit `int` is the absolute value wrapped into the 32-bit range (congruent to it modulo 2^32), so the smallest `int` comes back negative |
| ProperPair.ShouldMark | ppflag-fixer.cpp:124-133 | the marking rule; a record it picks has a non-zero template length, its mate on its own reference and no 0x2 bit yet, and under an explicit bound an absolute length within it |
| ProperPair.Fix | ppflag-fixer.cpp:124-136 | only bit 0x2 of the flag can change; it is set afterwards exactly when it was set before or the rule holds; the record changes exactly when the rule holds |
| ProperPair.FixIdempotent | ppflag-fixer.cpp:131-135 | fixing a fixed record changes nothing |
| ProperPair.MarkedUnchanged | ppflag-fixer.cpp:131 | a record already marked as a proper pair is written back as it was |
| ProperPair.ChangeNeedsPairedMappedPrimary | ppflag-fixer.cpp:125-133 | a changed record has its mate on its own reference, is paired, has both mates mapped, is primary and not supplementary, is oriented towards its mate, and has a non-zero length |
| ProperPair.ZeroTlenNeverMarked | ppflag-fixer.cpp:132-133 | a template length of 0 is never marked |
| ProperPair.ChangeWithinBound | ppflag-fixer.cpp:124 | under an explicit bound, a changed record's absolute template length is within it |
| ProperPair.NegativeMaxTlenUnbounded | ppflag-fixer.cpp:124 | a negative `--max-tlen`, stored as unsigned, acts as no bound at all |
| ProperPair.ForwardMateMarked | ppflag-fixer.cpp:124-135 | a paired first mate with length 300 whose mate is on the reverse strand gets the 0x2 bit |
| ProperPair.MarkedAreChanged | ppflag-fixer.cpp:135-136 | the number of records the rule marks equals the number of records the fix changes |
| ProperPair.MarkIfProper | ppflag-fixer.cpp:124-137 | the bit-by-bit test and edit of one record compute `Fix`, and report whether it marked |
| ProperPair.FixProperPairs | ppflag-fixer.cpp:118-142 | every record is written back in order as `Fix` makes it; `total` is the record count; `edited` counts both the marked and the changed records and is at most `total` |

## Left out

- Option parsing (`argp`), the check that the output file does not exist yet, and the file-open failure paths are not modelled. The options become the `Config`, `Criteria` and `Sink` values and the `maxTlen` parameter.
- Reading and writing SAM/BAM through htslib is not modelled. The input is a sequence of records, the header is a sequence of reference names, and the output is a sequence of rows.
- The write-failure abort of `ppflag-fixer` is not modelled.
- Text formatting is not modelled: the CSV header line, the "Results:" line, the `%.1f` rendering of medians and the run summary's wording. Medians are exact rationals (`real`), not `double`.
- The progress bar, the index statistics behind it, and the run timing are I/O and clock reads. They do not affect the output rows.
- The `outFunc` pointer always points at `flushOut` and is modelled as that call.
- The skip and total counters are unbounded: a `uint64_t` wrap-around is not modelled.
- A negative `--bin-size` is not modelled: the bin size is a `nat`.
- Aggregation.ProgramMain: requires every record to be `Admissible` (reference id -1 or within the header; position -1 or more; template length in the 32-bit range; midpoint plus one bin within a 32-bit `int`). The `uint64_t`-to-`int` truncation when `roundPosition` is called is therefore not modelled.
- Aggregation.ProgramMain: requires that no flush reaches a runaway fill-in (`Run(...).Some?`). On such input the C loop writes some 2^63 or infinitely many zero rows; the model only says `Run` is `None`.
- Flush.FlushOut: requires `GapFillEnds` for the same reason.
- Whenever no chromosome is open at the end of the stream, the final flush in the code reads header entry -1. That happens with no accepted record at all, or when every accepted record had reference id -1, even though bins were filled. The model writes nothing there (`FinalFlush`).
- An accepted record whose reference id is -1 leaves the chromosome closed, as in the code. Its bins then carry over into the next chromosome opened.
- ProperPair.Fix: the template length must fit a 32-bit `int` (`TlenFits`), as the record field does.

## Findings

| source | as written | input that shows it | evidently intended | confidence | as-written member | corrected member |
|---|---|---|---|---|---|---|
| dnafrags.cpp:379 | "processed" is `total` minus the quality, mapping-quality, length and position skips; `rnext_skipped` is not subtracted | one record on reference 0 with its mate on reference 1, under the default options: dropped by the mate check, yet reported as 1 processed | `total` minus every skip counter, i.e. the records that passed all filters | high, not executed | Aggregation.MateSkipReportedProcessed | Aggregation.RunCounts |
