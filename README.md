# rmdup deduplication engine in Dafny

rmdup reads alignment records sorted by template name. It groups them by a
template-group key taken from the read name. Its comments state the intent:
within a group, keep the best-scoring alignment of every single read
(rmdup.py:71) and the highest-scoring read pair (rmdup.py:113, :176), and log
the other records. The code does less than that. It writes the pair of the
bucket visited last, it never logs a losing pair, and it never writes the
final group. "Where the code and its own comments disagree" below lists each
case, and the model follows the code. Each log line starts with a
one-character category:

- `!` data error;
- `<` low score;
- `=` more than one best (never emitted);
- `~` mates on different references;
- `?` span out of bounds.

This project models the engine of `rmdup.py`, from reading a record to
deciding whether it is written or logged. It has five parts:

- `records.dfy` (module `Records`): the record, bucket and log-entry
  datatypes and the category constants. It also holds the `Sink` class, whose
  append-only `out` and `log` sequences stand for the output alignment file
  and the log file.
- `scoring.dfy` (module `Scoring`): the CIGAR score of one alignment and of a
  pair. `ScoreByCigar` is the source's counting loop, proved equal to the
  function `CigarScore`.
- `geometry.dfy` (module `Geometry`): the fragment span of a pair
  (`ReadPairLen`) and the pair key. The key is built from
  `refname.strip() + str(pos)` strings, compared with Python's
  lexicographic string order, which is modelled as `LexLess`.
- `singles.dfy` (module `SingleSelection`) and `pairs.dfy` (module
  `PairSelection`): `UniqueSingleReads` and `UniquePairedReads`.
  - Each is an imperative method whose loop is proved against a
    specification function over a visiting order of the dictionary's keys
    (`FlushSingles`, `ScanPairs` with `FlushPairs`).
  - Lemmas prove what these functions promise: which record is kept, what
    is logged, and what is counted.
- `driver.dfy` (module `Driver`) and `pass.dfy` (module `Pass`): the record
  loop of `main`.
  - The class `Deduplicator` holds the two dictionaries, the current group
    key and the two counters. Its methods update them in place.
  - Each step of the loop is tied to the function `Step`.
  - The invariant `Progress` is proved to hold across every step.
  - `Deduplicate` is proved equal to `Run`, the fold of `Step` over the
    records. It also states what the whole pass guarantees.

### Where the code and its own comments disagree

The model follows the code in each case.

- **Last group.** No flush follows the record loop (rmdup.py:267-329), so
  records of the final group are never written. `Pass.Deduplicate` proves
  this: on a completed pass, `finalGroupStart` is where the last run of
  records with one group key begins (the record before it has another key),
  and everything written comes before it.
- **Logging arrival errors.** Arrival errors, which are a slot already taken
  or a properly paired read with neither mate flag, are logged at once. So
  records of the final group can still appear in the log, and only as `!`:
  `Pass.Deduplicate` proves that every line logged after the turn on the
  final group's first record is `!`, and `Driver.StepLogsFlushThenErrors`
  that this turn logs the previous group's flush followed only by `!`.
- **Losing pairs.** The log legend lists `<` as "Low score alignments"
  (rmdup.py:25), and `UniqueSingleReads` logs its losers that way. In
  `UniquePairedReads` a valid pair that does not beat the running best is
  never logged (`PairSelection.ScanPairsLog`). It is written only when its
  bucket is the last one visited and some pair won
  (`PairSelection.FlushPairsOutcome`).
- **Which pair is written.** The comments say "Keep alignment pairs with the
  highest score" (rmdup.py:113) and "write best pair" (rmdup.py:176). The
  code then writes `pair[0]` and `pair[1]` (rmdup.py:179-180), the slots of
  the bucket visited last, not `bestPair` (`PairSelection.FlushPairs`,
  `PairSelection.ExcludedLastBucketIsWritten`). The two agree when the best
  bucket is the last one visited (`PairSelection.WrittenPairIsBestWhenLast`).
- **Categories.** The legend lists `=` for "Pairs with more than one best
  score" (rmdup.py:26), but no line of the code logs it
  (`Driver.MultiBestNeverEmitted`). It describes `~` as "Read pair mapped on
  the same strand" (rmdup.py:27), but the code logs `~` when the mates'
  reference names differ (rmdup.py:147-152, `PairSelection.Classify`).
- **Failed writes.** If the last visited bucket lacks a mate while some pair
  won, the code writes a missing record. That write fails and stops the
  pass, which is modelled as the outcome `AbsentMateWritten`.

The model states the code's behaviour as written.

## Model

| member | source | states |
|---|---|---|
| Scoring.CigarScore | rmdup.py:43-52 | The score is -1 exactly when the operation lengths sum to 0. Otherwise it lies in 0..100. |
| Scoring.ScoreByCigar | rmdup.py:43-52 | The counting loop returns `CigarScore`. Its counters are the total length and the length of code-0 operations of the prefix visited. |
| Scoring.MatchWithinTotal | rmdup.py:46-49 | The match count never exceeds the total count. |
| Scoring.TotalLength | rmdup.py:44-49 | Defines `totalCount`: the sum of all operation lengths. |
| Scoring.MatchLength | rmdup.py:44-49 | Defines `matchCount`: the sum of the lengths of code-0 operations. |
| Scoring.RoundedPercent | rmdup.py:52 | The rounded percentage lies in 0..100. |
| Scoring.PercentQuotientRange | rmdup.py:52 | Proof helper for `RoundedPercent`: a quotient of a non-negative value below 101 times the divisor lies in 0..100. |
| Scoring.RoundedPercentBracket | rmdup.py:52 | The rounded percentage p satisfies p - 1/2 <= 100·m/t < p + 1/2. That is rounding half up. |
| Scoring.RoundedPercentPoints | rmdup.py:52 | Full match gives 100, no match gives 0, exactly half gives 50. |
| Scoring.AllMatchScoresHundred | rmdup.py:43-52 | A non-empty alignment made only of M operations scores 100. |
| Scoring.NoMatchScoresZero | rmdup.py:43-52 | A non-empty alignment with no M operation scores 0. |
| Scoring.HalfMatchScoresFifty | rmdup.py:43-52 | An alignment whose M operations cover half its length scores 50. |
| Scoring.OnlyMatchOpCounts | rmdup.py:46-49 | Two alignments with equal lengths score the same if their operations agree on being code 0, whatever the other codes are. |
| Scoring.PairScore | rmdup.py:54-55 | The pair score lies in -2..200. It is -2 exactly when both alignments have length 0, and at least 0 when both have positive length. |
| Geometry.ReadPairLen | rmdup.py:57-62 | The result is -1 when a mate is missing, or when slot 0 is not first in pair or slot 1 not second in pair. Otherwise it is `pos2 + queryLength2 - pos1`. |
| Geometry.SentinelOutOfBounds | rmdup.py:156-157 | With a lower limit of at least 0 (the default), the -1 sentinel always fails the span bounds. |
| Geometry.Span | rmdup.py:62 | Defines the fragment span `pos2 + queryLength2 - pos1`, from the start of mate 1 to the end of mate 2. |
| Geometry.IsSpace | rmdup.py:280 | Defines the characters Python 2's `str.strip()` removes: space and the codes 9 through 13. |
| Geometry.TrimLeft | rmdup.py:280 | The result is a suffix of the input that starts with a non-space, and everything removed is whitespace. |
| Geometry.TrimRight | rmdup.py:280 | The result is a prefix of the input that ends with a non-space, and everything removed is whitespace. |
| Geometry.Strip | rmdup.py:280 | The result neither starts nor ends with whitespace. |
| Geometry.NatToString | rmdup.py:280 | The decimal rendering is non-empty and made only of digits. |
| Geometry.IntToString | rmdup.py:280 | `str()` of an integer: non-empty, starting with `-` exactly for a negative value. |
| Geometry.ChrPos | rmdup.py:280-281 | Defines the position string: the stripped reference name followed by the decimal position. |
| Geometry.LexLess | rmdup.py:282 | Defines Python's `<` on strings: lexicographic on character codes, with a proper prefix smaller. |
| Geometry.OrderedKey | rmdup.py:282-285 | Defines the key: the group key, then the smaller position string, then the other, joined by `:`. |
| Geometry.PairKey | rmdup.py:280-285 | Defines a properly paired read's bucket key from its own and its mate's position strings. |
| Geometry.LexTrichotomy | rmdup.py:282 | Python's string `<` is a strict total order: exactly one of a < b, a == b, b < a holds. |
| Geometry.OrderedKeySymmetric | rmdup.py:282-285 | The key does not depend on the order of the two position strings. |
| Geometry.MatesSharePairKey | rmdup.py:280-285 | Two mates that record each other's reference and position get the same pair key. |
| SingleSelection.ScanSingles | rmdup.py:81-96 | Without a best read the running score is -1. With one, it is an earlier read and the running score is that read's score. |
| SingleSelection.ScanSinglesPicksEarliestMaximum | rmdup.py:81-96 | Nothing is kept exactly when every score is below 0. Otherwise the kept read has a maximal score of at least 0, and every earlier read scores strictly less. |
| SingleSelection.ScanSinglesStep | rmdup.py:83-96 | Each read visited is either logged or becomes the kept read. The read it displaces is logged. |
| SingleSelection.ScanSinglesLogsAllOthers | rmdup.py:83-96 | The log plus the kept read are exactly the list's reads, as a multiset: every other read is logged exactly once. |
| SingleSelection.ScanSinglesLogsLowScoreOnly | rmdup.py:91-96 | Single-read selection logs only `<` lines, each naming a record. |
| SingleSelection.BestOf | rmdup.py:98-102 | The read a key's list keeps, if any, is one of its reads. |
| SingleSelection.FlushSingles | rmdup.py:74-104 | The count equals the number of records written and is at most the number of keys visited. |
| SingleSelection.FlushSinglesCountsWinners | rmdup.py:74-104 | The count is the number of keys whose list has a read scoring at least 0. Every written record scores at least 0 and comes from a visited list. |
| SingleSelection.FlushSinglesLogsLowScoreOnly | rmdup.py:80-96 | The whole single-read flush logs only `<` lines that name records. |
| SingleSelection.ResolveSingle | rmdup.py:81-96 | The inner loop keeps `BestOf` the list and appends the scan's log. It writes nothing. |
| SingleSelection.VisitKey | rmdup.py:80-102 | One outer iteration advances output, log and count from `FlushSingles` of i keys to i + 1 keys. |
| SingleSelection.UniqueSingleReads | rmdup.py:74-104 | Writes and logs what `FlushSingles` over the visiting order gives. Returns its count, which is at most the number of keys. |
| PairSelection.Classify | rmdup.py:132-166 | Only a bucket holding both mates reaches scoring. |
| PairSelection.ExclusionLog | rmdup.py:132-162 | Defines the lines the filters log: `!` with the key or the one present mate, or `~` or `?` for both mates. |
| PairSelection.ExclusionLogMeansExcluded | rmdup.py:132-162 | The filters log exactly the buckets that are not candidates: one line for a missing mate, two for the other exclusions. |
| PairSelection.ScanPairs | rmdup.py:128-174 | Without a best bucket the running score is -1. With one, it is an earlier candidate whose pair score is the running score. |
| PairSelection.ScanPairsStep | rmdup.py:128-174 | Proof helper that unfolds `ScanPairs` by one bucket. One bucket visited: an excluded bucket appends its exclusion lines. A strictly better candidate becomes the best and logs the displaced best. Any other candidate changes nothing. |
| PairSelection.ScanPairsPicksEarliestMaximum | rmdup.py:164-174 | No best exactly when no candidate scores above -1. Otherwise the best is the earliest candidate of maximal score, and that score is at least 0. |
| PairSelection.ScanPairsMaximal | rmdup.py:164-174 | No candidate scores above the running best, which is at least 0 once it exists. |
| PairSelection.ScanPairsBound | rmdup.py:164-174 | A candidate scores at most the running best after it is visited. |
| PairSelection.ScanPairsEarliest | rmdup.py:164-174 | Every candidate before the best bucket scores strictly less. |
| PairSelection.RunningBests | rmdup.py:167-174 | Lists, in order, the positions at which a candidate replaced the running best. |
| PairSelection.RunningBestMeaning | rmdup.py:167-174 | A bucket replaces the running best exactly when it is a candidate scoring above -1 that beats every earlier candidate. |
| PairSelection.ExclusionLogHasNoLowScore | rmdup.py:132-162 | The filters log no `<` line. |
| PairSelection.PartsWithoutLowScore | rmdup.py:132-162 | Proof helper: a log without `<` lines lies wholly in its non-`<` part. |
| PairSelection.ScanPairsLog | rmdup.py:128-174 | The non-`<` log lines are exactly the exclusion lines of the excluded buckets, in visiting order. The `<` lines are exactly both mates of every running best except the last: a losing pair is never logged. |
| PairSelection.LogSplitsStep | rmdup.py:128-174 | Proof helper: visiting one more bucket keeps the split of the log by category. |
| PairSelection.ExclusionLogNamesReads | rmdup.py:132-162 | A bucket with at least one mate is logged only through its records. |
| PairSelection.ScanPairsLogsReads | rmdup.py:132-162 | If no bucket is empty, every line logged by the scan names a record. |
| PairSelection.ScanPairsCodes | rmdup.py:128-174 | Pair selection logs only `!`, `<`, `~` and `?`, never `=`. |
| PairSelection.FlushPairs | rmdup.py:125-183 | Defines the result of `UniquePairedReads`: nothing for an empty dictionary, else the scan ended by `WriteLast` on the bucket visited last. |
| PairSelection.WriteLast | rmdup.py:176-183 | Keeps the scan's log. Succeeds unless something won and the last bucket lacks a mate. Returns 1 exactly when something won and the last bucket is complete, writing that bucket's two records, not the best bucket's. |
| PairSelection.FlushPairsOutcome | rmdup.py:176-183 | The result is 1 exactly when some candidate scores above -1 and the last visited bucket holds both mates. The two records written are then the last bucket's. Nothing is written when no candidate wins. A failed write happens only when something won. |
| PairSelection.WrittenPairIsBestWhenLast | rmdup.py:176-183 | When the best bucket is the last one visited, the pair written is the best pair. |
| PairSelection.ExcludedLastBucketIsWritten | rmdup.py:128-183 | When an earlier candidate wins and the last bucket is complete but excluded, the excluded bucket's records are written. They are also logged under their exclusion category. |
| PairSelection.SomePairWinsMeansBest | rmdup.py:164-174 | A candidate scoring above -1 leaves the scan with a best bucket. |
| PairSelection.FlushPairsWritesLast | rmdup.py:176-181 | With a best bucket and a complete last bucket, the last bucket's two records are written and the result is 1. |
| PairSelection.BestIsComplete | rmdup.py:132-143 | The running best bucket holds both mates. |
| PairSelection.FilterBucket | rmdup.py:132-162 | The three filters in source order: the record is a candidate exactly when `Classify` says so, and exactly the exclusion lines are logged. |
| PairSelection.WritePair | rmdup.py:178-181 | Slots are written in slot order. Writing an empty slot fails and stops the writes. |
| PairSelection.ScorePair | rmdup.py:164-174 | A candidate replaces the best only on a strictly greater score. Only then are both mates of the displaced best logged as `<`. |
| PairSelection.VisitBucket | rmdup.py:128-174 | One loop iteration advances the running best, the best bucket and the log from `ScanPairs` of i buckets to i + 1. |
| PairSelection.UniquePairedReads | rmdup.py:120-183 | Writes, logs, returns and fails exactly as `FlushPairs` over the visiting order. |
| Records.Sink.Write | rmdup.py:101 | Appends one record to the output and leaves the log unchanged. |
| Records.Sink.Log | rmdup.py:92 | Appends one line to the log and leaves the output unchanged. |
| Records.KeysInSomeOrder | rmdup.py:80 | Returns some order listing every key of the dictionary exactly once. |
| Driver.SlotOf | rmdup.py:289-297 | The slot is defined exactly for a read with a mate flag, and it is 0 exactly for a first-in-pair read. |
| Driver.SingleKey | rmdup.py:312 | Defines the key of a single read: the group key, a colon, then the read number. |
| Driver.Store | rmdup.py:279-316 | Defines filing one record: a properly paired read by `StorePaired` under its pair key, any other read by `StoreSingle` under its single key, failing when the number pattern does not match. |
| Driver.StorePaired | rmdup.py:289-307 | Defines the slot logic: an error line for a read without a slot or for a taken slot, else the slot is filled in the bucket, which is new `[None, None, -1]` if the key is new. |
| Driver.StoreSingle | rmdup.py:312-316 | Defines the append of a read to the end of its single key's list. |
| Driver.StoreFailsOnlyOnNumber | rmdup.py:279-316 | Filing fails exactly for a read that is not properly paired and whose name the number pattern does not match. |
| Driver.StoreLogsErrorsOnly | rmdup.py:289-302 | Filing logs at most one line, a `!` naming the record. |
| Driver.StoreFirstSeenWins | rmdup.py:299-302 | A record for a slot already taken is logged as `!`, and both dictionaries are unchanged. |
| Driver.StoreUnflaggedIsError | rmdup.py:289-296 | A properly paired record with neither mate flag is logged as `!` and not filed. |
| Driver.StoreFillsFreeSlot | rmdup.py:289-307 | A first-in-pair record fills slot 0, which also applies when both flags are set. Any other flagged record fills slot 1. The other slot and every other bucket are unchanged, and nothing is logged. |
| Driver.StoreAppendsSingle | rmdup.py:312-316 | A record that is not properly paired is appended to the end of its key's list, and nothing else changes. Filing fails exactly when the number pattern does not match. |
| Driver.MatesMeetInOneBucket | rmdup.py:280-307 | Two mates filed in either order end in one bucket `[mate 1, mate 2, -1]`. |
| Driver.GoodBucketFilters | rmdup.py:132-143 | A bucket built by filing never takes the "no mate at all" branch. For a complete one, the span is the real span. |
| Driver.StoreKeepsShape | rmdup.py:289-307 | Filing keeps every bucket's shape: a mate present, score -1, and the slot matching the flags. |
| Driver.StoreStoredAmong | rmdup.py:279-316 | After filing, every record in the dictionaries is among the records seen. |
| Driver.FlushedInTwoHalves | rmdup.py:274-277 | Proof helper for `Deduplicator.FlushGroup`: the pair half, followed by the single half when the pair half succeeds, is `FlushAll`. |
| Driver.FlushAll | rmdup.py:274-277 | Defines a group flush: pairs first, then, if the pair write succeeded, singles, with both dictionaries cleared. |
| Driver.FlushAllClears | rmdup.py:274-277 | A successful flush clears both dictionaries. A failed one adds nothing and leaves them unchanged. |
| Driver.MultiBestNeverEmitted | rmdup.py:33 | The `=` category is not among the categories the engine logs. |
| Driver.FlushOfEmptyGroups | rmdup.py:269-277 | Flushing empty dictionaries, as the first record does, writes and logs nothing and adds 0. |
| Driver.FlushAllCounts | rmdup.py:274-275 | A successful flush writes between one and two records per unit added to the kept count. A failed flush adds nothing and writes at most one record. |
| Driver.FlushAllWritesStored | rmdup.py:274-277 | Everything a flush writes was filed in the dictionaries. |
| Driver.FlushAllCodes | rmdup.py:274-275 | A flush logs only `!`, `<`, `~` and `?`. With buckets as filing builds them, every line names a record. |
| Driver.GroupEntry | rmdup.py:269-277 | Defines entering a group: `FlushAll` when the key differs from the current one, nothing otherwise. |
| Driver.AfterFlush | rmdup.py:270-277 | Defines the loop state after entering a group: the new key, the flush's dictionaries, and its count, output and log added. |
| Driver.Step | rmdup.py:268-321 | Defines one loop turn: stop when the key pattern fails, enter the group, stop when the pair write fails, file the record, stop when filing fails, and otherwise count the record. |
| Driver.StepWritesOnlyFlushes | rmdup.py:269-321 | A turn whose record does not open a new group writes nothing and keeps the kept count. A turn that opens one appends exactly what `FlushAll` writes for the previous group and adds exactly its count. The log only grows. |
| Driver.StepCountsRecords | rmdup.py:321 | A turn adds 1 to the read count exactly when it completes. It stops on the key pattern exactly when that pattern does not match. |
| Driver.Deduplicator.constructor | rmdup.py:261-266 | Both dictionaries are empty, the current key is `''` and both counts are 0. |
| Driver.Deduplicator.ResolvePairs | rmdup.py:274 | Runs `UniquePairedReads` in some order and adds its count to the kept count. |
| Driver.Deduplicator.ResolveSingles | rmdup.py:275-277 | Runs `UniqueSingleReads` in some order, adds its count, and clears both dictionaries. |
| Driver.Deduplicator.FlushGroup | rmdup.py:274-277 | The new output, log, kept count and dictionaries are those of `FlushAll`. |
| Driver.Deduplicator.FilePaired | rmdup.py:280-307 | The paired dictionary and the log become what `Store` gives, and the single lists are unchanged. |
| Driver.Deduplicator.FileIntoBucket | rmdup.py:289-307 | The slot logic updates the bucket in place, to what `StorePaired` gives. |
| Driver.Deduplicator.FileSingle | rmdup.py:312-316 | Appends in place as `Store` says. Fails, changing nothing, when the number pattern does not match. |
| Driver.Deduplicator.File | rmdup.py:279-316 | The dictionaries and log become those of `Store`, or stay unchanged when it fails. |
| Driver.Deduplicator.EnterGroup | rmdup.py:269-277 | A new key becomes current and flushes the previous group. The same key changes nothing. |
| Driver.Deduplicator.Consume | rmdup.py:268-321 | The outcome and new state of one record are those of `Step`. |
| Driver.Progress | rmdup.py:261-321 | The loop invariant after i records. The current group starts at `groupStart`, the record before it has another key, and every record since belongs to it. The dictionaries are well shaped and hold only those records. The kept count is between half the written records and all of them. Only earlier records are written, and only emitted categories naming records are logged. |
| Driver.Stopped | rmdup.py:267-321 | The state when the pass stops on record i: which check failed on it, the count bounds (one more record for a failed pair), emitted categories only, and writes only before `groupStart`. |
| Driver.ProgressOnFile | rmdup.py:279-316 | Filing a record of the current group keeps the loop invariant `Progress`. |
| Driver.FlushFacts | rmdup.py:269-277 | A flush keeps the count bounds, allowing one extra record for a failed pair. It writes only earlier records and logs only emitted categories naming records, and it cannot fail on the first record. |
| Driver.ProgressRestart | rmdup.py:279-316 | Filing into cleared dictionaries starts the invariant for a new group at the current record. |
| Driver.ProgressOnFlush | rmdup.py:268-316 | A record opening a new group, after a successful flush and filing, leaves `Progress` holding from that record on. |
| Driver.Advance | rmdup.py:267-321 | One loop turn is `Step` with the visiting orders it chose, which are orders of the dictionaries it resolved. It either keeps `Progress` and counts the record, or stops in a state `Stopped` describes. |
| Driver.StepKeepsProgress | rmdup.py:267-321 | `Step` keeps `Progress`, or stops as `Stopped` says. A new group restarts the invariant at the current record. |
| Driver.StepOnNewGroup | rmdup.py:268-316 | The same as `StepKeepsProgress` for a record that opens a new group. |
| Driver.StepInGroup | rmdup.py:279-316 | The same as `StepKeepsProgress` for a record of the current group. |
| Driver.StepLogsFlushThenErrors | rmdup.py:268-316 | A completed turn makes its record's group key current. It logs the previous group's flush, then at most one line: a `!` naming its own record. |
| Driver.StepInGroupLogsErrors | rmdup.py:279-316 | A turn on a record of the current group keeps the key and appends only `!` lines to the log. |
| Pass.InitialState | rmdup.py:261-266 | Defines the state before the first record: key `''`, empty dictionaries, zero counts, nothing written or logged. |
| Pass.Run | rmdup.py:267-321 | Defines the record loop as a fold of `Step` over the records, one pair of visiting orders per turn, ending at the first turn that stops. |
| Pass.RunExtend | rmdup.py:267-321 | Proof helper that unfolds `Run` by one completed turn. |
| Pass.RunOnlyAppends | rmdup.py:267-321 | A shorter run's output and log are prefixes of a longer run's, and its counts are no larger. So closed groups' flushes follow one another in output order. |
| Pass.RunEntersGroup | rmdup.py:268-277 | After a completed run, the group key of its last record is the current one. |
| Pass.RunStaysInGroup | rmdup.py:279-316 | A completed last turn on a record of the group current before it keeps the key and appends only `!` lines. |
| Pass.RunTailLogsErrors | rmdup.py:267-321 | When every record from `m` on has the key of record `m`, the run logs only `!` lines after its turn on record `m`. |
| Pass.Turn | rmdup.py:267-321 | One loop turn extends `Run` by the turn on the current record, with the orders it returns. It either keeps `Progress` and counts the record, or stops as `Stopped` says. |
| Pass.RunLoop | rmdup.py:267-323 | The loop's final state and outcome are those of `Run` with the orders it returns: one pair per record read, plus one for the record it stopped on. It ends with `Progress` at the end of input, or stopped on a record as `Stopped` says. |
| Pass.Conclusions | rmdup.py:261-329 | The guarantees of the whole pass, derived from the loop's end state. On completion `groupStart` is the first record of the final group: below the input length when there is input, preceded by a record with another key, and followed only by records with its key. |
| Pass.Deduplicate | rmdup.py:261-329 | See the list below the table. |

`Pass.Deduplicate` states:

- All records are read unless the pass stops on one. In that case the
  outcome names the check that failed on that record.
- The output, log, kept count, read count and outcome are exactly those of
  `Run` from `InitialState`, under the visiting orders the flushes chose.
  So with `Driver.StepWritesOnlyFlushes`, a group is resolved only when a
  record with another key arrives. The output is the concatenation of the
  closed groups' flushes in order, and the kept count is the sum of their
  counts.
- The kept count lies between half the records written and all of them. A
  pass that stops on a failed pair write may have written one record more.
- Only `!`, `<`, `~` and `?` lines are logged, each naming a record.
- On a completed pass over a non-empty input, `finalGroupStart` is the
  first record of the final group. It is below the input length, every
  record from it on has its group key, and the record before it, if any,
  has another key. Nothing at or after it is ever written. Every line
  logged after the turn on that first record is `!`.
- A stream holding a single group writes nothing and logs only `!`.

## Left out

- Alignment file I/O is not modelled: opening, sorting, `fetch`, `getrname`
  and closing. Records arrive as a sequence whose reference names are
  already resolved to strings. The output and log files are the `Sink`'s
  append-only sequences.
- A log line's rendering of a record (`str(read)`) is opaque: an entry holds
  the record itself, or the bucket key for an empty bucket.
- Option parsing, file checks, removing the temporary file and progress
  printing (rmdup.py:185-258, 322-323, 329-340) are not modelled.
  - The key pattern, the number pattern and both span limits are fixed
    parameters in `Config`.
  - The key pattern (joining the groups of the first match) and the number
    pattern (the first match) are abstract functions that return `None`
    when there is no match. In the source, `findall(...)[0]` raises an
    error there and the pass stops.
- The score uses the integer expression `(200*m + t) / (2*t)`. This is the
  Python 2 `round(100.0*m/t)` (half away from zero) on exact arithmetic.
  Floating-point error in `100.0*m/t` is not modelled.
- Dictionary iteration order is unspecified in Python 2. The selection
  methods take any order listing every key once. The driver picks one with
  `KeysInSomeOrder`, and all results are stated relative to it.
- When the pair write fails on a missing mate, the pass stops. The model
  does not say what reaches the files after that point beyond
  what was written before the failure.
- When the pair write fails, the flush method still computes a visiting
  order of the single-read keys, which is never used. This keeps its
  contract uniform.
- Gluing a stripped reference name to a position (the pair key) can make
  two different positions produce the same string, for example `chr1` with
  12 and `chr11` with 2. This is not proved: the model proves
  only symmetry and that equal inputs give equal keys.
