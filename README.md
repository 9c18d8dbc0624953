# Neo4j benchmark harness — a verified model of its core

The harness loads a synthetic banking graph (accounts and transactions)
into Neo4j, monitors the host while it runs, and reports latency
percentiles and throughput. It comes in two variants. `neo4j_bench.py` uses
a flat schema. `neo4j_bench_optimized.py` is time-partitioned: every
transaction also carries a Month key and a Day key, and a Month → Day
hierarchy of nodes is created in the store. Both variants share most of
their logic, so this model describes that logic once and cites both files.

What is modelled, module by module:

- `Config`: the dataset presets, `ZIPF_SKEW`, the one-year window and the
  other constants.
- `Skew`: `_pick_account_id`, which computes `int(N * u ** 2)`, and the
  recency-skewed timestamp offset, which computes
  `int(YEAR_SECONDS * sqrt(u))`. `int()` is truncation toward zero.
- `Batching`: the law every generator follows. Records are appended to a
  batch, a batch is emitted once it is full, and a final partial batch is
  emitted last.
- `Generator`:
  - `generate_accounts` and `generate_transactions` as loops that collect
    the batches they would yield.
  - The random draws and the calendar are inputs. The calendar stands for
    `datetime.fromtimestamp`.
  - `_generate_temporal_buckets` of the time-partitioned variant.
- `TemporalKeys`: the Month key `YYYY_MM` and the Day key `YYYY_MM_DD`, and
  how they are parsed back with `split('_')` and `int`.
- `Hierarchy`: `create_temporal_hierarchy`. It groups the window days into
  Months and Days, sorts the Month keys, and builds one parameter row per
  Month node and per Day node.
- `Retry`: `_run_batch` as a loop over an oracle that gives each attempt's
  outcome. The trace records every attempt and every sleep.
- `Latency`: `_calc_percentiles`, including its in-place sort of the
  caller's list.
- `WriteTest`: the batch that `run_write_test` builds.
- `ProcParsers`: the `/proc/stat`, `/proc/diskstats` and `/proc/meminfo`
  readers. Each works on the text of its file.
- `Monitor`: `SystemMonitor` as a class with a start snapshot and a lazily
  captured end snapshot, plus the derived metrics.
- `Coverage`: which calendar dates the Day nodes cover, under a calendar
  with a fixed UTC offset (see "## Findings").
- `Text`: the Python string operations the harness relies on: `split()`,
  `splitlines()`, `split(sep)`, `int()`, `str()`, `:02d`, `startswith`,
  substring `in`, and string order.

A Python exception raised by a parser becomes an explicit `Err` value.

Three behaviours of the code are easy to misread. The model follows the
code in each:

- Retry sleeps. `_run_batch` (neo4j_bench.py:235-246) sleeps two seconds
  after every transient failure, the third one included, before it raises.
  So a batch that never succeeds makes three attempts and sleeps three
  times, six seconds in all.
- Monitor read failures. Only a `/proc` file that cannot be opened reads
  as zero. In a readable file, `int()` on a malformed number raises
  `ValueError`, and a line with a missing field raises `IndexError`. The
  model returns that error.
- Disk device filter. The comment at neo4j_bench.py:62 speaks of common
  devices, but the test counts every name that contains `nvme`, `sd`, `vd`
  or `xvd`. Partitions such as `sda1` are therefore counted as well as
  whole disks.

## Model

| member | source | states |
|---|---|---|
| Skew.PickAccountId | neo4j_bench.py:155-161 | for N > 0 and a draw u in [0,1), the id lies in [0, N); with no accounts it is 0 |
| Skew.PickAccountIdExample | neo4j_bench.py:161 | with 10 accounts the draw 0.5 picks id 2 |
| Skew.PickAccountIdMonotone | neo4j_bench.py:156-161 | a larger draw never picks a smaller id, so popularity is skewed toward low ids |
| Skew.SkewIsSquare | neo4j_bench.py:28 | with ZIPF_SKEW = 2 the skewed draw `u ** ZIPF_SKEW` is u times u |
| Skew.PickAccountIdSuperNode | neo4j_bench.py:161 | every draw with N*u^2 < 1 lands on account 0, the super-node |
| Skew.TimestampOffset | neo4j_bench.py:168 | for sqrt(u) in [0,1) the offset lies in [0, 365*24*3600) |
| Skew.TimestampOffsetMonotone | neo4j_bench.py:166-168 | a larger sqrt(u) never gives an earlier timestamp |
| Batching.ChunksLaw | neo4j_bench.py:139-153 | the batches concatenate back to the records in order; every batch but the last is full and the last is non-empty; no records gives no batches |
| Generator.BuildAccount | neo4j_bench_optimized.py:159-167 | for a creation draw inside the 30-day window, the account is well formed: id i, name `Acc_i`, Premium exactly when 10 divides i, created at the start plus the draw, and velocity counters only in the time-partitioned variant |
| Generator.GenerateAccounts | neo4j_bench.py:139-153 | the emitted batches are the chunks of the account list: ids 0..N-1 in order, batching law, N = 0 emits nothing, every account well formed |
| Generator.AccountsWellFormed | neo4j_bench.py:143-148 | account i has id i and name "Acc_" + str(i); it is Premium iff i % 10 == 0; created_at lies in [start, start + 2592000], both ends inclusive; the velocity counters exist only in the time-partitioned variant, all 0 |
| Generator.AccountNamesDistinct | neo4j_bench.py:145 | distinct accounts have distinct names |
| Generator.BuildTransaction | neo4j_bench_optimized.py:182-200 | for valid draws, the transaction is well formed: id i, the drawn amount, a timestamp within a year of the start, USD and COMPLETED, both account ids in range when there are accounts, and, in the time-partitioned variant only, the Month and Day keys of the timestamp's date, with the Day key extending the Month key |
| Generator.GenerateTransactions | neo4j_bench_optimized.py:177-206 | the emitted batches are the chunks of the transaction list; ids 0..count-1 in order; batching law; every transaction well formed |
| Generator.TransactionBatches | neo4j_bench.py:163-185 | the chunks of all transactions follow the batching law, are empty iff count is 0, and hold count well-formed transactions |
| Generator.TransactionRecordWellFormed | neo4j_bench_optimized.py:182-199 | one transaction built from valid draws is well formed (the properties listed for TransactionsWellFormed) |
| Generator.TransactionsWellFormed | neo4j_bench_optimized.py:182-199 | ts - start lies in [0, 31536000); currency is USD and status COMPLETED; both endpoints lie in [0, N); in the time-partitioned variant the keys are those of the timestamp's date and the Day key is the Month key + "_" + the two-digit day |
| Generator.AddWindowDay | neo4j_bench_optimized.py:147-153 | the day's Month key is added to the keys; that Month's day set gains the day's Day key; its start is kept if the Month existed and is otherwise the day's own timestamp; every other Month is unchanged |
| Generator.TemporalBuckets | neo4j_bench_optimized.py:142-154 | the bucket keys are exactly the window's Month keys; each Month's set is exactly the Day keys of its window days; each Month's start is the timestamp of its first window day, never overwritten |
| TemporalKeys.DayKeyExtendsMonthKey | neo4j_bench_optimized.py:187-188 | a Day key is its Month key + "_" + the two-digit day, so it starts with the Month key |
| TemporalKeys.SplitMonthKey | neo4j_bench_optimized.py:257-258 | splitting a Month key on '_' gives exactly the year digits and the two month digits |
| TemporalKeys.SplitDayKey | neo4j_bench_optimized.py:273-275 | splitting a Day key on '_' gives exactly its three formatted parts |
| TemporalKeys.MonthKeyRoundTrip | neo4j_bench_optimized.py:256-258 | parsing a formatted Month key recovers (year, month) |
| TemporalKeys.DayKeyRoundTrip | neo4j_bench_optimized.py:272-275 | parsing a formatted Day key recovers (year, month, day) |
| TemporalKeys.KeysInjective | neo4j_bench_optimized.py:148-149 | Month keys are equal iff year and month are; Day keys are equal iff the dates are |
| TemporalKeys.MonthKeyOrder | neo4j_bench_optimized.py:250 | for four-digit years, string order on Month keys is chronological order, in both directions |
| TemporalKeys.DayKeyParts | neo4j_bench_optimized.py:188 | for a four-digit year the Day key is the seven-character Month key followed by "_" and the day |
| TemporalKeys.DayKeyOrder | neo4j_bench_optimized.py:242 | for four-digit years, string order on Day keys is chronological order, in both directions |
| Text.ParseNatToString | neo4j_bench_optimized.py:257 | int(str(n)) == n for every n >= 0 |
| Text.ParsePad2 | neo4j_bench_optimized.py:258 | int(f"{n:02d}") == n |
| Text.SplitOnFirst | neo4j_bench_optimized.py:257 | splitting a + sep + b, where a has no separator, gives a followed by the split of b |
| Text.NatToStringInjective | neo4j_bench.py:145 | str(a) == str(b) only if a == b |
| Text.LexLessIrreflexive | neo4j_bench_optimized.py:250 | no string sorts strictly before itself |
| Text.LexLessTransitive | neo4j_bench_optimized.py:250 | the string order used by sorted is transitive |
| Text.LexLessTotal | neo4j_bench_optimized.py:250 | of two distinct strings, one sorts before the other |
| Text.LexLessConcat | neo4j_bench_optimized.py:250 | comparing a + b with c + d, where a and c have equal length, compares a with c first and then b with d |
| Text.LexLessNatToString | neo4j_bench_optimized.py:250 | for equal-length decimal strings, string order is numeric order |
| Text.LexLessPad2 | neo4j_bench_optimized.py:250 | for two-digit fields, string order is numeric order |
| Hierarchy.FileDay | neo4j_bench_optimized.py:240-247 | one loop pass keeps the grouping invariant for one more window day |
| Hierarchy.GroupWindow | neo4j_bench_optimized.py:235-247 | the months set equals the key set of days, and both are the window's Month keys; each Month's list holds its Day keys in day-offset order; the insertion order is the window's Month keys in first-seen order |
| Hierarchy.FirstSeenMembers | neo4j_bench_optimized.py:245-246 | a dict filled key by key holds exactly the keys it was given |
| Hierarchy.FirstSeenDistinct | neo4j_bench_optimized.py:245-246 | each key appears once in the dict's key order |
| Hierarchy.FirstSeenPrefix | neo4j_bench_optimized.py:239-246 | the key order after fewer days is a prefix of the key order after more days |
| Hierarchy.FirstSeenOrdered | neo4j_bench_optimized.py:245-246 | of two keys in the dict's order, the earlier one occurs first: every prefix of the days that contains the later Month contains the earlier Month too |
| Hierarchy.DaysInOrderMembers | neo4j_bench_optimized.py:245-247 | a Month's ordered Day list holds exactly the Day keys of its window days |
| Hierarchy.DaysInOrderEmpty | neo4j_bench_optimized.py:245-246 | a Month's Day list is empty iff the Month has not been seen yet |
| Hierarchy.SortKeys | neo4j_bench_optimized.py:250 | sorted(months) holds exactly the keys, each once, in strictly increasing string order |
| Hierarchy.MonthNode | neo4j_bench_optimized.py:252-258 | a Month node's year and month, parsed from its key, are the calendar fields of a window day with that key |
| Hierarchy.MonthNodes | neo4j_bench_optimized.py:250-259 | one Month row per sorted key, in key order; every row matches a window day; every window day's month has a row |
| Hierarchy.MonthRowsCover | neo4j_bench_optimized.py:250-259 | one row per window Month key gives every window day's month a row |
| Hierarchy.DayNode | neo4j_bench_optimized.py:265-275 | a Day node's year, month and day, parsed from its key, are the calendar fields of a window day with that key |
| Hierarchy.DayNodesOfMonth | neo4j_bench_optimized.py:263-276 | one Day row per listed Day key, in list order, each linked to its Month and matching a window day |
| Hierarchy.DayNodes | neo4j_bench_optimized.py:262-276 | every Day row matches a window day, and every window day has its Day row |
| Hierarchy.GroupAndSort | neo4j_bench_optimized.py:235-250 | the sorted Month keys are exactly the window's, in increasing order, and each Month's list holds exactly its window Day keys |
| Hierarchy.CreateTemporalHierarchy | neo4j_bench_optimized.py:231-276 | Month rows in sorted key order; every Month and Day row carries the keys and calendar fields of a window day; every window day has its Month row and its Day row |
| Hierarchy.MonthRowsChronological | neo4j_bench_optimized.py:250 | for four-digit years the Month nodes are created from the oldest month on |
| Retry.RunBatch | neo4j_bench.py:235-246 | the while loop with its early returns produces exactly the result and the trace of the retry state machine |
| Retry.RunResult | neo4j_bench.py:235-246 | the batch is imported iff some attempt within the budget succeeds after only transient failures; an error propagates iff such an attempt fails non-transiently; the call gives up iff every attempt in the budget fails transiently |
| Retry.RunTrace | neo4j_bench.py:237-245 | up to the first attempt that does not fail transiently, the trace is one failure and a 2 s sleep per earlier attempt, then that attempt; nothing follows a success |
| Retry.ExhaustedTrace | neo4j_bench.py:242-246 | when every attempt fails transiently, the trace is one failure and one sleep per retry, and then the call raises |
| Retry.RunCost | neo4j_bench.py:236-245 | at most `retries` attempts and at least one; the seconds slept are 2 per transient failure, the last one included |
| Retry.ExhaustedCost | neo4j_bench.py:236-246 | three transient failures mean 3 attempts, no 4th, and 6 s of sleep before the error |
| Retry.SuccessOnSecondAttempt | neo4j_bench.py:237-245 | a transient failure and then a success gives: fail, sleep 2 s, succeed, with no sleep after the success |
| Latency.RankBelow | neo4j_bench.py:388-393 | for n > 0 each rank int(n*k/100), k < 100, is a valid index |
| Latency.RankMonotone | neo4j_bench.py:390-392 | the 50th rank is at most the 90th, which is at most the 99th |
| Latency.Select | neo4j_bench.py:386-393 | no result exactly when there are no samples |
| Latency.SelectOrdered | neo4j_bench.py:389-393 | on a sorted list, p50 <= p90 <= p99 |
| Latency.SelectFromSamples | neo4j_bench.py:389-393 | each percentile is one of the samples and lies between the minimum and the maximum; every sample up to its rank is at most it |
| Latency.SelectTenSamples | neo4j_bench.py:385-393 | the samples 1..10 give p50 = 6, p90 = 10 and p99 = 10 |
| Latency.Sort | neo4j_bench.py:387 | data.sort() leaves the list sorted and a permutation of its samples |
| Latency.Insert | neo4j_bench.py:387 | one insertion step extends the sorted prefix by one and keeps the multiset of samples |
| Latency.CalcPercentiles | neo4j_bench.py:385-393 | an empty list gives no result and is left unchanged; otherwise the caller's list is left sorted, as a permutation of its samples, and the result is the percentiles of the sorted list |
| WriteTest.BuildWriteBatch | neo4j_bench_optimized.py:347-361 | count rows; row i has id 2_000_000_000 + i, its own clock reading and account picks in [0, N); ids are strictly increasing and therefore distinct; in the time-partitioned variant every row carries the one Day key computed before the loop |
| WriteTest.WriteIdsAboveGenerated | neo4j_bench.py:19-25 | for every preset, every generated transaction id is below every write-test id |
| ProcParsers.ParseAll | neo4j_bench.py:55 | the values of all the tokens, in order, or ValueError when any token is not a number |
| ProcParsers.GetCpuTimes | neo4j_bench.py:46-59 | the loop returns exactly the result of the first line that starts with "cpu " |
| ProcParsers.CpuTimesFirstMatch | neo4j_bench.py:49-58 | only the first line that starts with "cpu " counts, so per-cpu lines are skipped; total is the sum of its fields and idle is the 4th field |
| ProcParsers.CpuTimesNoMatch | neo4j_bench.py:59 | content with no "cpu " line gives (0, 0) |
| ProcParsers.CpuIdleWithinTotal | neo4j_bench.py:55-58 | with unsigned counters, 0 <= idle <= total |
| ProcParsers.ReadDiskLine | neo4j_bench.py:67-73 | a line with fewer than 14 fields or a non-storage device name contributes (0, 0); a counted line succeeds exactly when fields 6 and 10 both parse, and then contributes their values; every failure is ValueError |
| ProcParsers.GetDiskIo | neo4j_bench.py:61-74 | the loop returns the sectors summed over the counted lines, times 512, or the error of the first bad line |
| ProcParsers.DiskSectorsError | neo4j_bench.py:72-73 | the first counted line with a bad number decides the error |
| ProcParsers.DiskSectorsAppend | neo4j_bench.py:66-73 | the sector sum over two runs of lines is the sum of their sums |
| ProcParsers.DiskSkipsUncounted | neo4j_bench.py:68-70 | a line with fewer than 14 fields, or a name that is not a storage device, changes nothing |
| ProcParsers.GetMemInfo | neo4j_bench.py:76-85 | the loop returns the scan of the file's lines, which MemInfoOfFile and MemStateError characterise |
| ProcParsers.MemStateOk | neo4j_bench.py:79-84 | the scan succeeds exactly when every line that mentions MemTotal or MemAvailable has a second field that parses as an integer |
| ProcParsers.MemLastTotalWins | neo4j_bench.py:80-81 | the last line that mentions MemTotal sets the total, whatever later lines say about MemAvailable |
| ProcParsers.MemLastAvailableWins | neo4j_bench.py:82-83 | the last line that mentions MemAvailable sets the available amount, whatever later lines say about MemTotal |
| ProcParsers.MemInfoOfFile | neo4j_bench.py:76-85 | for a file whose key lines parse, the result is (t, t - a), where t is the last MemTotal value and a the last MemAvailable value, in either order of the keys |
| ProcParsers.MemIgnoresOtherLines | neo4j_bench.py:80-84 | lines that mention neither key change nothing |
| ProcParsers.MemStateError | neo4j_bench.py:82-84 | a line that mentions a key but lacks a number decides the error |
| ProcParsers.MemWithoutAvailable | neo4j_bench.py:79-85 | with no MemAvailable line, used equals total |
| ProcParsers.UnreadableFilesReadZero | neo4j_bench.py:39-85 | an unreadable file (empty content) gives (0, 0) from each of the three readers |
| Monitor.CaptureStats | neo4j_bench.py:87-99 | the snapshot holds the clock reading and the three readers' values; the first reader that fails decides the error |
| Monitor.CaptureErrors | neo4j_bench.py:87-90 | a capture succeeds iff all three readers do; a cpu error wins over a disk error |
| Monitor.CaptureUnreadable | neo4j_bench.py:87-99 | with no readable file the snapshot is all zeros at the current time |
| Monitor.CaptureIdleWithinTotal | neo4j_bench.py:88 | a successful capture over unsigned cpu counters has 0 <= idle <= total |
| Monitor.EffectiveDuration | neo4j_bench.py:108-109 | the duration is always positive: the elapsed time when that is positive, otherwise 1 |
| Monitor.CpuLoadBounds | neo4j_bench.py:112-116 | when 0 <= idle delta <= total delta, the load lies in [0, 100] |
| Monitor.CpuLoadExtremes | neo4j_bench.py:114-116 | no cpu time elapsed gives 0; a fully idle interval gives 0; a fully busy interval gives 100 |
| Monitor.RateNonNegative | neo4j_bench.py:125 | a non-negative byte count over a positive duration is a non-negative rate |
| Monitor.RatesNonNegative | neo4j_bench.py:119-126 | counters that did not go down give non-negative read and write rates |
| Monitor.RateOfSteadyStream | neo4j_bench.py:125 | one MiB per second over any positive whole number of seconds reports 1 MB/s |
| Monitor.StalledClockRates | neo4j_bench.py:108-126 | a clock that stood still or went back gives the byte deltas over one second |
| Monitor.SystemMonitor.constructor | neo4j_bench.py:35-37 | the start snapshot is set and there is no end snapshot |
| Monitor.SystemMonitor.Open | neo4j_bench.py:35-37 | creation captures the start snapshot; a failed capture is the constructor's error; a new monitor has no end snapshot |
| Monitor.SystemMonitor.Stop | neo4j_bench.py:101-102 | stop replaces the end snapshot with a fresh capture; a failed capture leaves the old one; the start is unchanged |
| Monitor.SystemMonitor.GetMetrics | neo4j_bench.py:104-128 | the end snapshot is captured only if absent, so repeated calls reuse it; the metrics are those of the start and end snapshots |
| Coverage.WindowLocalDays | neo4j_bench_optimized.py:182-183 | transaction timestamps fall on the 366 local days from the start's; they reach the 366th only when the start is not at local midnight |
| Coverage.LastDrawOffset | neo4j_bench_optimized.py:182 | the largest draw below 1 gives the offset 365*86400 - 1 |
| Coverage.LastDayUnbucketed | neo4j_bench_optimized.py:239-247 | with range(365) and a start that is not at local midnight, a transaction at the end of the window has a date that no Day row carries |
| Coverage.WriteDayUnmatched | neo4j_bench_optimized.py:351-352 | with range(365), the write test's Day key, for a "now" a year or more after the start, is carried by no Day row |
| Coverage.EveryTimestampSampled | neo4j_bench_optimized.py:239-240 | with 366 sampled days, every timestamp of the window falls on a sampled date |
| Coverage.TransactionFindsItsDay | neo4j_bench_optimized.py:299 | with 366 sampled days, every generated transaction finds the Day row that carries its keys and its date |
| Coverage.WriteDayMatched | neo4j_bench_optimized.py:341 | with 366 sampled days, the write test run on the local day one year after the start finds its Day row |
| Coverage.CreateCoveringHierarchy | neo4j_bench_optimized.py:231-276 | the hierarchy over 366 days gives every window timestamp the Day row of its date, and every Day row is a sampled day |

## Left out

- The Neo4j driver, sessions and Cypher text are foreign calls and are not modelled. This covers `create_indexes`, `import_accounts`, `import_transactions`, `import_transactions_optimized`, `get_page_cache_stats` and the store writes of `create_temporal_hierarchy`. The store appears only as the outcome oracle of `_run_batch` and as the row sequences handed to it.
- The read-latency, multi-hop, super-node, time-range and concurrency tests are left out. They are timing loops and threads over the store, and the concurrency test increments an unsynchronised shared counter.
- `time.perf_counter`, `count / duration` throughputs and `round(x, 2)` are not modelled. Metrics are exact reals, not rounded floats.
- `random`, `math.sqrt`, `time.time`, `datetime.now` and `datetime.fromtimestamp` become constrained inputs. The calendar is any function from timestamps to dates.
- The model does not claim that the 365 window days have distinct dates, because a DST change can repeat or skip a local day. `Coverage` proves its results for calendars with a fixed UTC offset only.
- `_read_proc_file` (file I/O with a bare `except`) becomes the file's text, with "" for a file that cannot be read.
- `argparse`, JSON output, `print` and `main` are not modelled.
- The generators are lazy in Python. The model collects their batches into a sequence, so interleaving with the import loop is not captured.
- ProcParsers.CpuTimes: `float()` of `/proc/stat` fields is modelled as integer parsing. Fractional or exponent tokens, which the kernel never writes, are not accepted.
- ProcParsers.ParseAll: `int()` is modelled on an optional sign followed by ASCII digits. Surrounding whitespace, `_` separators and non-ASCII digits are not accepted. Tokens from `split()` never hold whitespace.
- The transaction amount is taken as an input in cents within the range of `round(uniform(1, 10000), 2)`. Floating-point rounding is not modelled.
- Latency.Rank: the percentile rank is the exact `n*k/100`. The float `int(n * 0.9)` agrees for every realistic sample count, but its rounding is not modelled.
- Generator.TemporalBuckets and Hierarchy.CreateTemporalHierarchy take the number of window days as a parameter. The source uses 365.
- The Month `start` of a bucket is the window day's own timestamp. `dt.timestamp()` gives back the same value except across DST folds, which are not modelled.
- The flat and time-partitioned variants are one model, selected by `Schema`. Their benchmark query texts differ, and those are left out with the store.

## Findings

| source | as written | input that shows it | evidently intended | confidence | as-written member | corrected member |
|---|---|---|---|---|---|---|
| neo4j_bench_optimized.py:239-247 | Day nodes are created for `range(365)` days from the start, but transaction timestamps run over `[start, start + 365 days)`. That interval touches 366 local dates whenever the start is not at local midnight, so the import's `MATCH (d:Day {key: row.day_key})` finds nothing for transactions on the last date, and they are silently not created | a UTC calendar, a start at 12:00, and a draw `sqrt(u) = (31536000 - 1) / 31536000`, which gives the timestamp `start + 31535999` on the 366th date | every transaction timestamp has its Day node, i.e. one more day is sampled | not executed | Coverage.LastDayUnbucketed | Coverage.CreateCoveringHierarchy |
| neo4j_bench_optimized.py:351-352 | the write test's Day key is the date of `datetime.now()`, which is at least one year after `START_TIME_YEAR_AGO` and so outside the 365 sampled days; every row's `MATCH (d:Day ...)` fails and no write-test transaction is created | any run: "now" is `start + 365 days` or later, e.g. a UTC calendar and `now = start + 31536000` | the write test finds today's Day node | not executed | Coverage.WriteDayUnmatched | Coverage.WriteDayMatched |
