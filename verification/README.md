# statsd file backend, modelled in Dafny

This project models the statsd file backend, `backends/file.js`. On every flush
the backend does four things:

- it writes the metrics snapshot (counters, timers, gauges) into a raw folder, keyed
  by its millisecond timestamp;
- it sweeps the raw folder of snapshots older than the retention window;
- it rebuilds an aggregate record from every snapshot left;
- it answers status requests with its two status fields.

The model is functional:

- the raw folder is a map from millisecond timestamp to snapshot;
- a directory listing is a given sequence that names every stored timestamp once, in any order;
- numbers are `real`.

Modules:

- `Seqs`: two facts about permutations of sequences. `SplitAtLast` finds the last
  element of one sequence inside a permutation of it. `MultisetOfThree` moves a block
  without changing the multiset. Every proof that reading order does not matter
  rests on them.
- `StatsMath`: the `sum`, `mean` and `stdev` helpers, and the extrema.
- `Metrics`: the snapshot, timer-entry and aggregate datatypes. It also holds the
  reference views used to state what each reduction computes:
  - `Names` is every name of a kind across the snapshots;
  - `Occurrences` is a name's values in reading order;
  - `Flatten` joins sample lists.
- `Counters`, `Timers`, `Gauges`: `processCounters`, `processTimers` and
  `processGauges`. Each is a fold over the snapshots, proved equal to the reference
  view.
- `Retention`: `cleanup`. This is the sweep as a filter, plus the source's loop over
  the listing proved equal to the filter for any listing order.
- `Aggregation`: `aggregate`, the three reductions over the snapshots read in
  listing order. Counter totals do not depend on that order.
- `Folders`: `createFolder`, as the sequence of directory paths it ensures.
- `FileBackend`: the constructor, `flush`, `status`, and runs of flushes.
- `Scenarios`: one worked sweep and aggregation over two snapshots.

Behaviour of the code that the model keeps as it is, although the names or
comments suggest otherwise:

- The sweep deletes a snapshot whose timestamp equals `now - retention`, so the
  snapshot exactly at the cutoff goes.
- The field named `stdev` is the population variance; no square root is taken. For
  samples 1, 2, 3, 4 it is 1.25, not 1.118.
- `lastFlush` and `lastException` keep the startup time forever: nothing after the
  constructor assigns them.
- A retention of 0 is falsy and gives the default of 30000, like an unset one.
- Reading a corrupt snapshot throws and aborts the whole aggregation pass; no entry
  is skipped. The model has no corrupt snapshots (see below).

## Model

| member | source | states |
|---|---|---|
| StatsMath.Sum | backends/file.js:12-18 | the total of no samples is 0 and of one sample is that sample; with SumAppend and SumPermutation this fixes the total of every list |
| StatsMath.SumAppend | backends/file.js:12-18 | the running total of a concatenation is the sum of the totals of its parts |
| StatsMath.SumPermutation | backends/file.js:12-18 | the total does not depend on the order of the samples |
| StatsMath.Min | backends/file.js:167 | the minimum is one of the samples and no sample is smaller |
| StatsMath.Max | backends/file.js:168 | the maximum is one of the samples and no sample is larger |
| StatsMath.SumBounds | backends/file.js:12-18 | samples between lo and hi total between n·lo and n·hi |
| StatsMath.Mean | backends/file.js:19-23 | on a non-empty list, the mean times the sample count is the total; one sample is its own mean |
| StatsMath.MeanWithinBounds | backends/file.js:19-23 | the mean of samples between lo and hi lies between lo and hi |
| StatsMath.MeanBetweenExtrema | backends/file.js:19-23 | the mean lies between the minimum and the maximum |
| StatsMath.SquaredDeviations | backends/file.js:27-30 | the sum of squared deviations is never negative |
| StatsMath.SquaredDeviationsZero | backends/file.js:27-30 | the squared deviations from a centre total zero exactly when every sample equals that centre |
| StatsMath.Stdev | backends/file.js:24-32 | the value named stdev, the variance, is never negative |
| StatsMath.StdevZeroIffConstant | backends/file.js:24-32 | the variance is zero exactly when all samples are equal |
| Counters.AddCounters | backends/file.js:118-129 | one snapshot's counters join the running totals: the names are the union; a name's new total is its old total, or 0 when it has none, plus the snapshot's value, so the falsy branch for a total of 0 gives the same result; other names keep their totals |
| Counters.SumCounters | backends/file.js:114-135 | the fold's names are those of any snapshot, and each total is the sum of that name's values over the snapshots that carry it |
| Counters.ProcessCounters | backends/file.js:109-137 | processCounters maps each counter name of any snapshot to the sum of its values, and has no other names |
| Counters.CountersIgnoreOrder | backends/file.js:114-133 | reading the same snapshots in another order gives the same counter totals |
| Timers.ComputeStats | backends/file.js:164-171 | count is the sample count; min and max are samples bounding every sample; min ≤ mean ≤ max; mean is total over count; stdev is the squared deviations from the mean over count, never negative, and zero exactly when all samples are equal |
| Timers.MergeTimer | backends/file.js:151-171 | a timer's samples after one more list are its samples so far, or none for a new name, followed by the list; statistics are recomputed over all samples when there are any and otherwise stay as they were, absent for a new name |
| Timers.AddTimers | backends/file.js:149-173 | one snapshot's timers join the output: the names are the union; a named timer's samples are its old samples, or none for a new name, followed by the snapshot's list; its statistics are recomputed over all samples when there are any and otherwise stay as they were, absent for a new name; other names keep their entries |
| Timers.CollectTimers | backends/file.js:145-177 | each timer name of any snapshot holds the concatenation, in reading order, of its sample lists, and has statistics exactly when that concatenation is non-empty, computed over all of it |
| Timers.ProcessTimers | backends/file.js:140-181 | processTimers has the timer names of the snapshots; each holds its joined samples and statistics over them, present exactly when there is a sample |
| Timers.TwoFlushExample | backends/file.js:149-171 | timer lists [1, 2, 3] then [4] give samples [1, 2, 3, 4], count 4, min 1, max 4, mean 2.5 and stdev 1.25 |
| Timers.ExampleStats | backends/file.js:164-171 | the statistics of 1, 2, 3, 4 are count 4, min 1, max 4, mean 2.5, variance 1.25 |
| Gauges.AddGauges | backends/file.js:194-206 | one snapshot's gauges join the output: the names are the union; a named gauge's list is its old list, or the empty list for a new name, with the snapshot's value pushed at the end; other names keep their lists |
| Gauges.CollectGauges | backends/file.js:190-208 | each gauge name of any snapshot lists its values in reading order, one per snapshot that carries it |
| Gauges.ProcessGauges | backends/file.js:185-212 | processGauges has the gauge names of the snapshots, each with its values in reading order |
| Gauges.GaugeListLength | backends/file.js:199-204 | a gauge's list is exactly as long as the number of snapshots that carry the name: nothing is replaced or merged |
| Retention.Sweep | backends/file.js:56-71 | after the sweep a timestamp is stored exactly when it was stored and is strictly newer than now − retention; kept snapshots are unchanged |
| Retention.Cleanup | backends/file.js:54-73 | visiting the listing in any order and deleting each timestamp with now − retention ≥ t leaves exactly the sweep's result |
| Aggregation.Aggregate | backends/file.js:81-106 | a counter, timer or gauge name is in the aggregate exactly when some stored snapshot carries it; its value is the reduction of its values read in listing order |
| Aggregation.ReadAll | backends/file.js:85-92 | one snapshot per listed name, in listing order: the i-th read is the snapshot stored under the i-th listed timestamp |
| Aggregation.Reduce | backends/file.js:97-104 | the three reductions together: each kind has exactly the names its snapshots carry; a counter is the total of its values, a timer holds its joined sample lists with statistics over them, and a gauge lists its values, all in snapshot order |
| Aggregation.ReadAllPermutation | backends/file.js:85-92 | two listings of the same files read the same snapshots, up to order |
| Aggregation.CountersIgnoreListingOrder | backends/file.js:85-97 | the aggregate counters are the same whatever order the directory is listed in |
| Folders.LastIndexOf | backends/file.js:41 | lastIndexOf gives the position of a `/` with none after it, or -1 when there is none |
| Folders.FolderPart | backends/file.js:41 | the folder part is a prefix of the destination; with a `/` in the destination it stops right before a `/`, and without one it is empty |
| Folders.FolderPartLastSlash | backends/file.js:41 | no `/` follows the one that ends the folder part, so that `/` is the destination's last |
| Folders.IndexOf | backends/file.js:42 | indexOf gives the position of the first separator, or -1 when there is none |
| Folders.Split | backends/file.js:42 | split gives one more piece than separators; no piece holds a separator; each piece followed by the separator rebuilds the string plus a final separator |
| Folders.Accumulate | backends/file.js:45-50 | the i-th path is the start path followed by the first i + 1 parts, each followed by `/` |
| Folders.CreateFolder | backends/file.js:39-51 | there is one path per `/`-separated segment of the folder part; each ends in `/` and strictly extends the one before; with a `/` in the destination each is a prefix of it and the last is the destination up to and including its last `/`; with none the only path is `/` |
| FileBackend.EnsureFolders | backends/file.js:227-229 | a path is ensured exactly when `createFolder` ensures it for one of the destinations, intermediate directories included; every ensured path names a directory, and each destination that names a directory is ensured |
| FileBackend.Construct | backends/file.js:214-229 | a configuration without `fileDirectory` yields no backend, because `createFolder(undefined)` throws at the folder part; with one it yields the backend `New` describes, rooted at that directory and stamped with the startup time |
| FileBackend.New | backends/file.js:214-229 | lastFlush and lastException are the startup time; retention is the configured value unless it is absent or 0, and then 30000; the root is the configured directory, and the raw and aggregate folders sit under it; a path is ensured exactly when `createFolder` ensures it for the root, the raw folder or the aggregate folder, so both folders, and the root when it names a directory, are ensured; the raw folder keeps what it held |
| FileBackend.Flush | backends/file.js:237-256 | the snapshot is stored at timestamp·1000, and only snapshots newer than the cutoff survive; the new one survives exactly when retention > 0; the aggregate is rebuilt with exactly the surviving names; status fields, retention and folders are unchanged |
| FileBackend.FlushIncludesSnapshot | backends/file.js:240-254 | with a positive retention the new snapshot is stored, each of its names reaches the aggregate, and each gauge value is in its gauge's list |
| FileBackend.Run | backends/file.js:237-256 | any run of flushes leaves the status fields, retention and folders as they were, and leaves an aggregate after at least one flush |
| FileBackend.Status | backends/file.js:258-262 | status writes exactly two tuples, each with no error and backend `file`: first `lastFlush` with its value, then `lastException` with its value |
| FileBackend.StatusReportsStartup | backends/file.js:258-262 | after construction and any run of flushes, status reports (no error, file, lastFlush, startup time) and then (no error, file, lastException, startup time) |
| Scenarios.SweepKeepsBoth | backends/file.js:56-71 | with retention 5000 a sweep at 3000 keeps snapshots stored at 1000 and 2000 |
| Scenarios.TwoSnapshotAggregate | backends/file.js:97-104 | snapshots {hits: 1} and {hits: 2, latency: [5, 10], q: 3} aggregate to hits 3, latency count 2, min 5, max 10, mean 7.5, stdev 6.25, and q [3] |
| Scenarios.LatencyStats | backends/file.js:164-171 | the statistics of 5, 10 are count 2, min 5, max 10, mean 7.5, variance 6.25 |

## Left out

- File system effects: `readdirSync`, `readFileSync`, `writeFileSync`, `unlinkSync`, `existsSync`, `mkdirSync`. The raw folder is a map and the listing is a parameter. `createFolder` returns the paths it would ensure.
- JSON serialisation and parsing. A snapshot is a datatype, so a corrupt file, which aborts the pass at backends/file.js:91, cannot arise.
- I/O failures that throw and abort a flush. Examples: a failed write, a failed deletion, a missing folder.
- Turning file names into numbers (`list[index] * 1`). Non-numeric names give NaN. Listings here hold the timestamps themselves.
- The doubled slash in the raw file name `rawFolder + "/" + millis`. It names the same file.
- IEEE floating point and mathjs internals. Values are exact reals, so rounding in sums, means and variances is not modelled. The extrema are specified abstractly.
- Integer width of timestamps. `timestamp * 1000` is exact here.
- A non-numeric or non-integer `retention` value in the configuration.
- A `fileDirectory` that is present but not a string, such as a number. `createFolder` would throw on it as it does on a missing one; the model's directory is always a string when present.
- `config.console`, stored by the constructor but never read.
- The event emitter wiring, `console.log` output, `setupMath` registration, and `exports.init`.
- `fileConfig.js`, a static configuration literal with no logic.
- Metric names that shadow members of `Object.prototype` (`constructor`, `toString`, `valueOf`, `hasOwnProperty`, `__proto__`, …). The accumulators are plain object literals (backends/file.js:111, 142, 187), so for such a name `output[key]` is an inherited, truthy value. A counter then becomes a string concatenation, and a timer or gauge throws at `concat` or `push`, aborting `aggregate` after the counters file is written. The model's maps have no inherited entries and treat every name alike.
- FileBackend.Flush: its contract names the aggregate's keys. The values come from `Aggregation.Aggregate`'s contract, which it reaches by unfolding.
