# Cephylas, modelled in Dafny

Cephylas watches Docker containers and the host they run on. It samples each
container's resource counters every ten seconds and turns two consecutive samples
into rates. It keeps a bounded in-memory history of those usage documents and serves
it over a small HTTP API. A Next.js front end downsamples and styles the series for
charts. On the host side, parsers read `/proc/stat`, `/proc/meminfo`,
`/proc/diskstats` and `/proc/net/dev`, and one JSON record is built per reading.

This project models the computational core of that system and proves properties of
the model:

- **`log_cache.dfy`**: the history buffer. `LogCache` is a FIFO capped at 8640
  entries that rotates in place. It is a class whose buffer field the methods
  reassign.
- **`docker_stats.dfy`**: the counters that `reshape_json` extracts from a Docker
  stats document, and the per-container rates that `calc_usage` derives from two
  snapshots.
- **`collector.dfy`**: the rest of the collector.
  - `calc_usage` over every container of a snapshot.
  - The log condition, the wall-clock tick schedule and the history updates of the
    `log_json` loop.
  - `read_log`'s replay of the daily log, with its skip count.
- **`history_json.dfy`**: the recursive `custom_dump` serialiser, and
  `reshape_log_cache`, which regroups the history into one series per container.
- **`downsample.dfy`**: the largest-triangle-three-buckets downsampler
  `downsampleByLTTB`.
  - Its loops are kept as a method.
  - The method is proved equal to a functional reference `Lttb`.
  - The lemmas about `Lttb` cover output length, first and last points, bucket
    bounds, ordering and the tie-breaking rule.
- **`datasets.dfy`**: `prepareDatasets` and `prepareDatasetsIOandNet`. These sort
  containers by label, downsample each series to 512 points, and assign the
  read/write or recv/send legends, colours and dash styles.
- **`server.dfy`**: the request handling of the query server.
  - Request-line parsing is a simplified form of the request-line of section 3 of
    RFC 9112.
  - Also modelled: the GET-only check, path segmentation, the route table, the
    200/404/405/500 responses and the JSON array bodies.
  - The handlers write to a `Stream` object that records every write.
- **`cpu_info.dfy`, `disk_info.dfy`, `net_info.dfy`, `net_info_early.dfy`,
  `mem_info.dfy`, `mem_info_search.dfy`**: the `/proc` parsers, with their
  `EntryNotFound`/`InvalidEntry` errors, and their field-wise `Sub`.
  - Each parser is a method that steps a token or line cursor.
  - Each is proved equal to a declarative reading of the fields.
  - Lemmas give the first-failure error and the fields that are ignored.
  - `net_info_early.dfy` is the earlier copy in `src/net_info.rs`, proved to agree
    with the later parser on every input.
  - `mem_info_search.dfy` is the search-based `/proc/meminfo` reader of the core
    crate, proved to agree with the sequential reader on input in the kernel's
    order.
- **`host_log.dfy`**: `format_log`, which builds the host record.
  - A "time" key, then one key per source that was read.
  - An "errors" array holding one message per source that failed.
- **Shared modules**:
  - `json_value.dfy`: the JSON values of the `json` crate, with indexing, `as_u64`
    and insertion.
  - `text.dfy`: splitting, joining, lines, whitespace tokens, and integer parsing
    and printing.
  - `proc_fields.dfy`: the common field readers and the token cursor.
  - `wrappers.dfy`: `Option` and `Result`.

## Where the code and its description disagree

The model follows the code:

- **Bad request line.** `handle_connection` returns an error for a malformed request
  line (`core/src/server.rs:342`), and `start_server` propagates it with `?`. So the
  listener loop ends rather than answering the client (`Server.BadRequestLineWritesNothing`).
- **Failed fetch.** A failed container fetch aborts the whole `log_json` loop
  (`core/src/log.rs:162-164,351`), not just one tick (`Collector.LogJson`).
- **CPU percentage.** It is present whenever both deltas and the CPU count are
  present (`core/src/log.rs:213-215`). There is no check that the system delta is
  positive, so a zero delta gives a non-finite value (`DockerStats.CpuPercentage`).
  `custom_dump` prints such a value with `to_string`, which is not JSON, so once it is
  in the history `reshape_log_cache` panics at its `expect`
  (`HistoryJson.NonFiniteUsagePanics`).
- **CPU field order.** `CpuInfo::from_str` stores the second numeric token of
  `/proc/stat` in `system` and the third in `nice` (`src/cephylas/cpu_info.rs:124-126`),
  although the kernel writes nice before system (`Cpu.ParseCpuInfoFields`).

## Model

| member | source | states |
|---|---|---|
| LogCache.LastN | core/src/log_cache.rs:14-21 | the last min(len, n) elements of a sequence: exactly that many, and a suffix of it |
| LogCache.RotateLeft | core/src/log_cache.rs:16 | `rotate_left(1)`: same length, the rest followed by the old first element |
| LogCache.AddedAndRotatedKeepsLast | core/src/log_cache.rs:14-21 | one add on a buffer within the cap: the result is the last 8640 of old ++ [d] and never longer than 8640; its last element is d; at capacity it is old[1..] ++ [d], below capacity old ++ [d] |
| LogCache.LastNOfLastN | core/src/log_cache.rs:14-21 | trimming to n, appending and trimming again equals appending and trimming once |
| LogCache.LastNOfLongSuffix | core/src/log_cache.rs:14-21 | once the tail alone has n elements, what preceded it no longer matters |
| LogCache.ReplayKeepsLast | core/src/log_cache.rs:14-21 | after any number of adds the buffer holds the last min(N, 8640) of old contents ++ inserts, in insertion order |
| LogCache.LogCache.constructor | core/src/log_cache.rs:9-13 | a new cache is valid and empty |
| LogCache.LogCache.Data | core/src/log_cache.rs:22-24 | reads the buffer without changing it; its length is at most 8640 |
| LogCache.LogCache.AddAndRotate | core/src/log_cache.rs:14-21 | keeps the cap invariant; the new data is the last 8640 of old data ++ [d] |
| JsonValue.Keys | core/src/log.rs:190-191 | the keys of an object's entries, one per entry, in order |
| JsonValue.LookupFindsKey | core/src/log.rs:197-199 | a lookup succeeds exactly for a key the object has, and finds one of its entries |
| JsonValue.Get | core/src/log.rs:92 | indexing anything but an object gives `null` |
| JsonValue.AsU64 | core/src/log.rs:93 | `as_u64` is present only for numbers in the u64 range, and never for null, strings, objects, arrays, booleans or non-finite numbers |
| JsonValue.AsU32 | core/src/log.rs:99-101 | `as_u32` is present only below 2^32 and then agrees with `as_u64` |
| JsonValue.OptNum | core/src/log.rs:131-150 | an optional counter stored in a document is null exactly when absent, and reads back through `as_u64` |
| JsonValue.OptStr | core/src/log.rs:131-132 | an optional string stored in a document reads back through `as_str` |
| JsonValue.Insert | core/src/log.rs:442-444 | after inserting, the key looks up to the inserted value |
| JsonValue.Set | core/src/log.rs:193-195 | `j[key] = v` makes an object in which key gives v |
| JsonValue.InsertKeepsOther | core/src/log.rs:442-444 | inserting a key leaves every other key's lookup unchanged |
| JsonValue.SetKeepsOther | core/src/log.rs:193-195 | assigning a key leaves every other key unchanged |
| JsonValue.AppendNewKey | core/src/log.rs:244 | inserting a key the object lacks appends it at the end |
| JsonValue.LookupFirst | core/src/log.rs:197 | a lookup finds the first entry with that key |
| JsonValue.InsertKeySeq | core/src/log.rs:442-444 | inserting keeps the key order, and appends the key only when it is new |
| JsonValue.InsertKeys | core/src/log.rs:442-444 | the keys after an insert are the old keys plus the inserted one |
| JsonValue.InsertKeepsDistinct | core/src/log.rs:442-444 | inserting keeps an object's keys distinct |
| JsonValue.KeysConcat | core/src/log.rs:244 | the keys of two entry lists placed one after the other are the two key lists concatenated |
| JsonValue.LookupConcat | core/src/log.rs:197 | a lookup in two entry lists placed one after the other answers from the first when it has the key, else from the second |
| DockerStats.SaturatingSub | core/src/log.rs:203-210 | `saturating_sub`: never more than the minuend, the exact difference when no underflow, 0 on underflow |
| DockerStats.Delta | core/src/log.rs:203-210 | a delta is present iff both readings are; it is the saturating difference, 0 after a counter reset |
| DockerStats.MapDiv | core/src/log.rs:91-98 | `.map(\|v\| v / d)`: present iff the input is, and the integer quotient (q·d ≤ v < (q+1)·d) |
| DockerStats.UsedMemory | core/src/log.rs:102-108 | present iff usage is; usage minus cache, with a missing cache counting as 0 and saturating at 0 |
| DockerStats.BlkioValue | core/src/log.rs:118-127 | the value of the first blkio entry whose op matches; absent when none matches |
| DockerStats.Reshape | core/src/log.rs:88-150 | every counter in u64 range, the CPU count in u32 range; CPU total and system present iff the ns fields are, and equal to ns / 1 000 000; used present iff usage is; time copied |
| DockerStats.ReadStats | core/src/log.rs:199 | a container missing from the previous snapshot (`null`) reads as no counters at all |
| DockerStats.ReadStatsOfStatsToJson | core/src/log.rs:131-150 | reading the built document back through `as_u64` gives every counter unchanged (round trip) |
| DockerStats.StatsToJsonParts | core/src/log.rs:131-150 | the reshaped document is {time, cpu{total, system, ncpu}, memory{used, available}, io{read, write}, net{send, recv}} |
| DockerStats.Percentage | core/src/log.rs:219-222 | a percentage is a division by zero exactly when its denominator is 0 |
| DockerStats.IoRate | core/src/log.rs:225-232 | an I/O rate is present iff both readings are; 0 after a counter reset |
| DockerStats.NetRate | core/src/log.rs:235-242 | a network rate is present iff both readings are; 0 after a counter reset |
| DockerStats.CpuPercentage | core/src/log.rs:213-215 | present iff the CPU delta, system delta and CPU count all are; a division by zero exactly when the system delta is 0 |
| DockerStats.IoRateBounds | core/src/log.rs:225-232 | the I/O rate is (diff / 1000) / (millis / 1000) in integer division |
| DockerStats.NetRateBounds | core/src/log.rs:235-242 | the network rate is diff / millis in integer division |
| DockerStats.CpuPercentageValue | core/src/log.rs:213-215 | with a non-zero system delta, the percentage times the system delta is cpu delta · ncpu · 100 |
| DockerStats.UsageOf | core/src/log.rs:196-268 | per container: when each delta, rate and percentage is present, the cumulative kB fields as the current counter / 1000, and memory figures and CPU count copied |
| DockerStats.NewContainerHasNoRates | core/src/log.rs:199 | a container the previous snapshot lacks gets no deltas, rates or CPU percentage, but keeps its memory figures and totals |
| Collector.SetStatKeeps | core/src/log.rs:244 | setting one container's usage keeps "time" and "millis" and leaves "stats" an object |
| Collector.SetStatEntries | core/src/log.rs:244 | setting one container's usage inserts it into the "stats" entries |
| Collector.AddUsagesHeader | core/src/log.rs:193-196 | the loop keeps "time" and "millis"; with no containers it changes nothing |
| Collector.AddUsagesDistinct | core/src/log.rs:196-269 | each container appears once in "stats" |
| Collector.AddUsagesKeySet | core/src/log.rs:196-269 | the keys of "stats" are exactly the looped container names |
| Collector.AddUsagesValues | core/src/log.rs:244-268 | each container's entry is its own usage |
| Collector.AddUsagesStep | core/src/log.rs:196-269 | one more loop iteration sets one more container |
| Collector.UsagesContents | core/src/log.rs:185-272 | time is the snapshot's time or "null", millis is the tick, "stats" is null without containers, and otherwise holds exactly one usage per container of the current snapshot, with distinct keys |
| Collector.CalcUsage | core/src/log.rs:185-272 | the loop builds exactly the usage document `Usages` describes |
| Collector.LogConditionOfSnapshots | core/src/log.rs:356-364 | a tick is logged iff both the current and the previous snapshot have a container with a CPU entry; never against the empty start object |
| Collector.SnapshotFirstStat | core/src/log.rs:168-174 | a snapshot has a first stat iff it has containers, and that stat has a CPU object |
| Collector.FirstBoundaryIsNext | core/src/log.rs:337-340 | the first boundary is a multiple of the tick, strictly after now, at most one tick later, and the first such multiple |
| Collector.BoundaryIsAligned | core/src/log.rs:383 | every boundary is tick-aligned and after now, and the next is exactly one tick later |
| Collector.WaitMillisMeaning | core/src/log.rs:344 | the wait fits a u64, is 0 when the boundary has passed, and otherwise brings the clock exactly to the boundary |
| Collector.NoFirstStatBeforeFirst | core/src/log.rs:342 | the initial previous snapshot `{}` has no first stat |
| Collector.LoggedFewer | core/src/log.rs:356-364 | the first tick is never logged, so n ticks log fewer than n documents |
| Collector.LoggedAllButFirst | core/src/log.rs:356-381 | when every snapshot has a CPU entry, every tick but the first is logged |
| Collector.WaitsStep | core/src/log.rs:343-349 | one more tick adds its wait to the list of waits |
| Collector.WaitsAt | core/src/log.rs:343-349 | the k-th wait is the wait for boundary k at the k-th clock reading |
| Collector.OkPrefix | core/src/log.rs:351 | the snapshots processed are at most those fetched |
| Collector.OkPrefixUpToFailure | core/src/log.rs:351 | the processed snapshots are those before the first failed fetch, which stops the loop |
| Collector.OkPrefixAt | core/src/log.rs:351 | a fetch before the stop was processed, and a failed fetch is the stop |
| Collector.LogTick | core/src/log.rs:368-380 | one tick adds its logged document (if any) to the history through `add_and_rotate` |
| Collector.LogTickOf | core/src/log.rs:368-380 | after tick i the history is the last 8640 of old history ++ the documents logged by ticks 0..i |
| Collector.LogJson | core/src/log.rs:317-386 | over a run of ticks: the loop stops iff a fetch fails; it waits once per tick reached, each wait towards its own boundary; the timing ends at the boundary after the last processed tick; the history becomes the last 8640 of old ++ all documents logged |
| Collector.ValuesFromLength | core/src/log.rs:404-415 | lines a..b give b − a values |
| Collector.ValuesFromAt | core/src/log.rs:404-415 | each parsed line's value sits at its position among the values |
| Collector.ValuesFromSplit | core/src/log.rs:404-415 | the values of a..b are those of a..m followed by those of m..b |
| Collector.FirstRead | core/src/log.rs:397-398 | the first line read: with more than 8640 lines exactly 8641 are read, with at most 8641 all are |
| Collector.ReadLog | core/src/log.rs:388-418 | succeeds iff every line read parses; then the history is the last 8640 of old ++ the lines read; on failure it stops at the first line that does not parse, and the history is the last 8640 of old ++ the lines read before it |
| Collector.ReadLogKeepsLastLines | core/src/log.rs:397-414 | skipping the early lines leaves the same history as reading them all: the rotation absorbs the extra line |
| HistoryJson.CustomDumpIsDump | core/src/log.rs:291-315 | `custom_dump` and `dump` differ only in how object keys are escaped and how non-integral numbers are formatted: when no key needs escaping and the two number formats agree on every non-integral number of the value, they print the same text |
| HistoryJson.CountersRoundTrip | core/src/log.rs:299-311 | the dump of a non-empty array of u64 counters is bracketed, and splits on ',' into parts that parse back to the counters |
| HistoryJson.PushSeries | core/src/log.rs:445 | pushing a row onto a series of rows gives the series of rows plus that row |
| HistoryJson.PushGet | core/src/log.rs:435-445 | a push appends to the named array (created on first use) and leaves other names alone |
| HistoryJson.AddNamesGet | core/src/log.rs:434-446 | after the inner loop, each container of the document has one more row and no other entry changed |
| HistoryJson.RowsForStep | core/src/log.rs:430-446 | one more document adds a row to a container's series iff the document has that container |
| HistoryJson.AddLineGet | core/src/log.rs:430-446 | one document adds a row exactly to its own containers |
| HistoryJson.RegroupStep | core/src/log.rs:430-447 | the regrouped object after n documents extends that after n − 1 by the n-th document's rows |
| HistoryJson.RegroupRows | core/src/log.rs:420-450 | each container's entry holds one row per document that has the container, oldest first, and is null when there are none |
| HistoryJson.InsertAllLookup | core/src/log.rs:441-444 | inserting a usage's members in turn makes each key give its last value, re-dumped, and leaves the rest unchanged |
| HistoryJson.LastLookupIsLookup | core/src/log.rs:441-444 | with distinct keys, the last entry with a key is its only entry |
| HistoryJson.RowFields | core/src/log.rs:438-444 | a row holds each usage member re-dumped, "time" from the document when the usage has none, and nothing else |
| HistoryJson.ReshapeRow | core/src/log.rs:438-444 | building one row panics iff some usage member's dump does not parse back; otherwise it is the row with every member re-parsed |
| HistoryJson.ReshapeLine | core/src/log.rs:430-446 | one pass of the inner loop panics iff some usage of the document does not re-parse; otherwise it adds the document's rows to each of its containers |
| HistoryJson.AllUpToAll | core/src/log.rs:430-444 | checking the elements one after the other, as the loops do, succeeds iff every element passes |
| HistoryJson.HistoryParsesIff | core/src/log.rs:429-446 | the loops get through the history iff every usage member of every container of every document re-parses |
| HistoryJson.RegroupOptStops | core/src/log.rs:429-447 | once a document panics, the rest of the history is never reached |
| HistoryJson.RegroupOptMeaning | core/src/log.rs:429-447 | the step-by-step outcome succeeds iff every document so far re-parses, and is then the regrouping with the re-parse applied |
| HistoryJson.NonFiniteUsagePanics | core/src/log.rs:306-443 | a usage member holding a non-finite number, whose dump the parser rejects, makes the whole regrouping panic |
| HistoryJson.ReshapeLogCache | core/src/log.rs:420-450 | the nested loops panic (`None`) iff some usage member of some cached document does not re-parse; otherwise they return the regrouping of every cached document |
| Downsample.BucketArithmetic | next/src/lib/downsample.ts:15-22 | the bucket bounds are the exact integer forms ((i+1)(len−2)) div (n−2) and min(((i+2)(len−2)) div (n−2) + 1, len − 1) |
| Downsample.BucketBounds | next/src/lib/downsample.ts:21-23 | when downsampling, every bucket is non-empty and lies within [1, len − 1) |
| Downsample.BucketsInOrder | next/src/lib/downsample.ts:21-23 | each bucket ends at most one past where the next one starts |
| Downsample.CoordSumBounds | next/src/lib/downsample.ts:27-32 | the coordinate sum, nulls counted as 0, lies between m·lo and m·hi |
| Downsample.MeanBounds | next/src/lib/downsample.ts:27-32 | the bucket centroid lies between the smallest and largest coordinate |
| Downsample.Area | next/src/lib/downsample.ts:42-44 | the (unhalved) triangle area is non-negative |
| Downsample.Best | next/src/lib/downsample.ts:34-50 | the chosen offset is 0 or among the candidates scanned |
| Downsample.BestIsFirstLargest | next/src/lib/downsample.ts:34-50 | with no usable candidate the scan keeps (−1, 0); otherwise it picks a usable candidate of largest area, the first on ties |
| Downsample.Bucket | next/src/lib/downsample.ts:23 | every bucket is non-empty |
| Downsample.Choose | next/src/lib/downsample.ts:25-49 | the selection of a bucket is an interior index |
| Downsample.Pick | next/src/lib/downsample.ts:20-52 | the i-th selection, anchored on the previous one, is an interior index |
| Downsample.ChooseInBucket | next/src/lib/downsample.ts:25-49 | a selection lies inside its bucket |
| Downsample.PickInBucket | next/src/lib/downsample.ts:20-52 | the i-th selection lies inside bucket i |
| Downsample.ChooseIsFirstLargest | next/src/lib/downsample.ts:25-49 | the selection is the bucket start when no candidate is usable, and otherwise the first usable point of largest area against the anchor and the bucket centroid |
| Downsample.IndicesShape | next/src/lib/downsample.ts:18-54 | n indices: 0 first, len − 1 last, interior ones in [1, len − 2], non-decreasing |
| Downsample.IndicesInBuckets | next/src/lib/downsample.ts:20-53 | each interior index lies in its own bucket |
| Downsample.PicksInOrder | next/src/lib/downsample.ts:21-23 | consecutive selections do not go backwards |
| Downsample.InOrderAcrossBuckets | next/src/lib/downsample.ts:21-23 | any index in one bucket is at most any index in the next |
| Downsample.IndicesStep | next/src/lib/downsample.ts:52 | consecutive indices are non-decreasing |
| Downsample.LttbShape | next/src/lib/downsample.ts:11-55 | the data unchanged when n ≥ len or n < 3; otherwise exactly n points, the first and last points kept, every point an original one |
| Downsample.DownsampleByLTTB | next/src/lib/downsample.ts:5-56 | the imperative loops compute exactly the reference `Lttb` |
| Downsample.ChooseFromBucket | next/src/lib/downsample.ts:25-50 | the inner loop selects exactly `Choose` |
| Downsample.SampledStep | next/src/lib/downsample.ts:51-52 | one outer iteration appends the i-th selection and moves the anchor to it |
| Datasets.LabelLeTotal | next/src/lib/datasets.ts:33 | any two labels are ordered one way or the other |
| Datasets.LabelLeTrans | next/src/lib/datasets.ts:33 | the label order is transitive |
| Datasets.InsertByLabel | next/src/lib/datasets.ts:31-33 | inserting adds exactly that entry |
| Datasets.SortByLabel | next/src/lib/datasets.ts:31-33 | sorting permutes the entries |
| Datasets.InsertSorted | next/src/lib/datasets.ts:31-33 | inserting into a sorted list keeps it sorted |
| Datasets.SortByLabelSorts | next/src/lib/datasets.ts:31-33 | the sort result is ordered by label and is a permutation of its input |
| Datasets.Map | next/src/lib/datasets.ts:35 | `map` keeps the length and applies f at each position |
| Datasets.PrepareDatasets | next/src/lib/datasets.ts:28-45 | one dataset per container |
| Datasets.ChartDataShape | next/src/lib/datasets.ts:38-44 | null data gives []; up to 512 points are passed through mapped; longer data is cut to 512 mapped points keeping the first and last |
| Datasets.PrepareDatasetsShape | next/src/lib/datasets.ts:28-45 | the datasets are sorted by label, one for each container, and nothing else |
| Datasets.MakeDatasetLegend | next/src/lib/datasets.ts:36 | a dataset's label is its container name |
| Datasets.MapPermutation | next/src/lib/datasets.ts:31-35 | mapping a permutation gives the same mapped values |
| Datasets.Appendix | next/src/lib/datasets.ts:49 | each kind has exactly two series types |
| Datasets.StylePair | next/src/lib/datasets.ts:79-96 | a container yields two datasets, or fails when its data is null |
| Datasets.FlatMapIndexedSome | next/src/lib/datasets.ts:77 | the flat map succeeds iff every element's expansion does |
| Datasets.FlatMapIndexedPairs | next/src/lib/datasets.ts:77-97 | two results per element, in order |
| Datasets.StyledFields | next/src/lib/datasets.ts:81-95 | label "<container> <type>", colour indexed by position mod 7, background its translucent form, dash [5,5] exactly for send and write |
| Datasets.PrepareDatasetsIOandNetShape | next/src/lib/datasets.ts:70-97 | exactly two datasets per sorted container: [read, write] or [recv, send], sharing one colour, with the dashes and labels above |
| Datasets.StylePairShape | next/src/lib/datasets.ts:79-96 | the pair of one container carries its legends, colour and dash styles |
| Datasets.SomeIffNoNull | next/src/lib/datasets.ts:31-33 | sorting keeps "no container has null data" unchanged |
| Datasets.TranslucentRgb | next/src/lib/datasets.ts:24-25 | an `rgb(...)` colour becomes `rgba(...,0.5)` |
| Server.ParseRequest | core/src/server.rs:22-37 | no first line is "cannot find first line"; the first line must split on ' ' into exactly three parts, which become method, uri and version; otherwise the invalid-format error |
| Server.Segments | core/src/server.rs:349-351 | path segments are non-empty and contain no '/' |
| Server.JsonArray | core/src/server.rs:163-171 | a body starts with '[' and ends with ']' |
| Server.Quoted | core/src/server.rs:114-118 | each container name is put in double quotes |
| Server.Remove | core/src/server.rs:147 | `replace(c, "")` leaves no c and never lengthens the text |
| Server.TimeFields | core/src/server.rs:139-159 | a time string must have two parts around 'T' and three around ':', else "invalid time format" |
| Server.Stream.constructor | core/src/server.rs:332-337 | a new connection has nothing written |
| Server.Stream.Write | core/src/server.rs:58 | a write appends its text to the connection |
| Server.HandleMethodNotAllowed | core/src/server.rs:54-61 | writes the 405 response and reports MethodNotAllowed |
| Server.HandleGenericError | core/src/server.rs:69-81 | writes the 500 response carrying the error text and reports InternalServerError |
| Server.RouteNotFound | core/src/server.rs:89-97 | writes the 404 response and reports NotFound |
| Server.RouteContainers | core/src/server.rs:108-130 | writes the header and then the names body, or returns the lock error with nothing written |
| Server.RouteUsage | core/src/server.rs:181-229 | writes the header and then the series body, or reports NotFound with nothing written for an unknown series or container |
| Server.HandleConnection | core/src/server.rs:332-371 | the connection's writes and result are those of `Handle` on the request data |
| Server.RespondTo | core/src/server.rs:343-368 | a parsed request gets the 405 for a non-GET method, and otherwise its route and answer |
| Server.RunRoute | core/src/server.rs:352-362 | the route table runs exactly the route its segments select |
| Server.AnswerResult | core/src/server.rs:364-368 | a NotFound result gets a 404, an error a 500, anything else nothing more |
| Server.RequestLineRoundTrip | core/src/server.rs:22-37 | a request line of three space-free parts parses back to those parts |
| Server.SegmentsIgnoreSlashes | core/src/server.rs:349-351 | a trailing or a leading '/' does not change the segments, so "/containers/" routes like "/containers" |
| Server.BadRequestLineWritesNothing | core/src/server.rs:342 | a missing or malformed request line writes nothing and is returned as the matching error |
| Server.NotGetIsNotAllowed | core/src/server.rs:343-346 | a non-GET request gets exactly the 405, whatever the cache holds |
| Server.UnmatchedNotFoundTwice | core/src/server.rs:361-365 | a path outside the route table gets the 404 written twice |
| Server.UnknownResourceNotFound | core/src/server.rs:190-229 | an unknown resource, io subtype or net subtype gives NotFound and then one 404 |
| Server.NoSeriesNotFound | core/src/server.rs:213-228 | a usage route with no series writes one 404 |
| Server.UnknownContainerNotFound | core/src/server.rs:216-228 | a container the cache does not know writes one 404 |
| Server.LockErrorIsInternalError | core/src/server.rs:364-368 | a lock error on any matched route becomes a 500 carrying its text |
| Server.ContainersWritesHeaderThenBody | core/src/server.rs:113-129 | `/containers` writes its header with Content-Length equal to the body's byte length, then the body |
| Server.UsageWritesHeaderThenBody | core/src/server.rs:216-226 | a known series writes its header with Content-Length equal to the body's byte length, then the body |
| Server.JsonArrayItems | core/src/server.rs:163-171 | the inside of a body splits on ',' back into its items |
| Server.ContainersJsonNames | core/src/server.rs:113-119 | the names body is "[]" for no names, else splits into the quoted names |
| Server.TimeFieldsRoundTrip | core/src/server.rs:139-159 | date "T" h ":" m ":" s gives back h, m and s without its 'Z' |
| Cpu.SubOptional | src/cephylas/cpu_info.rs:40-46 | present iff both sides are, and then the difference |
| Cpu.Sub | src/cephylas/cpu_info.rs:22-37 | field-wise difference of the four mandatory fields, `sub_optional` on the six optional ones |
| Cpu.CalcCpuUsage | src/cephylas/cpu_info.rs:85-107 | 0 when the total (optional fields counted as 0) is 0, otherwise user · 100 / total |
| Cpu.CpuInfoFromStr | src/cephylas/cpu_info.rs:109-156 | stepping the token cursor gives exactly the declarative parse |
| Cpu.ParseCpuInfoOk | src/cephylas/cpu_info.rs:109-156 | success iff the first token is "cpu", four numeric tokens follow, and each optional token present among the next six parses |
| Cpu.ParseCpuInfoFields | src/cephylas/cpu_info.rs:123-134 | tokens 1–4 are user, system, nice and idle in that order; tokens 5–10 fill the optional fields, absent ones None |
| Cpu.CpuMandatoryFailure | src/cephylas/cpu_info.rs:138-146 | the first missing mandatory token is EntryNotFound(name); the first non-integer is InvalidEntry(name) |
| Cpu.CpuOptionalFailure | src/cephylas/cpu_info.rs:148-156 | the first unparseable optional token is InvalidEntry(name) |
| Disk.Fields | src/cephylas/disk_info.rs:111-145 | a disk reading has 16 fields |
| Disk.OfFields | src/cephylas/disk_info.rs:111-145 | building from 16 values gives back those values |
| Disk.Sub | src/cephylas/disk_info.rs:63-101 | an unclamped field-wise difference of all 16 fields |
| Disk.DiskInfoFromStr | src/cephylas/disk_info.rs:102-157 | skipping three tokens and stepping the cursor gives exactly the declarative parse |
| Disk.ParseDiskInfoFields | src/cephylas/disk_info.rs:105-145 | success iff tokens 3–18 exist and parse; field i is token 3 + i |
| Disk.ParseDiskInfoShort | src/cephylas/disk_info.rs:107-113 | fewer than four tokens is EntryNotFound("reads_completed") |
| Disk.ParseDiskInfoFailure | src/cephylas/disk_info.rs:149-157 | the first missing or non-integer field gives EntryNotFound or InvalidEntry for that field |
| Disk.ParseDiskInfoIgnoresExtra | src/cephylas/disk_info.rs:111-146 | tokens after the 16th field do not matter |
| Net.RxFields | src/cephylas/net_info.rs:126-135 | the receive side has 8 fields |
| Net.TxFields | src/cephylas/net_info.rs:136-145 | the transmit side has 8 fields |
| Net.Fields | src/cephylas/net_info.rs:125-145 | a network reading has 16 fields, receive first |
| Net.OfFields | src/cephylas/net_info.rs:125-145 | building from 16 values gives back those values |
| Net.SubRx | src/cephylas/net_info.rs:38-52 | an unclamped field-wise difference of the receive fields |
| Net.SubTx | src/cephylas/net_info.rs:54-68 | an unclamped field-wise difference of the transmit fields |
| Net.Sub | src/cephylas/net_info.rs:70-78 | an unclamped field-wise difference of receive and transmit |
| Net.NetInfoFromStr | src/cephylas/net_info.rs:118-148 | skipping the device name and stepping the cursor gives exactly the declarative parse |
| Net.ParseNetInfoFields | src/cephylas/net_info.rs:121-145 | success iff tokens 1–16 exist and parse; field i is token 1 + i, rx before tx |
| Net.ParseNetInfoFailure | src/cephylas/net_info.rs:108-116 | the first missing or non-integer field gives EntryNotFound or InvalidEntry for that field |
| Net.ParseNetInfoIgnoresExtra | src/cephylas/net_info.rs:125-147 | tokens after the 16th field do not matter |
| NetEarly.NetInfoFromStr | src/net_info.rs:108-192 | the earlier inline parser gives on every input the same result as the later one |
| Mem.Fields | src/cephylas/mem_info.rs:64-83 | a memory reading has 18 fields |
| Mem.OfFields | src/cephylas/mem_info.rs:64-83 | building from 18 values gives back those values |
| Mem.ParseLine | src/cephylas/mem_info.rs:87-106 | a value is a u64; a failure names the signature and is EntryNotFound or InvalidEntry |
| Mem.ParseLinePrinted | src/cephylas/mem_info.rs:93-104 | a line "signature value unit…" gives the value; the tokens after it are ignored |
| Mem.ReadLines | src/cephylas/mem_info.rs:62-83 | on success one value per signature, never more signatures than lines |
| Mem.ParseNextLine | src/cephylas/mem_info.rs:87-106 | takes the next line off the shared cursor; with none left it is EntryNotFound(signature) |
| Mem.MemInfoFromStr | src/cephylas/mem_info.rs:59-85 | stepping the shared line cursor gives exactly the declarative parse |
| Mem.ReadLinesOk | src/cephylas/mem_info.rs:62-83 | success iff there are enough lines and line i parses for signature i; field i comes from line i |
| Mem.ReadLinesFirstFailure | src/cephylas/mem_info.rs:91-104 | the first failing line gives its error, and running out of lines gives EntryNotFound |
| Mem.ReadLinesIgnoresExtra | src/cephylas/mem_info.rs:64-83 | lines after the 18th do not matter |
| Mem.ParseMemInfoFields | src/cephylas/mem_info.rs:62-83 | success iff the first 18 lines parse for MemTotal … Writeback in order; field i is line i's value |
| MemSearch.FindLine | core/src/cephylas/mem_info.rs:91-93 | finds nothing iff no line starts with the signature, else the first line that does |
| MemSearch.ReadSearch | core/src/cephylas/mem_info.rs:62-83 | on success one value per signature |
| MemSearch.ReadSearchOk | core/src/cephylas/mem_info.rs:59-85 | success iff every signature's search parses; field i comes from signature i's line |
| MemSearch.GluedValueNotFound | core/src/cephylas/mem_info.rs:96-100 | a matching line whose first token has the value glued on ("MemTotal:5") is EntryNotFound |
| MemSearch.ReadSearchFirstFailure | core/src/cephylas/mem_info.rs:102-105 | the first signature that fails gives the error |
| MemSearch.FindLineSkips | core/src/cephylas/mem_info.rs:91-93 | a line that does not start with the signature does not affect the search |
| MemSearch.ReadSearchIgnoresUnknown | core/src/cephylas/mem_info.rs:91-93 | a line starting with no known signature does not affect the result |
| MemSearch.FindUnique | core/src/cephylas/mem_info.rs:91-93 | when only one line starts with the signature, it is the one found wherever it sits |
| MemSearch.ReadSearchReordered | core/src/cephylas/mem_info.rs:91-93 | reordering lines does not change the result when each signature starts one line |
| MemSearch.OneSignaturePerLine | core/src/cephylas/mem_info.rs:91-93 | a line can start with at most one colon-terminated signature |
| MemSearch.AgreesFrom | core/src/cephylas/mem_info.rs:59-106 | on lines in signature order, searching agrees with reading line by line from any position |
| MemSearch.SignaturesWellFormed | core/src/cephylas/mem_info.rs:65-82 | the 18 signatures end in ':' and have distinct keys |
| MemSearch.SearchAgreesWithSequential | core/src/cephylas/mem_info.rs:59-85 | on input in the kernel's order, the search reader agrees with the sequential reader |
| ProcFields.ReadFields | src/cephylas/disk_info.rs:149-157 | on success one value per name, taken from as many tokens |
| ProcFields.ReadFieldsOk | src/cephylas/disk_info.rs:149-157 | success iff every field's token exists and parses, and each value is its token's |
| ProcFields.ReadFieldsFirstFailure | src/cephylas/disk_info.rs:149-157 | the first field that fails gives the error: EntryNotFound for a missing token, InvalidEntry for a non-integer one |
| ProcFields.ReadFieldsIgnoresExtra | src/cephylas/disk_info.rs:111-146 | tokens beyond the fields do not matter |
| ProcFields.ReadOptionals | src/cephylas/cpu_info.rs:148-156 | on success one optional value per name |
| ProcFields.ReadOptionalsOk | src/cephylas/cpu_info.rs:148-156 | success iff every present token parses; absent tokens give None |
| ProcFields.ReadOptionalsFirstFailure | src/cephylas/cpu_info.rs:148-156 | the first present but unparseable token gives InvalidEntry(name) |
| ProcFields.ReadFieldsAt | src/cephylas/disk_info.rs:105-157 | reading fields from token k: success iff tokens k.. exist and parse, with field i from token k + i |
| ProcFields.ReadOptionalsAt | src/cephylas/cpu_info.rs:128-156 | reading optionals from token k: success iff present tokens parse, each at its position |
| ProcFields.Cursor.constructor | src/cephylas/cpu_info.rs:113 | a cursor starts on all the tokens |
| ProcFields.Cursor.Next | src/cephylas/cpu_info.rs:142-144 | `next()` yields the first remaining token and drops it, or nothing at the end |
| ProcFields.Cursor.Nth | src/cephylas/disk_info.rs:107 | `nth(n)` yields token n and drops it and those before it, or empties the cursor |
| ProcFields.ParseToken | src/cephylas/disk_info.rs:149-157 | one token parsed or the field's error, consuming it |
| ProcFields.ParseFields | src/cephylas/disk_info.rs:111-145 | the cursor steps give exactly `ReadFields`, consuming one token per field on success |
| ProcFields.ParseOptionalFields | src/cephylas/cpu_info.rs:128-133 | the cursor steps give exactly `ReadOptionals` |
| Text.Split | core/src/server.rs:349 | `split(c)` gives at least one part, none containing c |
| Text.SplitCount | core/src/server.rs:349 | the number of parts is one more than the number of separators |
| Text.JoinSplit | core/src/server.rs:349 | joining the parts with the separator gives the text back |
| Text.SplitJoin | core/src/server.rs:163-171 | splitting separator-free parts joined by the separator gives the parts back |
| Text.SplitNoSep | core/src/server.rs:140 | text without the separator is one part |
| Text.SplitPrefix | core/src/server.rs:140 | a leading separator-free part is split off first |
| Text.NonEmpty | core/src/server.rs:350 | filtering keeps only non-empty parts |
| Text.IndexOf | core/src/server.rs:140 | the first position of a character present in the text |
| Text.Lines | core/src/server.rs:24 | `lines()` gives at least one line for non-empty text, none containing a newline |
| Text.LinesOfJoin | src/cephylas/mem_info.rs:62 | lines joined by newlines split back into those lines |
| Text.WordLength | src/cephylas/cpu_info.rs:113 | the length of the leading word: no whitespace in it, whitespace right after |
| Text.Words | src/cephylas/cpu_info.rs:113 | `split_ascii_whitespace()` gives non-empty tokens without whitespace |
| Text.WordsOfJoin | src/cephylas/cpu_info.rs:113 | tokens joined by spaces split back into the tokens |
| Text.WordsOfWord | src/cephylas/cpu_info.rs:113 | a word followed by whitespace is the first token |
| Text.ScanDigits | src/cephylas/cpu_info.rs:80 | a digit scan stays in range, and never reports empty input |
| Text.ParseInt | src/cephylas/cpu_info.rs:80 | `str::parse` gives a value in the target range, and the empty-input error exactly for empty text |
| Text.NatToString | core/src/server.rs:121-124 | a decimal rendering: digits only, no leading zero |
| Text.ScanNatToString | core/src/server.rs:121-124 | scanning a rendered number gives it back |
| Text.ParsePrintedU64 | core/src/log.rs:311 | a printed u64 parses back to itself |
| Text.Utf8Length | core/src/server.rs:120-123 | the byte length of a text is at least its number of characters |
| HostLog.ErrorText | src/cephylas/cpu_info.rs:48-69 | an error message starts with its error type's name |
| HostLog.Wrap64 | src/cephylas/log.rs:68 | a u64 result in range, and unchanged when no wrap-around happens |
| HostLog.Ratio | src/cephylas/log.rs:63-66 | an f32 quotient is non-finite exactly for a zero denominator, and otherwise times the denominator gives the numerator |
| HostLog.JsonMemUsed | src/cephylas/log.rs:63-68 | with free ≤ total, "used" is total − free and "usage" the used share of the total |
| HostLog.JsonMemCopies | src/cephylas/log.rs:67-76 | total, free, swap total and swap free are copied through |
| HostLog.Half | src/cephylas/log.rs:84-85 | `/ 2` on an i64, rounding toward zero |
| HostLog.JsonDiskHalves | src/cephylas/log.rs:80-88 | "read" and "write" are the completed reads and writes halved in integer division |
| HostLog.JsonNetMegabits | src/cephylas/log.rs:90-102 | "send" and "recv" are the byte counts times 8 over 2^20 |
| HostLog.Outcomes | src/cephylas/log.rs:17-41 | one outcome per source, in cpu, mem, disk, net order |
| HostLog.Strs | src/cephylas/log.rs:20-22 | each message becomes one JSON string, in order |
| HostLog.Record | src/cephylas/log.rs:17-41 | one `match` step: a read source sets its own key, a failed one pushes its message |
| HostLog.CollectedLookup | src/cephylas/log.rs:19-37 | after n sources, a source's key gives its object iff that source was visited and read |
| HostLog.PushedNone | src/cephylas/log.rs:43-45 | no message was pushed iff every visited source was read |
| HostLog.PushedMessages | src/cephylas/log.rs:17-41 | every failed source's message was pushed, and every pushed message is a failed source's |
| HostLog.CollectedDistinct | src/cephylas/log.rs:16-41 | "time" and the source keys are never repeated |
| HostLog.RecordSources | src/cephylas/log.rs:16-41 | "time" is always set; each source's key holds its object iff it was read |
| HostLog.RecordErrors | src/cephylas/log.rs:43-45 | "errors" is present iff some source failed, and holds the messages in cpu, mem, disk, net order |
| HostLog.RecordDistinct | src/cephylas/log.rs:9-45 | the record's keys are distinct |
| HostLog.AddErrors | src/cephylas/log.rs:43-45 | the errors array is added only when non-empty, completing the record |
| HostLog.Assemble | src/cephylas/log.rs:12-45 | the steps build exactly the record of the outcomes |
| HostLog.FormatLog | src/cephylas/log.rs:9-48 | `format_log` builds exactly the record of the reading |

## Left out

- Docker socket I/O (`call_docker_api`, `get_container_names`, `get_container_stats`, `get_containers_stats`): a snapshot and each fetch outcome are inputs.
- File I/O: both `log_daily` functions, `check_nlines`, the file reads in `read_log`, and the `/proc` readers `get_*_info`. The log lines, their count and the file contents are inputs; a line that fails to parse is `None`.
- The clock and `sleep`: clock readings are an input sequence, and the model records the waits instead of sleeping.
- Threads and the `RwLock`s: the history is owned state, and the server's lock outcome is an input (`Lock`).
- The TCP listener and `stream.read`: the request text is an input. The `Stream` class records the writes; write and flush failures are not modelled.
- The usage store behind the server (`SharedUsageCache`, `DownsampleOption`, `container_names`, `downsample`): this source is not part of the model. Its names and rendered series are an abstract `Cache`.
- Floating point:
  - f32 quotients are exact reals, and a zero denominator is a non-finite value (`DockerStats.Percentage`, `HostLog.Ratio`, `Cpu.CalcCpuUsage`).
  - The seconds-of-day arithmetic of the time string is not modelled; only its shape checks are.
  - The 2-decimal formatting of `custom_dump`, the number formatting of `dump`, the JSON string escaping and `json::parse` of a dump are parameters of the serialiser.
  - `HistoryJson.CustomDumpIsDump`: the lemma needs both number formats to agree on the value; the formats themselves are parameters, so it does not show where `{:.2}` and the decimal form of `dump` differ.
  - `Downsample.DownsampleByLTTB`: coordinates are exact reals. Float rounding of the bucket average and of the triangle areas is not modelled; on a near-tie it can pick a different point than the exact argmax.
  - `Downsample.DownsampleByLTTB`: NaN and infinite coordinates are not modelled. In JavaScript a NaN in a bucket makes its average NaN, every `area > maxArea` test is then false, and the bucket start is kept; a NaN at one point only makes that point's area NaN, so it is never chosen.
  - JavaScript's rounding of `bucketSize` is replaced by exact integer division.
- `Cpu.CalcCpuUsage`: the i64 sum of the fields is exact (no overflow), and the result is an exact real rather than an f32.
- `Cpu.Sub`, `Disk.Sub`, `Net.Sub`: i64 overflow of the differences is not modelled; they are exact integer differences.
- `HostLog.JsonNetMegabits`: the i64 overflow of `bytes * 8` is not modelled.
- `HostLog.Wrap64`: `mem.total - mem.free` wraps as a release build does; a debug build would panic on underflow instead.
- `HostLog.ResourceInfo`: `super::ResourceInfo` is not part of this model. Each field is assumed to hold its reader's parse result, with the error type of that reader.
- `Server.EscapeDebug`: only the C0 and C1 controls get `\u{..}`. Rust's `{:?}` also writes `\u{..}` for other non-printable characters and for grapheme extenders; those are copied.
- `format!("{:?}", timestamp)` is taken as given text, and `json::stringify` of the record is not modelled: `HostLog.FormatLog` returns the JSON value.
- `Datasets.LabelLe`: `localeCompare` is approximated by code-point lexicographic order.
- `Datasets.TranslucentRgb`: the translucent colour is proved for any `rgb(...)` colour, not for each of the seven palette entries separately.
- `NetEarly.NetInfoFromStr`: the 16 unrolled reads of `src/net_info.rs` are one loop over the field names. Its three `Sub` impls are the same text as in `src/cephylas/net_info.rs` and are modelled by `Net.Sub`.
- The libc time conversions in `core/src/time.rs`, `src/cephylas/watch.rs`, `get_info`, the front-end components, `logReader.ts`, `fetchers.ts` and the error-enum conversions are outside this model.
