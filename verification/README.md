# memcached-lite metrics plugin, modelled in Dafny

A model of the core of `mackerel-plugin-memcached-lite`. This is a Mackerel agent plugin. Each run does the following:

- sends `stats` and `stats settings` to a memcached server;
- merges every `STAT <name> <digits>` line of both replies into one map of int64 counters;
- stamps the map with the current time under `_time_`;
- compares the map with the snapshot the previous run left in a temporary file;
- prints ten metric lines: three gauges, four per-second rates, the cache hit rate and two connection gauges;
- saves the new snapshot.

The first run finds no snapshot. It only saves one and returns status 1.

The project is organised by concern:

| file | module | models |
|---|---|---|
| `wrappers.dfy` | `Wrappers` | `Option` |
| `text.dfy` | `Text` | splitting a byte blob on a separator (`bytes.Split`) |
| `goint.dfy` | `GoInt` | Go's `int64` and its two's-complement `+`, `-`, `*` |
| `strconv.dfy` | `Strconv` | `strconv.ParseInt(s, 0, 64)` and the `%d` formatting of an int64 |
| `counters.dfy` | `Counters` | the stats map `map[string]int64`, where a missing key reads as 0 |
| `protocol.dfy` | `Protocol` | `slurp`, which reads a reply until EOF or a short read |
| `stats_parser.dfy` | `StatsParser` | the `^STAT ([a-z_]+) (\d+)` line grammar as a predicate, plus the merge |
| `snapshot.dfy` | `Snapshot` | the snapshot file format, the tab-separated reader, the round trip and the file name |
| `stats_store.dfy` | `StatsStore` | the map the plugin fills in place, with `fetchStats`, `loadStats` and `writeStats` |
| `sequences.dfy` | `Sequences` | how a Go map's free iteration order turns into a permutation |
| `rates.dfy` | `Rates` | counter gaps, the hit rate, the period and the ten-line report |
| `plugin.dfy` | `Plugin` | one run of `memcachedStats`, with the world around it as an input |

`fetchStats` and `loadStats` update the caller's map in place and `writeStats` reads it; all three are methods of class `Stats`, and `memcachedStats` is a method. Each method is proved against a specification function:

- `FetchInto` and `MergeLines` for fetching;
- `LoadInto` for loading;
- `IsDumpOf` for writing;
- `IsReportOf` and `IsRunOf` for the report and the run.

The properties live in lemmas about those functions.

Go does not fix the order in which it visits a map. That affects the lines `writeStats` writes and the order of the four rate lines. The methods choose the next key with `:|`. The specifications accept every order:

- a snapshot is `Dump(ks, m)` for some enumeration `ks` of the keys;
- the rate lines are a permutation of the lines in the order the map literal lists them.

A value printed with `%f` is kept as the pair of int64 operands that the source converts to `float64` and divides. `RealOf` gives its exact quotient. The zero hit rate, which the source prints as `float64(0)` (`mackerel-plugin-memcached-lite.go:209`), is written `Ratio(0, 1)`.

Behaviour of the code that the model keeps exactly:

- **Bootstrap status.** A bootstrap run returns status 1 (`mackerel-plugin-memcached-lite.go:163`), and `main` exits with it.
- **Number base.** Values are parsed with `strconv.ParseInt(s, 0, 64)` (`mackerel-plugin-memcached-lite.go:62`), so a leading `0` means octal: `"012"` is 10 and `"08"` is an error.
- **Snapshot file name.** The name built at `mackerel-plugin-memcached-lite.go:153` joins host and port with `-`, so it is not injective: `SnapshotNameCollision` exhibits two targets that share a file.
- **Failed final save.** A normal run whose final save fails (`mackerel-plugin-memcached-lite.go:218-222`) still returns status 0, because `st` keeps its zero value; only the bootstrap path (`mackerel-plugin-memcached-lite.go:163`) sets it to 1.

## Model

| member | source | states |
|---|---|---|
| Text.SplitJoin | mackerel-plugin-memcached-lite.go:60 | splitting on a separator yields pieces free of it, and joining them with it gives back the input |
| GoInt.Wrap64 | mackerel-plugin-memcached-lite.go:175 | the result is the one int64 congruent to the exact result modulo 2^64, and it equals that result whenever it fits |
| Strconv.ParseDigits | mackerel-plugin-memcached-lite.go:62-65 | a matched digit run without a leading 0 is read in decimal; with a leading 0 it is read in octal; a leading 0 followed by an 8 or 9 is an error; so is a value outside int64 |
| Strconv.OctalExamples | mackerel-plugin-memcached-lite.go:62 | "012" reads as 10, "08" fails, "0" reads as 0, "123" reads as 123 |
| Strconv.ParseFormatInt | mackerel-plugin-memcached-lite.go:109 | every int64 written with %d reads back as itself with base 0 |
| Protocol.Slurp | mackerel-plugin-memcached-lite.go:32-52 | the read loop returns exactly what the stop rule prescribes for the sequence of read results |
| Protocol.SlurpFails | mackerel-plugin-memcached-lite.go:44-49 | slurp fails exactly when some read returns a full 32 KiB chunk with an error other than EOF, and every read before it was a full chunk without error |
| Protocol.SlurpStopsAt | mackerel-plugin-memcached-lite.go:44-46 | the first EOF or short read ends the reply successfully, even if that read also reported an error; later reads are never consulted |
| StatsParser.MatchStatSound | mackerel-plugin-memcached-lite.go:61 | a line that matches yields a name and digits such that the line starts with "STAT ", the name, a space and the digits, with the name in [a-z_]+, the digits in [0-9]+ and the digit run maximal |
| StatsParser.MatchStatComplete | mackerel-plugin-memcached-lite.go:61 | every line that has that shape matches, with exactly that name and those digits |
| StatsParser.VersionLineExample | mackerel-plugin-memcached-lite.go:61 | "STAT version 1.6.9" yields version = "1", because the match is prefix-only |
| StatsParser.CarriageReturnExample | mackerel-plugin-memcached-lite.go:61 | a trailing carriage return is ignored |
| StatsParser.WordValueExample | mackerel-plugin-memcached-lite.go:61 | "STAT evictions on" does not match |
| StatsParser.EndLineExample | mackerel-plugin-memcached-lite.go:61 | "END" and the empty line do not match |
| StatsParser.NonMatchingLine | mackerel-plugin-memcached-lite.go:60-61 | a line that does not match leaves the merge exactly as if it were absent |
| StatsParser.MergeLinesAppend | mackerel-plugin-memcached-lite.go:60-69 | merging a+b is merging a, then merging b into the result; a failure in a stops there and keeps what a stored so far |
| StatsParser.MergeStep | mackerel-plugin-memcached-lite.go:61-67 | a matching line whose digits parse stores the value under its name and goes on with the rest |
| StatsParser.MergeKeepsOthers | mackerel-plugin-memcached-lite.go:67 | a key that no line names keeps its prior presence and value |
| StatsParser.MergeLastWins | mackerel-plugin-memcached-lite.go:67 | after a successful merge, a key holds the value of the last line that names it |
| StatsParser.MergeGrows | mackerel-plugin-memcached-lite.go:67 | no key is ever removed; every added key is a stat name; non-negative values stay non-negative |
| StatsParser.MergeOk | mackerel-plugin-memcached-lite.go:62-65 | a merge succeeds exactly when the digits of every matching line parse |
| StatsParser.ParseExample | mackerel-plugin-memcached-lite.go:54-71 | a sample reply yields exactly foo = 123 and bar = 0 |
| StatsStore.Stats.constructor | mackerel-plugin-memcached-lite.go:128 | a new stats map is empty |
| StatsStore.Stats.FetchStats | mackerel-plugin-memcached-lite.go:54-71 | fetchStats leaves the map and its result exactly as FetchInto prescribes for the old map and the reads: slurp, split on line feeds, then merge |
| StatsStore.Stats.LoadStats | mackerel-plugin-memcached-lite.go:91-116 | loadStats leaves the map and its result exactly as LoadInto prescribes for the old map and the file content |
| StatsStore.Stats.WriteStats | mackerel-plugin-memcached-lite.go:78-89 | the content written is one line "key\tvalue" per entry, with each key exactly once, in some order |
| Snapshot.DumpAppend | mackerel-plugin-memcached-lite.go:84-86 | writing one more entry appends its record and a line feed |
| Snapshot.RecordFields | mackerel-plugin-memcached-lite.go:85 | a record of a safe key is one line of exactly two tab-separated fields, and the second reads back as the value |
| Snapshot.LoadRecord | mackerel-plugin-memcached-lite.go:102-113 | reading a record stores its value under its key and fixes the field count at 2 |
| Snapshot.LoadDump | mackerel-plugin-memcached-lite.go:78-116 | loading, into an empty map, what writeStats writes for any enumeration of a map with safe keys gives back exactly that map |
| Snapshot.LoadWritten | mackerel-plugin-memcached-lite.go:78-116 | the same holds for every file writeStats can produce |
| Snapshot.SnapshotNameShared | mackerel-plugin-memcached-lite.go:153 | two targets share a file name exactly when host + "-" + port agree |
| Snapshot.SnapshotNameCollision | mackerel-plugin-memcached-lite.go:153 | host "a-b" with port "1" and host "a" with port "b-1" share a file name |
| Rates.Gap | mackerel-plugin-memcached-lite.go:190-193 | without overflow, the gap is cur - prev when cur >= prev and cur otherwise; it is never negative when cur >= 0; it never exceeds cur when prev >= 0 and cur - prev does not underflow |
| Rates.GapMissingKey | mackerel-plugin-memcached-lite.go:199-206 | a counter missing from the previous snapshot counts in full |
| Rates.GapWraps | mackerel-plugin-memcached-lite.go:190-193 | the difference wraps as Go's int64 does |
| Rates.Period | mackerel-plugin-memcached-lite.go:175 | the period is the current _time_ minus the previous _time_ whenever that difference fits in an int64 |
| Rates.HitRate | mackerel-plugin-memcached-lite.go:208-212 | the hit rate is a quotient with a positive divisor; its dividend is 0 when hits + misses is not positive |
| Rates.HitRateBounds | mackerel-plugin-memcached-lite.go:208-212 | for non-negative hits and misses without overflow, the hit rate is 100 * hits / (hits + misses), or 0 when both are 0, and lies in [0, 100] |
| Rates.HitRateExample | mackerel-plugin-memcached-lite.go:211 | 3 hits and 1 miss give 75 |
| Rates.RateExample | mackerel-plugin-memcached-lite.go:188-195 | cmd_get going from 100 to 160 over 60 seconds is reported as req-per-sec.get = 1.0 |
| Rates.RateTableOrder | mackerel-plugin-memcached-lite.go:187 | the rate map holds exactly four distinct entries |
| Rates.EmitRates | mackerel-plugin-memcached-lite.go:187-196 | whatever order the rate map is visited in, the lines printed are a permutation of the four rate lines |
| Rates.Assembled | mackerel-plugin-memcached-lite.go:178-216 | the three gauges, any ordering of the rate lines, then the hit rate and the two connection gauges form a report |
| Rates.ReportRates | mackerel-plugin-memcached-lite.go:188-196 | the middle four lines of a report are rate lines of the rate map |
| Rates.ReportTimes | mackerel-plugin-memcached-lite.go:178-216 | a report has exactly ten lines, all stamped with now |
| Rates.ReportOrderNames | mackerel-plugin-memcached-lite.go:178-216 | the report's lines, in order, carry the ten graph metric names |
| Rates.MetricNamesDistinct | mackerel-plugin-memcached-lite.go:178-216 | the ten metric names the report prints are pairwise different |
| Rates.ReportNames | mackerel-plugin-memcached-lite.go:178-216 | every report carries the ten metric names as a multiset, so, with MetricNamesDistinct, each of them exactly once |
| Plugin.Current | mackerel-plugin-memcached-lite.go:154-155 | the saved map is the fetched stats with _time_ = now, overriding a fetched _time_; no other key changes |
| Plugin.MemcachedStats | mackerel-plugin-memcached-lite.go:118-226 | every run has one of the outcomes IsRunOf allows: a failure, a bootstrap, or a normal run |
| Plugin.Continue | mackerel-plugin-memcached-lite.go:157-225 | after the fetches: no snapshot → save and return 1; unreadable snapshot → fail; otherwise print a report against it and save |
| Plugin.CollectedNames | mackerel-plugin-memcached-lite.go:128-149 | every key that two fetches into a fresh map produce is a stat name |
| Plugin.CurrentKeysSafe | mackerel-plugin-memcached-lite.go:155 | every key of the saved map survives the tab-separated reader |
| Plugin.StatusRule | mackerel-plugin-memcached-lite.go:118-226 | the status is 1 exactly when the stats were fetched, no snapshot existed and a first one was saved; it is 0 otherwise, including every failure |
| Plugin.PrintedLines | mackerel-plugin-memcached-lite.go:178-216 | a run prints nothing, or exactly ten lines stamped with now; it prints them exactly when the stats were fetched and the previous snapshot was read |
| Plugin.SavedSnapshotLoads | mackerel-plugin-memcached-lite.go:154-158 | whatever a run saves reads back as exactly the fetched stats with _time_ = now |
| Plugin.PeriodOfRuns | mackerel-plugin-memcached-lite.go:175 | between two stamped maps, the period is the int64 difference of the two runs' times |
| Plugin.NextRun | mackerel-plugin-memcached-lite.go:168-175 | a run that finds the snapshot the previous run saved returns 0 and reports against exactly that run's stamped map |

## Left out

- Sockets and deadlines (`net.Dial`, `SetReadDeadline`, `write`, `conn.Read`): the outcome of each is an input. Dialling either succeeds or fails, each command is sent or not, and each reply is a list of read results.
- Connection state: the reads answering `stats settings` are given separately from those answering `stats`. Bytes of one reply that arrive in the other's reads are not modelled.
- `os.Stat`, `os.Create`, `os.Open`, `os.TempDir`, `user.Current` and `filepath.Join` are inputs:
  - the snapshot may be absent, present but unreadable, or present with some content;
  - whether it can be created is a flag.
  Errors from `file.WriteString`, which the source ignores, are not modelled. A nil user from `user.Current`, which would panic, is not modelled.
- The directory part of the snapshot path is not modelled. `SnapshotName` models only the base name, not `filepath.Join`'s cleaning.
- Floating point:
  - Rates.RealOf: gives the exact quotient, so float64 rounding and `%f`'s six decimals are not modelled;
  - a period of 0 gives +Inf in Go (NaN when the gap is 0), and a negative period gives a negative rate; the model keeps (gap, period) as a pair in both cases and no lemma evaluates it (`RateExample` fixes the period at 60; only `RealOf` requires a non-zero divisor).
- Rates.HitRateBounds: proved only for non-negative hits and misses where hits*100 and hits+misses fit in an int64. The model itself wraps these products as Go does.
- Rates.Gap: its contract describes the result only where cur - prev fits in an int64. `GapWraps` shows one wrapped case.
- Snapshot.LoadWritten: the round trip holds for keys free of tab and line feed that do not start with a double quote. The reader does not model the csv package's quoted fields, lazy quotes or its `\r\n` handling beyond dropping one trailing carriage return.
- A one-field record: the source panics on the index `record[1]` (:109); the model treats it as a failed load.
- The regular-expression engine is not modelled. The grammar `^STAT ([a-z_]+) (\d+)` is a predicate, and `MatchStat` is proved to decide it.
- `memcachedDef` (the static graph definition), command-line flags, the environment-variable switch and `main` are not part of this model. Neither are the messages written to stderr, including the `[debug]` period line.
- Go's map iteration order is free. The model allows every order: the methods choose the next key nondeterministically. It does not model Go's randomisation.
