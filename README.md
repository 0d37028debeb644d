# ArmaReforgerMetrics log tailer, modelled in Dafny

The exporter serves Prometheus metrics about an Arma Reforger game server. It reads them from
the server's session logs. Each scrape of `/metrics` runs one pass of `getLastLogData`:

- list the `logs` directory and keep the last five `logs_*` folders;
- in each folder, seek `console.log` to the offset stored for it and scan the new lines;
- match every line against eleven fixed patterns, overwriting the gauges of a fresh snapshot
  and raising five process-wide event counters;
- average the round-trip-time and packet-loss samples of the folder;
- store the position reached as the file's new offset.

The handler then writes the 17 gauges and 5 counters, or answers HTTP 500 when the pass failed.

This project models that core, all of it from `main.go`:

- **Text** (`text.dfy`): character classes, literal search, `strconv.Atoi` on a digit run, and
  `strconv.ParseFloat` on a `[0-9.]+` capture (as an exact decimal).
- **Patterns** (`patterns.dfy`): the seven capture patterns as sequences of literals, `\s` and
  greedy runs, with leftmost-match semantics; the four event patterns written out by hand.
  Rendering a pattern with given captures is the inverse of matching it.
- **Folders** (`folders.dfy`): `getLastLogFolders` over a directory listing given as a sequence.
- **LineScanner** (`scanner.dfy`): `bufio.Scanner` with `ScanLines`. A newline ends a line, one
  trailing `\r` is dropped, and a last unterminated line is delivered too.
- **Aggregate** (`aggregate.dfy`): the snapshot, the counters, the per-line update, and the
  averages.
- **Tailer** (`tailer.dfy`): a pass as a function of the stored state and the file system
  (`PassSpec`). The process state is the class `Exporter`: the offset map and the five counters.
  Its methods `Pass`, `PassFolder`, `ScanLines`, `CountEvents`, `GetLastOffset` and `SaveOffset`
  mirror the Go code and are proved against `PassSpec`.
- **PassProperties** (`pass_properties.dfy`): what a pass does to offsets, counters and the
  snapshot, for every world and every starting state.
- **Exposition** (`exposition.dfy`): the handler's 22 samples as (name, kind, value) and the
  round trip from a page back to the snapshot and counters.

The file system is the `World` a pass observes: the result of listing `logs` and a map from path
to file. A file is either readable, with its content, or cannot be opened. A readable file may
also carry the number of lines after which its scanner stops with an error. A path missing from
the map does not exist.

## Where the code and its description differ

The model follows the code in each case.

- **Fresh snapshot.** The snapshot is created anew by every pass (main.go:86). A gauge no line
  set in this pass reads 0, not its previous value. `QuietSecondPass` proves the consequence: a
  second pass over an unchanged world reports every gauge as 0, not the values of the pass before.
- **Per-folder averages.** The sample lists are created per folder (main.go:132-133) and each
  folder with samples overwrites both averages (main.go:217-228). The averages therefore belong
  to the last folder that had RTT lines, not to all lines of the pass (`EntryAverages`).
- **Failed parses write 0.** A capture that `ParseFloat` rejects (`FPS: ..`, `FPS: 1.2.3`) still
  overwrites FPS, with 0 (main.go:141; `FpsUnparsable`). It does not leave the field alone.
- **Offset past the end.** When the stored offset is beyond the end of the file, nothing is read
  and the offset is kept. The position after the scan is `Max(offset, length)`.

## Model

| member | source | states |
|---|---|---|
| Text.ParseNatToString | main.go:146 | Atoi of the decimal rendering of `n` is `n` |
| Text.ParseNatLeadingZero | main.go:146 | a leading zero does not change the value Atoi gives a digit run |
| Text.ParseDecimal | main.go:141 | ParseFloat on a `[0-9.]+` capture succeeds exactly when it has at most one dot and at least one digit; a pure digit run parses to its integer value |
| Text.ParseDecimalWholeAndFraction | main.go:141 | `w.f` with at least one digit on either side of the dot (also `.5` and `5.`) parses to `w` plus the value of `f` divided by ten to the power of its length |
| Text.IndexFrom | main.go:178 | the result is an occurrence of the literal, with none before it from `from`, and None only when there is no occurrence |
| Text.ContainsIff | main.go:178 | an unanchored literal match holds exactly when the literal occurs somewhere in the line |
| Patterns.LeftmostFrom | main.go:140 | the index found is the leftmost one from `i` at which the pattern matches; None means it matches nowhere |
| Patterns.FindSubmatch | main.go:140 | a match has one capture per group, each non-empty and inside its character class |
| Patterns.PatternsDelimited | main.go:119-125 | every greedy run of the seven capture patterns is followed by a character outside its class, or ends the pattern |
| Patterns.FindSubmatchEmbedded | main.go:119-125 | on any line holding the text a pattern renders with valid captures, preceded by text where the pattern does not match and followed by text that does not extend a final run, the leftmost match returns exactly those captures |
| Patterns.FpsRendered | main.go:140-142 | a line holding `FPS: n` after any text without an earlier match sets FPS to `n` |
| Patterns.FpsDecimalRendered | main.go:140-142 | a line holding `FPS: w.f` (also `FPS: .5`) sets FPS to its exact decimal value |
| Patterns.FpsUnparsable | main.go:140-142 | a capture ParseFloat rejects, anywhere in the line, still overwrites FPS, with 0 |
| Patterns.PlayersRendered | main.go:145-147 | a line holding `Player: n` after any text without an earlier match sets Players to `n` |
| Patterns.AiRendered | main.go:150-152 | a line holding `AI: n` after any text without an earlier match sets AI to `n` |
| Patterns.RttSampleRendered | main.go:155-161 | a line holding `PktLoss: l/100, Rtt: r` yields the sample (loss `l`, rtt `r`), in that order |
| Patterns.VehiclesRendered | main.go:188-191 | a line holding `Veh: a (b)`, whatever follows it, yields VehCount `a` and VehExtraCount `b` |
| Patterns.ProjectilesRendered | main.go:194-199 | a line holding the projectile text yields shells, missiles, grenades and total in order |
| Patterns.StreamingRendered | main.go:202-209 | a line holding the streaming text yields its six numbers in order |
| Patterns.DisconnectReasonSpec | main.go:127 | the disconnect pattern matches exactly when a `disconnected` is followed later by `reason=` and a digit; the reason captured is the one after the last `reason=` of the line that is followed by a digit (`disconnected reason=6 reason=x` gives 6) |
| Patterns.TimeoutSpec | main.go:128 | the timeout pattern matches exactly when a `connection timeout` is followed later by `identity=0x` and an upper-case hex digit |
| Folders.LastLogFolders | main.go:61-81 | the filter-and-cut loop returns the last `limit` log folders of the listing |
| Folders.LogFoldersExact | main.go:70-74 | every name kept is a directory entry starting with `logs_`, and every such entry is kept |
| Folders.LogFoldersAppend | main.go:70-74 | filtering a listing in two parts gives the folders of both parts, in order |
| Folders.LogFoldersAscending | main.go:65-74 | a listing sorted by name, as `os.ReadDir` returns it, yields folders sorted by name |
| Folders.NewestLogFoldersSpec | main.go:77-79 | the selection is the suffix of length min(count, limit) of the log folders; over a sorted listing no folder left out sorts after a selected one |
| Folders.SevenSessions | main.go:61-81 | of seven sessions, a stray file and another folder, the last five sessions are read |
| LineScanner.DropCR | main.go:136-137 | a line ending in a carriage return loses exactly that one; any other line is kept as it is |
| LineScanner.NewlineIndexSpec | main.go:136 | the split point found is the first newline, and none is found only when there is no newline |
| LineScanner.LinesAreSingle | main.go:136-137 | no delivered line holds a newline, and there are at most as many lines as characters |
| LineScanner.LinesJoinLines | main.go:136-137 | scanning text written as lines ended by `\n` or `\r\n` gives back exactly those lines |
| LineScanner.LinesAppend | main.go:115-137 | when a pass stops on a line boundary, scanning the rest in a later pass gives the same lines as one scan of everything |
| LineScanner.PartialLineSplit | main.go:136 | for any line `a + c` whose start `a` is at end of file when a pass scans, the pass delivers `a` and the next pass `c` as separate lines, where one scan would deliver `a + c` |
| Aggregate.Averages | main.go:217-228 | the summing loop yields the exact mean of the RTT samples and of the packet-loss samples |
| Aggregate.PktLossValues | main.go:155-161 | there are exactly as many packet-loss samples as RTT samples |
| Aggregate.CountLineSpec | main.go:164-185 | one line raises each counter by at most one: disconnects exactly when the disconnect pattern matches, errors exactly when its reason is 6, the other three exactly when their pattern matches; a line matching none changes nothing |
| Aggregate.TallyAppend | main.go:136-185 | counting two stretches of lines in turn is counting them together |
| Aggregate.TallyMonotone | main.go:164-185 | counters never decrease, and error disconnects stay among the disconnects |
| Aggregate.LastReadingSpec | main.go:140-209 | the last reading is the value of the last line that had one, with no reading after it, or the default when no line had one |
| Aggregate.GaugesLastWrite | main.go:136-209 | after a run of lines every gauge holds the capture of the last line that matched its pattern, or its starting value when none did |
| Aggregate.GaugesAppend | main.go:136-209 | gauges over two stretches of lines in turn are the gauges over both together |
| Aggregate.MeanBounds | main.go:226-227 | the mean lies between any lower and upper bound of its samples |
| Aggregate.MeanConstant | main.go:226-227 | samples that are all `v` average to `v` |
| Tailer.OffsetOfSave | main.go:47-58 | a saved offset reads back, other paths keep theirs, and a path never saved reads 0 |
| Tailer.TraceKeepsFailure | main.go:212-214 | once a folder has failed, the folders after it change nothing |
| Tailer.Exporter.constructor | main.go:37-44 | at process start there are no offsets and every counter is 0 |
| Tailer.Exporter.GetLastOffset | main.go:47-53 | the stored offset of the path, or 0 when it has none |
| Tailer.Exporter.SaveOffset | main.go:56-58 | only the entry of the path changes; the counters do not |
| Tailer.Exporter.CountEvents | main.go:164-185 | the counters move exactly as `CountLine` says; the offsets do not change |
| Tailer.Exporter.ScanLines | main.go:132-210 | the scan loop leaves the snapshot at the gauges of the lines, collects their RTT and packet-loss samples in order, and counts them |
| Tailer.Exporter.PassFolder | main.go:95-233 | one folder moves the state and the snapshot exactly as one `Step` of `PassSpec` |
| Tailer.Exporter.Pass | main.go:84-236 | the result and the new offsets and counters are those `PassSpec` gives for the old state |
| PassProperties.TraceCounters | main.go:136-185 | the counters take every delivered line of the pass, including those before an error |
| PassProperties.PassCounters | main.go:164-185 | a pass never lowers a counter, keeps errors among the disconnects, and counts exactly the lines it delivered |
| PassProperties.TraceOffset | main.go:230-232 | an offset either stays or moves to `Max(old offset, file length)` of a readable file; only a readable file gains an entry |
| PassProperties.TraceOtherPath | main.go:230-232 | a path no selected folder maps to keeps its entry |
| PassProperties.TraceCatchesUp | main.go:230-232 | after the folders complete, each existing log file is readable, read to its end, and stored at `Max(old offset, length)` |
| PassProperties.GrownFileReadsNewText | main.go:115-137 | after a scan to the end of a file, the next scan of the file grown by `more` reads exactly `more`; when the scan ended on a line boundary, the two scans deliver the lines of one scan |
| PassProperties.ScanAfterGrowth | main.go:104-232 | a folder whose file grew since its offset was saved delivers the lines of the new text and moves the offset to the new end |
| PassProperties.PassOffset | main.go:230-232 | a pass never moves an offset backwards, moves it only to the end of a readable file, and gives no new entry to a missing or unopenable file |
| PassProperties.PassCatchesUp | main.go:230-232 | after a successful pass every selected `console.log` that exists is stored at its end |
| PassProperties.TraceFailure | main.go:212-214 | a failed run of folders stopped at one folder, with that folder's error and the offsets saved before it |
| PassProperties.PassFailure | main.go:212-214 | a failed pass returns the error of the folder it stopped at and keeps exactly the offsets saved before that folder |
| PassProperties.QuietTrace | main.go:115-136 | folders whose files were all read to the end deliver no line and change no state |
| PassProperties.EntryOfQuiet | main.go:86 | folders that delivered no line leave the snapshot empty |
| PassProperties.QuietSecondPass | main.go:84-236 | a second pass over an unchanged world succeeds with the empty snapshot and leaves offsets and counters unchanged |
| PassProperties.GaugesWithAverages | main.go:140-228 | the gauge updates of lines and the averages of a folder do not interfere |
| PassProperties.EntryGauges | main.go:136-209 | apart from the averages, the snapshot is the gauges of all lines of the pass, read in order from the empty entry |
| PassProperties.EntryAverages | main.go:217-228 | the averages are those of the last folder with RTT samples, or 0 when no folder had any |
| PassProperties.PassEntry | main.go:84-236 | a successful pass reports the gauges of the last line that set each one, 0 for the others, and the averages of the last folder with samples |
| Exposition.Samples | main.go:247-336 | the page has one sample per metric, 22 in all |
| Exposition.ScrapeSamples | main.go:247-336 | the page lists the 17 gauges before the 5 counters, and reading it back gives exactly the snapshot and counters it was written from |
| Exposition.ServeMetrics | main.go:239-244 | one pass, then HTTP 500 on error or the page with the counters after the pass |

## Left out

- The HTTP server, handler registration and `main` (main.go:339-345): network I/O.
- The exposition text: the HELP and TYPE lines and the `%f` and `%d` formatting. A page is
  modelled as its ordered samples.
- `os.ReadDir`, `os.Stat`, `os.Open`, `Seek` and `Close`. They are replaced by the `World` a pass
  observes, which is read-only during the pass. `defer file.Close()` is resource handling.
- Errors of `os.Stat` other than "does not exist". They are left to `os.Open`, which the model
  lets fail through `Unopenable`.
- The reasons a scan stops with an error (bufio's 64 KiB token limit, read errors). They are an
  input, `failsAfter`, the number of lines delivered first.
- Files as bytes: content is a `string`, one element per byte, and offsets index it.
  `filepath.Join` cleaning is not modelled; paths are `logs/<folder>/console.log`.
- Text.ParseDecimal: models ParseFloat as an exact decimal, because float64 rounding is not
  modelled. The exponent and special forms cannot occur in a `[0-9.]+` capture.
- Aggregate.Averages: the sums and means are exact reals, because float64 rounding of the mean
  is not modelled.
- Patterns.PlayersRendered: Atoi is modelled on unbounded integers. On a digit run beyond the
  64-bit range Go's Atoi returns the largest int with a range error, which main.go:146 discards,
  so Go writes 9223372036854775807 where the model writes the unbounded value. The same holds for
  every Atoi capture.
- Concurrent scrapes racing on the offsets and counters: the model runs one pass at a time.
- Counter values are exact `nat`s; Go's `int` would wrap only after 2^63 events.
