/** One pass over the newest session logs, `getLastLogData` (main.go:84-236). The process-wide
    state it updates, the offset store (main.go:43, 47-58) and the event counters
    (main.go:38-42), are the fields of an `Exporter`. */
module Tailer {
  import opened Text
  import opened Patterns
  import opened Folders
  import opened LineScanner
  import opened Aggregate

  /** What the file system holds at the path of one `console.log`. A readable file whose
      scanner stops with an error (a line over bufio's token limit, a read error) says after how
      many delivered lines in `failsAfter`. */
  datatype LogFile =
    | Readable(content: string, failsAfter: Option<nat>)
    | Unopenable

  /** What one pass observes: the listing of `logs` (`None` when `os.ReadDir` fails) and the
      log files by path; a path that is not a key does not exist. */
  datatype World = World(listing: Option<seq<DirEntry>>, files: map<string, LogFile>)

  datatype PassError = ListError | OpenError(path: string) | ScanError(path: string)

  datatype Result<T> = Ok(value: T) | Err(error: PassError)

  /** The state a pass reads and updates. */
  datatype State = State(offsets: map<string, nat>, counters: Counters)

  const LOGS_DIR := "logs"

  /** main.go:90: the five newest folders are read. */
  const FOLDER_LIMIT := 5

  /** `filepath.Join(logsDir, folder, "console.log")`. */
  function LogFilePath(folder: string): string {
    LOGS_DIR + "/" + folder + "/console.log"
  }

  /** The stored offset of `path`; a path never saved reads 0. */
  function OffsetOf(offsets: map<string, nat>, path: string): nat {
    if path in offsets then offsets[path] else 0
  }

  /** The offset store: a saved offset reads back, the other paths keep theirs, and a path
      never saved reads 0. */
  lemma OffsetOfSave(offsets: map<string, nat>, p: string, v: nat, q: string)
    ensures OffsetOf(offsets[p := v], q) == if q == p then v else OffsetOf(offsets, q)
    ensures OffsetOf(map[], q) == 0
  {
  }

  /** What a scan started at `offset` reads: nothing once the offset is at or past the end. */
  function Unread(content: string, offset: nat): string {
    if offset < |content| then content[offset..] else []
  }

  function Max(a: nat, b: nat): nat {
    if a < b then b else a
  }

  /** What happens to one selected folder, given the offsets stored so far. */
  datatype FolderOutcome =
    | Skipped
    | Failed(error: PassError, lines: seq<string>)
    | Scanned(lines: seq<string>, newOffset: nat)

  /** A missing `console.log` is skipped; a file that cannot be opened stops the pass before
      any line; otherwise the lines from the stored offset are delivered, all of them or those
      before a scan error. The position after a full scan is the end of the file, or the stored
      offset when that lies beyond it. */
  function ScanFolder(offsets: map<string, nat>, folder: string, w: World): FolderOutcome {
    var path := LogFilePath(folder);
    if path !in w.files then Skipped
    else
      match w.files[path]
      case Unopenable => Failed(OpenError(path), [])
      case Readable(content, failsAfter) =>
        var offset := OffsetOf(offsets, path);
        var lines := Lines(Unread(content, offset));
        match failsAfter
        case Some(n) => Failed(ScanError(path), if n < |lines| then lines[..n] else lines)
        case None => Scanned(lines, Max(offset, |content|))
  }

  /** The lines delivered folder by folder, the state after them, and the error that stopped
      the pass, if one did. */
  datatype Trace = Trace(batches: seq<seq<string>>, state: State, failure: Option<PassError>)

  /** One folder after the trace `t`: nothing happens once an error has stopped the pass.
      Counters take every delivered line, also those before a scan error; only a completed scan
      saves its offset. */
  function Step(t: Trace, folder: string, w: World): Trace {
    if t.failure.Some? then t
    else
      match ScanFolder(t.state.offsets, folder, w)
      case Skipped => t
      case Failed(err, lines) =>
        Trace(t.batches + [lines], t.state.(counters := Tally(t.state.counters, lines)), Some(err))
      case Scanned(lines, newOffset) =>
        Trace(t.batches + [lines],
              State(t.state.offsets[LogFilePath(folder) := newOffset], Tally(t.state.counters, lines)),
              None)
  }

  /** How a step that fails moves the trace on. */
  lemma StepFailed(t: Trace, folder: string, w: World, err: PassError, lines: seq<string>)
    requires t.failure.None? && ScanFolder(t.state.offsets, folder, w) == Failed(err, lines)
    ensures Step(t, folder, w).failure == Some(err)
    ensures Step(t, folder, w).state == t.state.(counters := Tally(t.state.counters, lines))
  {
  }

  /** How a completed scan moves the trace and the snapshot on. */
  lemma StepScanned(t: Trace, folder: string, w: World, lines: seq<string>, newOffset: nat)
    requires t.failure.None? && ScanFolder(t.state.offsets, folder, w) == Scanned(lines, newOffset)
    ensures Step(t, folder, w).failure.None?
    ensures Step(t, folder, w).state ==
      State(t.state.offsets[LogFilePath(folder) := newOffset], Tally(t.state.counters, lines))
    ensures EntryOf(Step(t, folder, w).batches) == FolderEntry(EntryOf(t.batches), lines)
  {
    assert (t.batches + [lines])[..|t.batches|] == t.batches;
  }

  /** The folders processed in order, up to the first error. */
  function TraceOf(st: State, folders: seq<string>, w: World): Trace {
    if folders == [] then Trace([], st, None)
    else Step(TraceOf(st, folders[..|folders| - 1], w), folders[|folders| - 1], w)
  }

  /** The snapshot of a pass: it starts empty (main.go:86) and each folder's lines update it. */
  function EntryOf(batches: seq<seq<string>>): LogEntry {
    if batches == [] then EMPTY_ENTRY
    else FolderEntry(EntryOf(batches[..|batches| - 1]), batches[|batches| - 1])
  }

  /** The result and the new state of a pass from state `st`. */
  function PassSpec(st: State, w: World): (Result<LogEntry>, State) {
    match w.listing
    case None => (Err(ListError), st)
    case Some(entries) =>
      var t := TraceOf(st, NewestLogFolders(entries, FOLDER_LIMIT), w);
      (if t.failure.Some? then Err(t.failure.value) else Ok(EntryOf(t.batches)), t.state)
  }

  /** Once a prefix of the folders has failed, the folders after it change nothing. */
  lemma {:induction false} TraceKeepsFailure(st: State, folders: seq<string>, w: World, j: nat)
    requires j <= |folders| && TraceOf(st, folders[..j], w).failure.Some?
    ensures TraceOf(st, folders, w) == TraceOf(st, folders[..j], w)
    decreases |folders| - j
  {
    if j < |folders| {
      var n := |folders| - 1;
      assert folders[..n][..j] == folders[..j];
      TraceKeepsFailure(st, folders[..n], w, j);
    } else {
      assert folders[..j] == folders;
    }
  }

  /** The exporter process: its stored offsets and its five counters. */
  class Exporter {
    var offsets: map<string, nat>
    var totalDisconnects: nat
    var disconnectErrors: nat
    var totalConnects: nat
    var connectionTimeouts: nat
    var totalReservations: nat

    function Events(): Counters
      reads this
    {
      Counters(totalDisconnects, disconnectErrors, totalConnects, connectionTimeouts, totalReservations)
    }

    function Current(): State
      reads this
    {
      State(offsets, Events())
    }

    /** Process start: no offsets, every counter zero. */
    constructor ()
      ensures Current() == State(map[], NO_EVENTS)
    {
      offsets := map[];
      totalDisconnects, disconnectErrors, totalConnects, connectionTimeouts, totalReservations := 0, 0, 0, 0, 0;
    }

    /** `getLastOffsetForFile` (main.go:47-53). */
    method GetLastOffset(path: string) returns (offset: nat)
      ensures offset == OffsetOf(offsets, path)
      ensures path !in offsets ==> offset == 0
    {
      if path in offsets {
        offset := offsets[path];
      } else {
        offset := 0;
      }
    }

    /** `saveOffsetForFile` (main.go:56-58): only the entry of `path` changes. */
    method SaveOffset(path: string, offset: nat)
      modifies this
      ensures offsets == old(offsets)[path := offset]
      ensures Events() == old(Events())
    {
      offsets := offsets[path := offset];
    }

    /** The counter updates of one scanned line (main.go:164-185). */
    method CountEvents(line: string)
      modifies this
      ensures Events() == CountLine(old(Events()), line)
      ensures unchanged(this`offsets)
    {
      ghost var next := CountLine(Events(), line);
      var reason := DisconnectReason(line);
      var timeout, connect, reservation := IsTimeout(line), IsConnect(line), IsReservation(line);
      if reason.Some? {
        totalDisconnects := totalDisconnects + 1;
        if reason.value == ERROR_REASON {
          disconnectErrors := disconnectErrors + 1;
        }
      }
      assert totalDisconnects == next.disconnects && disconnectErrors == next.disconnectErrors;
      if timeout {
        connectionTimeouts := connectionTimeouts + 1;
      }
      assert connectionTimeouts == next.timeouts;
      if connect {
        totalConnects := totalConnects + 1;
      }
      assert totalConnects == next.connects;
      if reservation {
        totalReservations := totalReservations + 1;
      }
      assert totalReservations == next.reservations;
    }

    /** The body of the scan loop (main.go:135-209) over the lines delivered from one file:
        the snapshot takes their gauges, the RTT and packet-loss captures are collected in
        order, and the counters count their events. */
    method ScanLines(lines: seq<string>, e0: LogEntry) returns (entry: LogEntry, rtts: seq<nat>, losses: seq<nat>)
      modifies this
      ensures entry == Gauges(e0, lines)
      ensures rtts == RttValues(lines) && losses == PktLossValues(lines)
      ensures Events() == Tally(old(Events()), lines)
      ensures offsets == old(offsets)
    {
      entry, rtts, losses := e0, [], [];
      for i := 0 to |lines|
        invariant entry == Gauges(e0, lines[..i])
        invariant rtts == RttValues(lines[..i]) && losses == PktLossValues(lines[..i])
        invariant Events() == Tally(old(Events()), lines[..i])
        invariant offsets == old(offsets)
      {
        var line := lines[i];
        assert lines[..i + 1][..i] == lines[..i];
        entry := ApplyGauges(entry, line);
        var sample := RttSample(line);
        if sample.Some? {
          losses := losses + [sample.value.0];
          rtts := rtts + [sample.value.1];
        }
        CountEvents(line);
      }
      assert lines[..|lines|] == lines;
    }

    /** One iteration of the folder loop of `getLastLogData` (main.go:93-229), after the
        folders of trace `t`: a missing `console.log` is passed over, an open or scan error stops
        the pass, and a completed scan folds the folder's lines and averages into the snapshot
        and saves the end of the file as the new offset. */
    method PassFolder(folder: string, w: World, lastLog: LogEntry, ghost t: Trace)
      returns (failure: Option<PassError>, entry: LogEntry)
      requires t.failure.None? && t.state == Current() && lastLog == EntryOf(t.batches)
      modifies this
      ensures Current() == Step(t, folder, w).state && failure == Step(t, folder, w).failure
      ensures failure.None? ==> entry == EntryOf(Step(t, folder, w).batches)
    {
      var path := LogFilePath(folder);
      if path !in w.files {
        assert ScanFolder(t.state.offsets, folder, w) == Skipped;
        return None, lastLog;
      }
      var offset := GetLastOffset(path);
      if w.files[path].Unopenable? {
        assert ScanFolder(t.state.offsets, folder, w) == Failed(OpenError(path), []);
        StepFailed(t, folder, w, OpenError(path), []);
        return Some(OpenError(path)), lastLog;
      }
      var content, failsAfter := w.files[path].content, w.files[path].failsAfter;
      var lines := Lines(Unread(content, offset));
      var delivered := if failsAfter.Some? && failsAfter.value < |lines| then failsAfter.value else |lines|;
      var rtts, losses;
      entry, rtts, losses := ScanLines(lines[..delivered], lastLog);
      if failsAfter.Some? {
        assert lines[..delivered] == (if failsAfter.value < |lines| then lines[..failsAfter.value] else lines);
        assert ScanFolder(t.state.offsets, folder, w) == Failed(ScanError(path), lines[..delivered]);
        StepFailed(t, folder, w, ScanError(path), lines[..delivered]);
        return Some(ScanError(path)), entry;
      }
      assert lines[..delivered] == lines;
      assert ScanFolder(t.state.offsets, folder, w) == Scanned(lines, Max(offset, |content|));
      StepScanned(t, folder, w, lines, Max(offset, |content|));
      if |rtts| > 0 {
        var avgRtt, avgPktLoss := Averages(rtts, losses);
        entry := entry.(avgRtt := avgRtt, avgPktLoss := avgPktLoss);
      }
      SaveOffset(path, Max(offset, |content|));
      failure := None;
    }

    /** `getLastLogData`: one pass over the newest session folders of `w`. */
    method Pass(w: World) returns (r: Result<LogEntry>)
      modifies this
      ensures (r, Current()) == PassSpec(old(Current()), w)
    {
      ghost var st0 := Current();
      if w.listing.None? {
        return Err(ListError);
      }
      var folders := LastLogFolders(w.listing.value, FOLDER_LIMIT);
      var lastLog := EMPTY_ENTRY;
      for k := 0 to |folders|
        invariant TraceOf(st0, folders[..k], w).failure.None?
        invariant TraceOf(st0, folders[..k], w).state == Current()
        invariant lastLog == EntryOf(TraceOf(st0, folders[..k], w).batches)
      {
        ghost var t := TraceOf(st0, folders[..k], w);
        assert folders[..k + 1][..k] == folders[..k];
        assert TraceOf(st0, folders[..k + 1], w) == Step(t, folders[k], w);
        var failure, entry := PassFolder(folders[k], w, lastLog, t);
        if failure.Some? {
          TraceKeepsFailure(st0, folders, w, k + 1);
          return Err(failure.value);
        }
        lastLog := entry;
      }
      assert folders[..|folders|] == folders;
      return Ok(lastLog);
    }
  }
}
