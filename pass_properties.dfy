/** What one pass of `getLastLogData` (main.go:84-236) does to the stored offsets, the event
    counters and the snapshot, stated over every world and every starting state. */
module PassProperties {
  import opened Text
  import opened Folders
  import opened LineScanner
  import opened Aggregate
  import opened Tailer

  /** The lines of the batches, one batch after the other. */
  function Flatten(bs: seq<seq<string>>): seq<string> {
    if bs == [] then [] else Flatten(bs[..|bs| - 1]) + bs[|bs| - 1]
  }

  lemma FlattenSnoc(bs: seq<seq<string>>, lines: seq<string>)
    ensures Flatten(bs + [lines]) == Flatten(bs) + lines
  {
    assert (bs + [lines])[..|bs|] == bs;
  }

  /** The folders selected by a pass that could list the logs directory. */
  function Selected(w: World): seq<string>
    requires w.listing.Some?
  {
    NewestLogFolders(w.listing.value, FOLDER_LIMIT)
  }

  // Counters.

  /** The counters take every delivered line of the pass, those before an error included. */
  lemma {:induction false} TraceCounters(st: State, folders: seq<string>, w: World)
    ensures var t := TraceOf(st, folders, w);
      t.state.counters == Tally(st.counters, Flatten(t.batches))
  {
    if folders != [] {
      var last := folders[|folders| - 1];
      var t := TraceOf(st, folders[..|folders| - 1], w);
      TraceCounters(st, folders[..|folders| - 1], w);
      if t.failure.None? {
        match ScanFolder(t.state.offsets, last, w)
        case Skipped =>
        case Failed(_, lines) =>
          FlattenSnoc(t.batches, lines);
          TallyAppend(st.counters, Flatten(t.batches), lines);
        case Scanned(lines, _) =>
          FlattenSnoc(t.batches, lines);
          TallyAppend(st.counters, Flatten(t.batches), lines);
      }
    }
  }

  /** A pass never lowers a counter, keeps error disconnects among the disconnects, and counts
      exactly the lines it delivered. */
  lemma PassCounters(st: State, w: World)
    ensures NoneDecreased(st.counters, PassSpec(st, w).1.counters)
    ensures Consistent(st.counters) ==> Consistent(PassSpec(st, w).1.counters)
    ensures w.listing.Some? ==>
      PassSpec(st, w).1.counters == Tally(st.counters, Flatten(TraceOf(st, Selected(w), w).batches))
  {
    if w.listing.Some? {
      var t := TraceOf(st, Selected(w), w);
      TraceCounters(st, Selected(w), w);
      TallyMonotone(st.counters, Flatten(t.batches));
    }
  }

  // Offsets.

  /** The offset of any path either stays as it was or moves to the end of its readable file,
      never backwards; only a readable file gains an entry. */
  lemma {:induction false} TraceOffset(st: State, folders: seq<string>, w: World, p: string)
    ensures var o, o' := OffsetOf(st.offsets, p), OffsetOf(TraceOf(st, folders, w).state.offsets, p);
      o' == o || (p in w.files && w.files[p].Readable? && o' == Max(o, |w.files[p].content|))
    ensures p in TraceOf(st, folders, w).state.offsets ==>
      p in st.offsets || (p in w.files && w.files[p].Readable?)
  {
    if folders != [] {
      var last := folders[|folders| - 1];
      var t := TraceOf(st, folders[..|folders| - 1], w);
      TraceOffset(st, folders[..|folders| - 1], w, p);
    }
  }

  /** A path that is not the log file of any folder of the pass keeps its entry. */
  lemma {:induction false} TraceOtherPath(st: State, folders: seq<string>, w: World, p: string)
    requires forall k | 0 <= k < |folders| :: LogFilePath(folders[k]) != p
    ensures var s := TraceOf(st, folders, w).state.offsets;
      (p in s <==> p in st.offsets) && OffsetOf(s, p) == OffsetOf(st.offsets, p)
  {
    if folders != [] {
      var init := folders[..|folders| - 1];
      assert forall k | 0 <= k < |init| :: init[k] == folders[k];
      TraceOtherPath(st, init, w, p);
    }
  }

  /** A trace without error has no error after its last folder but one either. */
  lemma {:induction false} TraceSuccessPrefix(st: State, folders: seq<string>, w: World)
    requires folders != [] && TraceOf(st, folders, w).failure.None?
    ensures TraceOf(st, folders[..|folders| - 1], w).failure.None?
  {
  }

  /** After a pass without error, the log file of every selected folder exists only as a
      readable file read to its end, and its offset is the end of the file (or the old offset
      when that lay beyond the end). */
  lemma {:induction false} TraceCatchesUp(st: State, folders: seq<string>, w: World)
    requires TraceOf(st, folders, w).failure.None?
    ensures var s := TraceOf(st, folders, w).state.offsets;
      forall k | 0 <= k < |folders| && LogFilePath(folders[k]) in w.files ::
        var p := LogFilePath(folders[k]);
        w.files[p].Readable? && w.files[p].failsAfter.None? &&
        p in s && s[p] == Max(OffsetOf(st.offsets, p), |w.files[p].content|)
  {
    if folders != [] {
      var n := |folders| - 1;
      var init, last := folders[..n], folders[n];
      TraceSuccessPrefix(st, folders, w);
      TraceCatchesUp(st, init, w);
      var t := TraceOf(st, init, w);
      var s := TraceOf(st, folders, w).state.offsets;
      var path := LogFilePath(last);
      if path in w.files {
        TraceOffset(st, init, w, path);
      }
      forall k | 0 <= k < |folders| && LogFilePath(folders[k]) in w.files
        ensures var p := LogFilePath(folders[k]);
          w.files[p].Readable? && w.files[p].failsAfter.None? &&
          p in s && s[p] == Max(OffsetOf(st.offsets, p), |w.files[p].content|)
      {
        if k < n {
          assert folders[k] == init[k];
        }
      }
    }
  }

  /** Incremental reading: after a scan that reached the end of `content` from `o`, a file
      that grew by `more` is read as exactly `more`; and when the first scan ended on a line
      boundary, the two scans together deliver the lines one scan from `o` would have. */
  lemma GrownFileReadsNewText(content: string, more: string, o: nat)
    requires o <= |content|
    ensures Unread(content + more, Max(o, |content|)) == more
    ensures o == |content| || content[|content| - 1] == '\n' ==>
      Lines(Unread(content, o)) + Lines(more) == Lines(Unread(content + more, o))
  {
    var rest := Unread(content, o);
    assert rest + more == Unread(content + more, o) by {
      if o < |content| {
        assert (content + more)[o..] == content[o..] + more;
      }
    }
    if o == |content| || content[|content| - 1] == '\n' {
      LinesAppend(rest, more);
    }
  }

  /** The next scan of a folder whose log file grew by `more` since its offset was saved at
      the old end of the file delivers the lines of `more` and moves the offset to the new end. */
  lemma ScanAfterGrowth(offsets: map<string, nat>, folder: string, content: string, more: string, w: World)
    requires LogFilePath(folder) in w.files && w.files[LogFilePath(folder)] == Readable(content + more, None)
    requires OffsetOf(offsets, LogFilePath(folder)) == |content|
    ensures ScanFolder(offsets, folder, w) == Scanned(Lines(more), |content| + |more|)
  {
    assert Unread(content + more, |content|) == more by {
      if more != [] {
        assert (content + more)[|content|..] == more;
      }
    }
    ScanReadable(offsets, folder, w);
  }

  /** A completed scan of a readable file delivers the lines after the stored offset. */
  lemma ScanReadable(offsets: map<string, nat>, folder: string, w: World)
    requires LogFilePath(folder) in w.files && w.files[LogFilePath(folder)].Readable?
    requires w.files[LogFilePath(folder)].failsAfter.None?
    ensures var f, o := w.files[LogFilePath(folder)], OffsetOf(offsets, LogFilePath(folder));
      ScanFolder(offsets, folder, w) == Scanned(Lines(Unread(f.content, o)), Max(o, |f.content|))
  {
  }

  /** A pass moves the offset of any path only to the end of its readable file, never
      backwards, and gives no entry to a file that is missing or cannot be opened. */
  lemma PassOffset(st: State, w: World, p: string)
    ensures var o, o' := OffsetOf(st.offsets, p), OffsetOf(PassSpec(st, w).1.offsets, p);
      o <= o' && (o' == o || (p in w.files && w.files[p].Readable? && o' == Max(o, |w.files[p].content|)))
    ensures p in PassSpec(st, w).1.offsets ==> p in st.offsets || (p in w.files && w.files[p].Readable?)
  {
    if w.listing.Some? {
      TraceOffset(st, Selected(w), w, p);
    }
  }

  /** After a successful pass every selected folder's `console.log` has been read to its end. */
  lemma PassCatchesUp(st: State, w: World)
    requires PassSpec(st, w).0.Ok?
    ensures var s := PassSpec(st, w).1.offsets;
      forall folder | folder in Selected(w) && LogFilePath(folder) in w.files ::
        var p := LogFilePath(folder);
        w.files[p].Readable? && p in s && s[p] == Max(OffsetOf(st.offsets, p), |w.files[p].content|)
  {
    TraceCatchesUp(st, Selected(w), w);
  }

  /** A pass that stops with an error stops at one folder: the offsets are those saved by
      the folders before it, the failing file's offset is not saved, and the error is the one
      that folder met. */
  lemma {:induction false} TraceFailure(st: State, folders: seq<string>, w: World)
    requires TraceOf(st, folders, w).failure.Some?
    ensures exists k | 0 <= k < |folders| ::
      var t := TraceOf(st, folders[..k], w);
      t.failure.None? && ScanFolder(t.state.offsets, folders[k], w).Failed? &&
      TraceOf(st, folders, w).failure == Some(ScanFolder(t.state.offsets, folders[k], w).error) &&
      TraceOf(st, folders, w).state.offsets == t.state.offsets
  {
    var n := |folders| - 1;
    var init := folders[..n];
    var t := TraceOf(st, init, w);
    if t.failure.Some? {
      TraceFailure(st, init, w);
      var k :| 0 <= k < |init| && var tk := TraceOf(st, init[..k], w);
        tk.failure.None? && ScanFolder(tk.state.offsets, init[k], w).Failed? &&
        t.failure == Some(ScanFolder(tk.state.offsets, init[k], w).error) && t.state.offsets == tk.state.offsets;
      assert init[..k] == folders[..k] && init[k] == folders[k];
    } else {
      assert folders[..n] == init;
    }
  }

  /** A pass that fails keeps the offsets saved before the failing folder and does not save
      the failing file's offset. */
  lemma PassFailure(st: State, w: World)
    requires w.listing.Some? && PassSpec(st, w).0.Err?
    ensures var folders := Selected(w);
      exists k | 0 <= k < |folders| ::
        var t := TraceOf(st, folders[..k], w);
        t.failure.None? && ScanFolder(t.state.offsets, folders[k], w).Failed? &&
        PassSpec(st, w) == (Err(ScanFolder(t.state.offsets, folders[k], w).error), t.state.(counters := PassSpec(st, w).1.counters))
  {
    TraceFailure(st, Selected(w), w);
  }

  // A second pass over an unchanged world.

  /** Folders whose files have all been read to their end deliver nothing and change nothing. */
  lemma {:induction false} QuietTrace(s: State, folders: seq<string>, w: World)
    requires forall k | 0 <= k < |folders| && LogFilePath(folders[k]) in w.files ::
      var p := LogFilePath(folders[k]);
      w.files[p].Readable? && w.files[p].failsAfter.None? && p in s.offsets && s.offsets[p] >= |w.files[p].content|
    ensures var t := TraceOf(s, folders, w);
      t.failure.None? && t.state == s && forall j | 0 <= j < |t.batches| :: t.batches[j] == []
  {
    if folders != [] {
      var n := |folders| - 1;
      var init, last := folders[..n], folders[n];
      assert forall k | 0 <= k < n :: init[k] == folders[k];
      QuietTrace(s, init, w);
      var t := TraceOf(s, init, w);
      var path := LogFilePath(last);
      if path in w.files {
        var content := w.files[path].content;
        assert Unread(content, s.offsets[path]) == [];
        assert ScanFolder(s.offsets, last, w) == Scanned([], s.offsets[path]);
        assert s.offsets[path := s.offsets[path]] == s.offsets;
        assert Tally(s.counters, []) == s.counters;
      }
    }
  }

  /** Folders that delivered no line leave the snapshot empty. */
  lemma {:induction false} EntryOfQuiet(bs: seq<seq<string>>)
    requires forall j | 0 <= j < |bs| :: bs[j] == []
    ensures EntryOf(bs) == EMPTY_ENTRY
  {
    if bs != [] {
      EntryOfQuiet(bs[..|bs| - 1]);
    }
  }

  /** A pass right after a successful one, with nothing written in between, reports an empty
      snapshot (every gauge 0) and leaves offsets and counters as they are. */
  lemma QuietSecondPass(st: State, w: World)
    requires PassSpec(st, w).0.Ok?
    ensures PassSpec(PassSpec(st, w).1, w) == (Ok(EMPTY_ENTRY), PassSpec(st, w).1)
  {
    var st1 := PassSpec(st, w).1;
    TraceCatchesUp(st, Selected(w), w);
    QuietTrace(st1, Selected(w), w);
    EntryOfQuiet(TraceOf(st1, Selected(w), w).batches);
  }

  // The snapshot.

  /** The lines never touch the two averages. */
  lemma GaugesWithAverages(e: LogEntry, lines: seq<string>, a: real, b: real)
    ensures Gauges(e, lines).(avgRtt := a, avgPktLoss := b) == Gauges(e.(avgRtt := a, avgPktLoss := b), lines)
  {
    GaugesLastWrite(e, lines);
    GaugesLastWrite(e.(avgRtt := a, avgPktLoss := b), lines);
  }

  /** Apart from the averages, the snapshot built folder by folder is the gauges of all the
      pass's lines read in one go from the empty entry: a gauge holds the value of the last line
      of the pass that set it (`GaugesLastWrite`), whichever folder that line was in. */
  lemma {:induction false} EntryGauges(bs: seq<seq<string>>)
    ensures EntryOf(bs).(avgRtt := 0.0, avgPktLoss := 0.0) == Gauges(EMPTY_ENTRY, Flatten(bs))
  {
    if bs != [] {
      var init, lines := bs[..|bs| - 1], bs[|bs| - 1];
      var e := EntryOf(init);
      EntryGauges(init);
      GaugesWithAverages(e, lines, 0.0, 0.0);
      GaugesAppend(EMPTY_ENTRY, Flatten(init), lines);
      GaugesLastWrite(EMPTY_ENTRY, Flatten(init));
      assert Gauges(EMPTY_ENTRY, Flatten(init)) == e.(avgRtt := 0.0, avgPktLoss := 0.0);
    }
  }

  /** The averages of `e` are those of the samples of `lines`, which has some. */
  predicate AveragesOf(e: LogEntry, lines: seq<string>) {
    RttValues(lines) != [] && e.avgRtt == Mean(RttValues(lines)) && e.avgPktLoss == Mean(PktLossValues(lines))
  }

  /** No batch from `from` on has an RTT sample. */
  predicate NoSamplesFrom(bs: seq<seq<string>>, from: nat) {
    forall k | from <= k < |bs| :: RttValues(bs[k]) == []
  }

  /** The averages are those of the last folder that produced RTT samples, or 0 when none did. */
  lemma {:induction false} EntryAverages(bs: seq<seq<string>>)
    ensures var e := EntryOf(bs);
      (exists j | 0 <= j < |bs| :: AveragesOf(e, bs[j]) && NoSamplesFrom(bs, j + 1))
      || (NoSamplesFrom(bs, 0) && e.avgRtt == 0.0 && e.avgPktLoss == 0.0)
  {
    if bs != [] {
      var n := |bs| - 1;
      var init, lines := bs[..n], bs[n];
      var e, e0 := EntryOf(bs), EntryOf(init);
      if RttValues(lines) != [] {
        assert AveragesOf(e, bs[n]) && NoSamplesFrom(bs, n + 1);
      } else {
        EntryAverages(init);
        GaugesLastWrite(e0, lines);
        assert e.avgRtt == e0.avgRtt && e.avgPktLoss == e0.avgPktLoss;
        assert bs == init + [lines];
        if j :| 0 <= j < n && AveragesOf(e0, init[j]) && NoSamplesFrom(init, j + 1) {
          NoSamplesSnoc(init, lines, j + 1);
          assert init[j] == bs[j];
        } else {
          NoSamplesSnoc(init, lines, 0);
        }
      }
    }
  }

  lemma NoSamplesSnoc(init: seq<seq<string>>, lines: seq<string>, from: nat)
    requires NoSamplesFrom(init, from) && RttValues(lines) == []
    ensures NoSamplesFrom(init + [lines], from)
  {
    forall k | from <= k < |init| + 1 ensures RttValues((init + [lines])[k]) == [] {
      if k < |init| {
        assert (init + [lines])[k] == init[k];
      }
    }
  }

  /** The snapshot a successful pass reports: its gauges are those of all the lines the pass
      delivered, read in order from the empty entry, and its averages those of the last folder
      with RTT samples. */
  lemma PassEntry(st: State, w: World)
    requires PassSpec(st, w).0.Ok?
    ensures var bs := TraceOf(st, Selected(w), w).batches;
      PassSpec(st, w).0.value.(avgRtt := 0.0, avgPktLoss := 0.0) == Gauges(EMPTY_ENTRY, Flatten(bs))
    ensures var bs, e := TraceOf(st, Selected(w), w).batches, PassSpec(st, w).0.value;
      (exists j | 0 <= j < |bs| :: AveragesOf(e, bs[j]) && NoSamplesFrom(bs, j + 1))
      || (NoSamplesFrom(bs, 0) && e.avgRtt == 0.0 && e.avgPktLoss == 0.0)
  {
    EntryGauges(TraceOf(st, Selected(w), w).batches);
    EntryAverages(TraceOf(st, Selected(w), w).batches);
  }
}
