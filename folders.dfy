/** Choosing the session folders to read: `getLastLogFolders` (main.go:61-81). */
module Folders {

  /** One entry of a directory listing. */
  datatype DirEntry = DirEntry(name: string, isDir: bool)

  const LOG_FOLDER_PREFIX := "logs_"

  /** A directory whose name starts with `logs_` (`strings.HasPrefix`). */
  predicate IsLogFolder(e: DirEntry) {
    e.isDir && LOG_FOLDER_PREFIX <= e.name
  }

  /** The names of the log folders of `entries`, in listing order. */
  function LogFolders(entries: seq<DirEntry>): seq<string> {
    if entries == [] then []
    else
      var last := entries[|entries| - 1];
      LogFolders(entries[..|entries| - 1]) + (if IsLogFolder(last) then [last.name] else [])
  }

  /** The last `limit` log folders of the listing (all of them when there are fewer). */
  function NewestLogFolders(entries: seq<DirEntry>, limit: nat): seq<string> {
    var all := LogFolders(entries);
    if |all| > limit then all[|all| - limit..] else all
  }

  /** `getLastLogFolders` once `os.ReadDir` has delivered `entries`: keep the log folders,
      then cut the list down to its last `limit` names. */
  method LastLogFolders(entries: seq<DirEntry>, limit: nat) returns (folders: seq<string>)
    ensures folders == NewestLogFolders(entries, limit)
  {
    folders := [];
    for i := 0 to |entries|
      invariant folders == LogFolders(entries[..i])
    {
      assert entries[..i + 1][..i] == entries[..i];
      if IsLogFolder(entries[i]) {
        folders := folders + [entries[i].name];
      }
    }
    assert entries[..|entries|] == entries;
    if |folders| > limit {
      folders := folders[|folders| - limit..];
    }
  }

  /** Byte-wise string order, the order `os.ReadDir` sorts a listing by. */
  predicate NameLe(a: string, b: string) {
    a == [] || (b != [] && (a[0] < b[0] || (a[0] == b[0] && NameLe(a[1..], b[1..]))))
  }

  predicate SortedByName(entries: seq<DirEntry>) {
    forall i, j | 0 <= i < j < |entries| :: NameLe(entries[i].name, entries[j].name)
  }

  predicate Ascending(names: seq<string>) {
    forall i, j | 0 <= i < j < |names| :: NameLe(names[i], names[j])
  }

  /** `name` is the name of a log folder in `entries`. */
  predicate ListedFolder(entries: seq<DirEntry>, name: string) {
    exists i | 0 <= i < |entries| :: IsLogFolder(entries[i]) && entries[i].name == name
  }

  /** Filtering the listing piece by piece gives the same folders as filtering it whole. */
  lemma {:induction false} LogFoldersAppend(a: seq<DirEntry>, b: seq<DirEntry>)
    ensures LogFolders(a + b) == LogFolders(a) + LogFolders(b)
    decreases |b|
  {
    if b == [] {
      assert a + b == a;
    } else {
      var b' := b[..|b| - 1];
      assert (a + b)[..|a + b| - 1] == a + b';
      assert (a + b)[|a + b| - 1] == b[|b| - 1];
      LogFoldersAppend(a, b');
    }
  }

  /** Every selected name is the name of a log folder of the listing, at a known position,
      and every log folder of the listing is selected. */
  lemma {:induction false} LogFoldersExact(entries: seq<DirEntry>)
    ensures forall k | 0 <= k < |LogFolders(entries)| :: ListedFolder(entries, LogFolders(entries)[k])
    ensures forall i | 0 <= i < |entries| && IsLogFolder(entries[i]) :: entries[i].name in LogFolders(entries)
  {
    if entries != [] {
      var init := entries[..|entries| - 1];
      LogFoldersExact(init);
      var f, g := LogFolders(entries), LogFolders(init);
      forall k | 0 <= k < |f|
        ensures ListedFolder(entries, f[k])
      {
        if k < |g| {
          assert f[k] == g[k];
          assert ListedFolder(init, g[k]);
          var i :| 0 <= i < |init| && IsLogFolder(init[i]) && init[i].name == g[k];
          assert entries[i] == init[i];
        } else {
          var i := |entries| - 1;
          assert IsLogFolder(entries[i]) && f[k] == entries[i].name;
        }
      }
      forall i | 0 <= i < |entries| && IsLogFolder(entries[i])
        ensures entries[i].name in f
      {
        if i < |init| {
          assert entries[i] == init[i];
        }
      }
    } else {
      assert LogFolders(entries) == [];
    }
  }

  /** A listing sorted by name yields its log folders sorted by name. */
  lemma {:induction false} LogFoldersAscending(entries: seq<DirEntry>)
    requires SortedByName(entries)
    ensures Ascending(LogFolders(entries))
  {
    if entries != [] {
      var init, last := entries[..|entries| - 1], entries[|entries| - 1];
      assert SortedByName(init) by {
        forall i, j | 0 <= i < j < |init| ensures NameLe(init[i].name, init[j].name) {
          assert init[i] == entries[i] && init[j] == entries[j];
        }
      }
      LogFoldersAscending(init);
      LogFoldersExact(init);
      var f, g := LogFolders(entries), LogFolders(init);
      forall i, j | 0 <= i < j < |f| ensures NameLe(f[i], f[j]) {
        if j >= |g| {
          assert ListedFolder(init, g[i]);
          var k :| 0 <= k < |init| && IsLogFolder(init[k]) && init[k].name == g[i];
          assert entries[k] == init[k];
        }
      }
    }
  }

  /** The selection keeps at most `limit` names, all of them when there are no more, as the
      tail of the log folders in listing order. Over a listing sorted by name, as `os.ReadDir`
      returns it, no folder left out sorts after a selected one: with timestamped names
      these are the newest sessions. */
  lemma NewestLogFoldersSpec(entries: seq<DirEntry>, limit: nat)
    ensures var all, r := LogFolders(entries), NewestLogFolders(entries, limit);
      |r| == (if |all| < limit then |all| else limit) && r == all[|all| - |r|..]
    ensures SortedByName(entries) ==>
      var all, r := LogFolders(entries), NewestLogFolders(entries, limit);
      forall i, j | 0 <= i < |all| - |r| <= j < |all| :: NameLe(all[i], all[j])
  {
    if SortedByName(entries) {
      LogFoldersAscending(entries);
    }
  }

  lemma LogFoldersSnoc(entries: seq<DirEntry>, e: DirEntry)
    ensures LogFolders(entries + [e]) == LogFolders(entries) + (if IsLogFolder(e) then [e.name] else [])
  {
    assert (entries + [e])[..|entries|] == entries;
  }

  /** The first five entries of the listing of `SevenSessions`. */
  lemma FirstEntries()
    ensures LogFolders([DirEntry("logs_1", true), DirEntry("logs_2", true), DirEntry("logs_3", true),
      DirEntry("logs_3.zip", false), DirEntry("logs_4", true)]) == ["logs_1", "logs_2", "logs_3", "logs_4"]
  {
    var p0: seq<DirEntry> := [];
    assert LogFolders(p0) == [];
    assert IsLogFolder(DirEntry("logs_1", true)) by { assert "logs_1"[..5] == LOG_FOLDER_PREFIX; }
    var p1 := p0 + [DirEntry("logs_1", true)];
    LogFoldersSnoc(p0, DirEntry("logs_1", true));
    assert LogFolders(p1) == ["logs_1"];
    assert IsLogFolder(DirEntry("logs_2", true)) by { assert "logs_2"[..5] == LOG_FOLDER_PREFIX; }
    var p2 := p1 + [DirEntry("logs_2", true)];
    LogFoldersSnoc(p1, DirEntry("logs_2", true));
    assert LogFolders(p2) == ["logs_1", "logs_2"];
    assert IsLogFolder(DirEntry("logs_3", true)) by { assert "logs_3"[..5] == LOG_FOLDER_PREFIX; }
    var p3 := p2 + [DirEntry("logs_3", true)];
    LogFoldersSnoc(p2, DirEntry("logs_3", true));
    assert LogFolders(p3) == ["logs_1", "logs_2", "logs_3"];
    assert !IsLogFolder(DirEntry("logs_3.zip", false));
    var p4 := p3 + [DirEntry("logs_3.zip", false)];
    LogFoldersSnoc(p3, DirEntry("logs_3.zip", false));
    assert LogFolders(p4) == ["logs_1", "logs_2", "logs_3"];
    assert IsLogFolder(DirEntry("logs_4", true)) by { assert "logs_4"[..5] == LOG_FOLDER_PREFIX; }
    var p5 := p4 + [DirEntry("logs_4", true)];
    LogFoldersSnoc(p4, DirEntry("logs_4", true));
    assert p5 == [DirEntry("logs_1", true), DirEntry("logs_2", true), DirEntry("logs_3", true),
      DirEntry("logs_3.zip", false), DirEntry("logs_4", true)];
  }

  /** Seven sessions on disk, besides a stray file and a folder of another kind: the last five
      sessions are read. */
  lemma SevenSessions()
    ensures NewestLogFolders(
      [DirEntry("logs_1", true), DirEntry("logs_2", true), DirEntry("logs_3", true),
       DirEntry("logs_3.zip", false), DirEntry("logs_4", true), DirEntry("profile", true),
       DirEntry("logs_5", true), DirEntry("logs_6", true), DirEntry("logs_7", true)], 5)
      == ["logs_3", "logs_4", "logs_5", "logs_6", "logs_7"]
  {
    var p5 := [DirEntry("logs_1", true), DirEntry("logs_2", true), DirEntry("logs_3", true),
      DirEntry("logs_3.zip", false), DirEntry("logs_4", true)];
    FirstEntries();
    assert !IsLogFolder(DirEntry("profile", true)) by { assert "profile"[0] != LOG_FOLDER_PREFIX[0]; }
    var p6 := p5 + [DirEntry("profile", true)];
    LogFoldersSnoc(p5, DirEntry("profile", true));
    assert LogFolders(p6) == ["logs_1", "logs_2", "logs_3", "logs_4"];
    assert IsLogFolder(DirEntry("logs_5", true)) by { assert "logs_5"[..5] == LOG_FOLDER_PREFIX; }
    var p7 := p6 + [DirEntry("logs_5", true)];
    LogFoldersSnoc(p6, DirEntry("logs_5", true));
    assert LogFolders(p7) == ["logs_1", "logs_2", "logs_3", "logs_4", "logs_5"];
    assert IsLogFolder(DirEntry("logs_6", true)) by { assert "logs_6"[..5] == LOG_FOLDER_PREFIX; }
    var p8 := p7 + [DirEntry("logs_6", true)];
    LogFoldersSnoc(p7, DirEntry("logs_6", true));
    assert LogFolders(p8) == ["logs_1", "logs_2", "logs_3", "logs_4", "logs_5", "logs_6"];
    assert IsLogFolder(DirEntry("logs_7", true)) by { assert "logs_7"[..5] == LOG_FOLDER_PREFIX; }
    var p9 := p8 + [DirEntry("logs_7", true)];
    LogFoldersSnoc(p8, DirEntry("logs_7", true));
    assert LogFolders(p9) == ["logs_1", "logs_2", "logs_3", "logs_4", "logs_5", "logs_6", "logs_7"];
    assert p9 == [DirEntry("logs_1", true), DirEntry("logs_2", true), DirEntry("logs_3", true), DirEntry("logs_3.zip", false), DirEntry("logs_4", true), DirEntry("profile", true), DirEntry("logs_5", true), DirEntry("logs_6", true), DirEntry("logs_7", true)];
  }
}
