/** What the lines of one pass contribute: the gauge snapshot `LogEntry` (main.go:16-34), the
    five event counters (main.go:38-42) and the RTT / packet-loss averages (main.go:217-228). */
module Aggregate {
  import opened Text
  import opened Patterns

  /** The snapshot of server gauges one pass reports. */
  datatype LogEntry = LogEntry(
    fps: real, players: nat, ai: nat, avgRtt: real, avgPktLoss: real,
    vehCount: nat, vehExtraCount: nat,
    projShells: nat, projMissiles: nat, projGrenades: nat, projTotal: nat,
    streamingDynam: nat, streamingStatic: nat, streamingDisabled: nat,
    streamingNew: nat, streamingDel: nat, streamingBump: nat)

  /** `LogEntry{}`: every gauge zero. */
  const EMPTY_ENTRY := LogEntry(0.0, 0, 0, 0.0, 0.0, 0, 0, 0, 0, 0, 0, 0, 0, 0, 0, 0, 0)

  /** The event counters. */
  datatype Counters = Counters(disconnects: nat, disconnectErrors: nat, connects: nat, timeouts: nat, reservations: nat)

  const NO_EVENTS := Counters(0, 0, 0, 0, 0)

  /** The Atoi result main.go:167 compares with 6: a disconnect with reason 6 is an error. */
  const ERROR_REASON := 6

  /** The gauges one line overwrites (main.go:140-151, 188-209); the others keep their value. */
  function ApplyGauges(e: LogEntry, line: string): LogEntry {
    var e1 := match Fps(line) case Some(v) => e.(fps := v) case None => e;
    var e2 := match Players(line) case Some(v) => e1.(players := v) case None => e1;
    var e3 := match Ai(line) case Some(v) => e2.(ai := v) case None => e2;
    var e4 := match Vehicles(line) case Some(v) => e3.(vehCount := v.0, vehExtraCount := v.1) case None => e3;
    var e5 := match Projectiles(line)
      case Some(v) => e4.(projShells := v.0, projMissiles := v.1, projGrenades := v.2, projTotal := v.3)
      case None => e4;
    match Streaming(line)
    case Some(v) =>
      e5.(streamingDynam := v.0, streamingStatic := v.1, streamingDisabled := v.2,
          streamingNew := v.3, streamingDel := v.4, streamingBump := v.5)
    case None => e5
  }

  /** The snapshot after the lines, one after the other. */
  function Gauges(e: LogEntry, lines: seq<string>): LogEntry {
    if lines == [] then e else ApplyGauges(Gauges(e, lines[..|lines| - 1]), lines[|lines| - 1])
  }

  /** The counter increments of one line (main.go:164-185). */
  function CountLine(c: Counters, line: string): Counters {
    var reason := DisconnectReason(line);
    Counters(
      c.disconnects + (if reason.Some? then 1 else 0),
      c.disconnectErrors + (if reason == Some(ERROR_REASON) then 1 else 0),
      c.connects + (if IsConnect(line) then 1 else 0),
      c.timeouts + (if IsTimeout(line) then 1 else 0),
      c.reservations + (if IsReservation(line) then 1 else 0))
  }

  /** The counters after the lines, one after the other. */
  function Tally(c: Counters, lines: seq<string>): Counters {
    if lines == [] then c else CountLine(Tally(c, lines[..|lines| - 1]), lines[|lines| - 1])
  }

  /** The RTT captures of the lines, in order (main.go:160). */
  function RttValues(lines: seq<string>): seq<nat> {
    if lines == [] then []
    else
      var init := RttValues(lines[..|lines| - 1]);
      match RttSample(lines[|lines| - 1]) case Some(s) => init + [s.1] case None => init
  }

  /** The packet-loss captures of the lines, in order (main.go:159); one per RTT capture. */
  function PktLossValues(lines: seq<string>): (r: seq<nat>)
    ensures |r| == |RttValues(lines)|
  {
    if lines == [] then []
    else
      var init := PktLossValues(lines[..|lines| - 1]);
      match RttSample(lines[|lines| - 1]) case Some(s) => init + [s.0] case None => init
  }

  function Sum(xs: seq<nat>): nat {
    if xs == [] then 0 else Sum(xs[..|xs| - 1]) + xs[|xs| - 1]
  }

  /** The arithmetic mean, exact. */
  function Mean(xs: seq<nat>): real
    requires xs != []
  {
    Sum(xs) as real / |xs| as real
  }

  /** main.go:217-228: only a folder that produced samples sets the two averages. */
  function WithAverages(e: LogEntry, rtts: seq<nat>, losses: seq<nat>): LogEntry
    requires |rtts| == |losses|
  {
    if |rtts| > 0 then e.(avgRtt := Mean(rtts), avgPktLoss := Mean(losses)) else e
  }

  /** The snapshot after one folder's lines: the gauges they set, then their averages. */
  function FolderEntry(e: LogEntry, lines: seq<string>): LogEntry {
    WithAverages(Gauges(e, lines), RttValues(lines), PktLossValues(lines))
  }

  /** The summing loop of main.go:221-227, over both sample lists at once. */
  method Averages(rtts: seq<nat>, losses: seq<nat>) returns (avgRtt: real, avgPktLoss: real)
    requires |rtts| == |losses| > 0
    ensures avgRtt == Mean(rtts) && avgPktLoss == Mean(losses)
  {
    var totalRtt, totalPktLoss := 0.0, 0.0;
    for i := 0 to |rtts|
      invariant totalRtt == Sum(rtts[..i]) as real
      invariant totalPktLoss == Sum(losses[..i]) as real
    {
      assert rtts[..i + 1][..i] == rtts[..i] && losses[..i + 1][..i] == losses[..i];
      totalRtt := totalRtt + rtts[i] as real;
      totalPktLoss := totalPktLoss + losses[i] as real;
    }
    assert rtts[..|rtts|] == rtts && losses[..|losses|] == losses;
    avgRtt := totalRtt / |rtts| as real;
    avgPktLoss := totalPktLoss / |losses| as real;
  }

  // Properties of the counters.

  /** No counter of `b` is below the same counter of `a`. */
  predicate NoneDecreased(a: Counters, b: Counters) {
    a.disconnects <= b.disconnects && a.disconnectErrors <= b.disconnectErrors &&
    a.connects <= b.connects && a.timeouts <= b.timeouts && a.reservations <= b.reservations
  }

  /** Error disconnects are disconnects. */
  predicate Consistent(c: Counters) {
    c.disconnectErrors <= c.disconnects
  }

  /** One line raises each counter by at most one: `disconnects` exactly when the disconnect
      pattern matches, `disconnectErrors` exactly when its reason is 6, and the other three
      exactly when their pattern matches; a line matching none of the four patterns changes
      nothing. */
  lemma CountLineSpec(c: Counters, line: string)
    ensures var r := CountLine(c, line);
      NoneDecreased(c, r) &&
      r.disconnects <= c.disconnects + 1 && r.disconnectErrors <= c.disconnectErrors + 1 &&
      r.connects <= c.connects + 1 && r.timeouts <= c.timeouts + 1 && r.reservations <= c.reservations + 1
    ensures var r := CountLine(c, line);
      (r.disconnects == c.disconnects + 1 <==>
        exists i: nat, j: nat :: OccursAt(line, i, DISCONNECTED) && i + |DISCONNECTED| <= j && ReasonAt(line, j)) &&
      (r.disconnectErrors == c.disconnectErrors + 1 <==> DisconnectReason(line) == Some(ERROR_REASON)) &&
      (r.timeouts == c.timeouts + 1 <==>
        exists i: nat, j: nat :: OccursAt(line, i, TIMEOUT) && i + |TIMEOUT| <= j && IdentityAt(line, j)) &&
      (r.connects == c.connects + 1 <==> exists i: nat :: OccursAt(line, i, CONNECTED)) &&
      (r.reservations == c.reservations + 1 <==> exists i: nat :: OccursAt(line, i, RESERVING))
    ensures CountLine(c, line) == c <==>
      DisconnectReason(line).None? && !IsTimeout(line) && !IsConnect(line) && !IsReservation(line)
  {
    DisconnectReasonSpec(line);
    TimeoutSpec(line);
    ContainsIff(line, CONNECTED);
    ContainsIff(line, RESERVING);
  }

  /** Counting two stretches of lines one after the other is counting them together. */
  lemma {:induction false} TallyAppend(c: Counters, a: seq<string>, b: seq<string>)
    ensures Tally(c, a + b) == Tally(Tally(c, a), b)
    decreases |b|
  {
    if b == [] {
      assert a + b == a;
    } else {
      assert (a + b)[..|a + b| - 1] == a + b[..|b| - 1];
      assert (a + b)[|a + b| - 1] == b[|b| - 1];
      TallyAppend(c, a, b[..|b| - 1]);
    }
  }

  /** Counters never decrease, and stay consistent. */
  lemma {:induction false} TallyMonotone(c: Counters, lines: seq<string>)
    ensures NoneDecreased(c, Tally(c, lines))
    ensures Consistent(c) ==> Consistent(Tally(c, lines))
  {
    if lines != [] {
      TallyMonotone(c, lines[..|lines| - 1]);
    }
  }

  // Properties of the gauges: last write wins.

  /** What `read` finds in each line. */
  function Readings<T>(lines: seq<string>, read: string -> Option<T>): (r: seq<Option<T>>)
    ensures |r| == |lines|
  {
    seq(|lines|, i requires 0 <= i < |lines| => read(lines[i]))
  }

  /** The last value read, or `d` when nothing was read. */
  function LastReading<T>(rs: seq<Option<T>>, d: T): T {
    if rs == [] then d
    else match rs[|rs| - 1] case Some(v) => v case None => LastReading(rs[..|rs| - 1], d)
  }

  /** `LastReading` is the value of the last reading present, or the default when none is. */
  lemma {:induction false} LastReadingSpec<T>(rs: seq<Option<T>>, d: T)
    ensures (exists j | 0 <= j < |rs| ::
        rs[j].Some? && LastReading(rs, d) == rs[j].value && forall k | j < k < |rs| :: rs[k].None?)
      || ((forall k | 0 <= k < |rs| :: rs[k].None?) && LastReading(rs, d) == d)
  {
    if rs != [] {
      var n := |rs| - 1;
      if rs[n].Some? {
        assert rs[n].Some? && LastReading(rs, d) == rs[n].value;
      } else {
        LastReadingSpec(rs[..n], d);
        assert forall k | 0 <= k < n :: rs[..n][k] == rs[k];
      }
    }
  }

  /** The last reading of some lines is that of their last line, if it has one, or else the
      last reading of the lines before it. */
  lemma LastReadingSnoc<T>(lines: seq<string>, read: string -> Option<T>, d: T)
    requires lines != []
    ensures var n := |lines| - 1;
      LastReading(Readings(lines, read), d) ==
        match read(lines[n]) case Some(v) => v case None => LastReading(Readings(lines[..n], read), d)
  {
    var n := |lines| - 1;
    var rs := Readings(lines, read);
    assert rs[..n] == Readings(lines[..n], read);
    assert rs[n] == read(lines[n]);
  }

  /** What one line does to each gauge group. */
  lemma ApplyGaugesFields(e: LogEntry, line: string)
    ensures var a := ApplyGauges(e, line);
      a.fps == (match Fps(line) case Some(v) => v case None => e.fps) &&
      a.players == (match Players(line) case Some(v) => v case None => e.players) &&
      a.ai == (match Ai(line) case Some(v) => v case None => e.ai) &&
      (a.vehCount, a.vehExtraCount) == (match Vehicles(line) case Some(v) => v case None => (e.vehCount, e.vehExtraCount)) &&
      (a.projShells, a.projMissiles, a.projGrenades, a.projTotal) ==
        (match Projectiles(line) case Some(v) => v
         case None => (e.projShells, e.projMissiles, e.projGrenades, e.projTotal)) &&
      (a.streamingDynam, a.streamingStatic, a.streamingDisabled, a.streamingNew, a.streamingDel, a.streamingBump) ==
        (match Streaming(line) case Some(v) => v
         case None => (e.streamingDynam, e.streamingStatic, e.streamingDisabled, e.streamingNew, e.streamingDel, e.streamingBump)) &&
      a.avgRtt == e.avgRtt && a.avgPktLoss == e.avgPktLoss
  {
  }

  /** Every gauge holds the value of the last line that set it, or its starting value when
      no line did; the averages are not touched by lines. */
  lemma {:induction false} GaugesLastWrite(e: LogEntry, lines: seq<string>)
    ensures var g := Gauges(e, lines);
      g.fps == LastReading(Readings(lines, Fps), e.fps) &&
      g.players == LastReading(Readings(lines, Players), e.players) &&
      g.ai == LastReading(Readings(lines, Ai), e.ai) &&
      (g.vehCount, g.vehExtraCount) == LastReading(Readings(lines, Vehicles), (e.vehCount, e.vehExtraCount)) &&
      (g.projShells, g.projMissiles, g.projGrenades, g.projTotal) ==
        LastReading(Readings(lines, Projectiles), (e.projShells, e.projMissiles, e.projGrenades, e.projTotal)) &&
      (g.streamingDynam, g.streamingStatic, g.streamingDisabled, g.streamingNew, g.streamingDel, g.streamingBump) ==
        LastReading(Readings(lines, Streaming),
          (e.streamingDynam, e.streamingStatic, e.streamingDisabled, e.streamingNew, e.streamingDel, e.streamingBump)) &&
      g.avgRtt == e.avgRtt && g.avgPktLoss == e.avgPktLoss
  {
    if lines != [] {
      var n := |lines| - 1;
      GaugesLastWrite(e, lines[..n]);
      ApplyGaugesFields(Gauges(e, lines[..n]), lines[n]);
      LastReadingSnoc(lines, Fps, e.fps);
      LastReadingSnoc(lines, Players, e.players);
      LastReadingSnoc(lines, Ai, e.ai);
      LastReadingSnoc(lines, Vehicles, (e.vehCount, e.vehExtraCount));
      LastReadingSnoc(lines, Projectiles, (e.projShells, e.projMissiles, e.projGrenades, e.projTotal));
      LastReadingSnoc(lines, Streaming,
        (e.streamingDynam, e.streamingStatic, e.streamingDisabled, e.streamingNew, e.streamingDel, e.streamingBump));
    }
  }

  /** Gauges over two stretches of lines, one after the other. */
  lemma {:induction false} GaugesAppend(e: LogEntry, a: seq<string>, b: seq<string>)
    ensures Gauges(e, a + b) == Gauges(Gauges(e, a), b)
    decreases |b|
  {
    if b == [] {
      assert a + b == a;
    } else {
      assert (a + b)[..|a + b| - 1] == a + b[..|b| - 1];
      assert (a + b)[|a + b| - 1] == b[|b| - 1];
      GaugesAppend(e, a, b[..|b| - 1]);
    }
  }

  // Properties of the averages.

  lemma {:induction false} SumBounds(xs: seq<nat>, lo: nat, hi: nat)
    requires forall k | 0 <= k < |xs| :: lo <= xs[k] <= hi
    ensures lo * |xs| <= Sum(xs) <= hi * |xs|
  {
    if xs != [] {
      SumBounds(xs[..|xs| - 1], lo, hi);
    }
  }

  /** The mean lies between the smallest and the largest sample bound; in particular a packet
      loss reported out of 100 averages to at most 100. */
  lemma MeanBounds(xs: seq<nat>, lo: nat, hi: nat)
    requires xs != []
    requires forall k | 0 <= k < |xs| :: lo <= xs[k] <= hi
    ensures lo as real <= Mean(xs) <= hi as real
  {
    var n, total := |xs|, Sum(xs);
    var nr, tr := n as real, total as real;
    assert lo as real * nr <= tr <= hi as real * nr by {
      SumBounds(xs, lo, hi);
      CastProduct(lo, n);
      CastProduct(hi, n);
    }
    DivBounds(tr, lo as real, hi as real, nr);
    assert Mean(xs) == tr / nr;
  }

  lemma CastProduct(a: nat, b: nat)
    ensures (a * b) as real == a as real * b as real
  {
  }

  lemma DivBounds(s: real, lo: real, hi: real, n: real)
    requires n > 0.0 && lo * n <= s <= hi * n
    ensures lo <= s / n <= hi
  {
    assert s / n * n == s;
  }

  /** Every sample equal to `v` averages to `v`. */
  lemma MeanConstant(xs: seq<nat>, v: nat)
    requires xs != [] && forall k | 0 <= k < |xs| :: xs[k] == v
    ensures Mean(xs) == v as real
  {
    MeanBounds(xs, v, v);
  }
}
