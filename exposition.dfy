/** The metrics page of `prometheusMetricsHandler` (main.go:239-336): a pass, then either an
    HTTP 500 or one sample per metric, the 17 gauges of the snapshot followed by the 5 event
    counters. The text formatting (`%f`, `%d`, the HELP lines) is not modelled. */
module Exposition {
  import opened Text
  import opened Aggregate
  import opened Tailer

  datatype Kind = Gauge | Counter

  /** A sample value as printed: `%f` for the three real gauges, `%d` for the rest. */
  datatype Value = Float(r: real) | Int(n: nat)

  datatype Sample = Sample(name: string, kind: Kind, value: Value)

  datatype Response = Metrics(samples: seq<Sample>) | InternalServerError

  /** The metrics in the order the handler writes them. */
  const METRICS: seq<(string, Kind)> := [
    ("server_fps", Gauge), ("server_players", Gauge), ("server_ai", Gauge),
    ("server_avg_rtt", Gauge), ("server_avg_pktloss", Gauge),
    ("server_veh_count", Gauge), ("server_veh_extra_count", Gauge),
    ("server_proj_shells", Gauge), ("server_proj_missiles", Gauge),
    ("server_proj_grenades", Gauge), ("server_proj_total", Gauge),
    ("server_streaming_dynam", Gauge), ("server_streaming_static", Gauge),
    ("server_streaming_disabled", Gauge), ("server_streaming_new", Gauge),
    ("server_streaming_del", Gauge), ("server_streaming_bump", Gauge),
    ("server_disconnects", Counter), ("server_disconnect_errors", Counter),
    ("server_connection_timeouts", Counter), ("server_connects", Counter),
    ("server_reservations", Counter)]

  /** The values of the metrics, in the order of `METRICS`. */
  function Values(e: LogEntry, c: Counters): seq<Value> {
    [Float(e.fps), Int(e.players), Int(e.ai), Float(e.avgRtt), Float(e.avgPktLoss),
     Int(e.vehCount), Int(e.vehExtraCount),
     Int(e.projShells), Int(e.projMissiles), Int(e.projGrenades), Int(e.projTotal),
     Int(e.streamingDynam), Int(e.streamingStatic), Int(e.streamingDisabled),
     Int(e.streamingNew), Int(e.streamingDel), Int(e.streamingBump),
     Int(c.disconnects), Int(c.disconnectErrors), Int(c.timeouts), Int(c.connects), Int(c.reservations)]
  }

  function Samples(e: LogEntry, c: Counters): (r: seq<Sample>)
    ensures |r| == |METRICS|
  {
    var vs := Values(e, c);
    seq(|METRICS|, i requires 0 <= i < |METRICS| => Sample(METRICS[i].0, METRICS[i].1, vs[i]))
  }

  /** The handler's answer once the pass has given `r` and the counters read `c`. */
  function Handler(r: Result<LogEntry>, c: Counters): Response {
    match r
    case Err(_) => InternalServerError
    case Ok(e) => Metrics(Samples(e, c))
  }

  /** The positions printed with `%f`. */
  predicate IsFloatMetric(i: nat) {
    i == 0 || i == 3 || i == 4
  }

  /** A page laid out as the handler writes it: every metric at its place, with its kind and
      with a value of the printed type. */
  predicate WellLaidOut(samples: seq<Sample>) {
    |samples| == |METRICS| &&
    forall i | 0 <= i < |samples| ::
      samples[i].name == METRICS[i].0 && samples[i].kind == METRICS[i].1 &&
      (samples[i].value.Float? <==> IsFloatMetric(i))
  }

  /** What a scraper reads back from a page: the snapshot and the counters, or nothing when the
      page is not laid out as the handler writes it. */
  function Scrape(samples: seq<Sample>): Option<(LogEntry, Counters)> {
    if !WellLaidOut(samples) then None
    else
      var v := seq(|samples|, i requires 0 <= i < |samples| => samples[i].value);
      Some((LogEntry(v[0].r, v[1].n, v[2].n, v[3].r, v[4].r, v[5].n, v[6].n, v[7].n, v[8].n, v[9].n,
                     v[10].n, v[11].n, v[12].n, v[13].n, v[14].n, v[15].n, v[16].n),
            Counters(v[17].n, v[18].n, v[20].n, v[19].n, v[21].n)))
  }

  /** The page carries the 17 gauges first and the 5 counters after them, and scraping it gives
      back exactly the snapshot and the counters it was written from. */
  lemma ScrapeSamples(e: LogEntry, c: Counters)
    ensures forall i | 0 <= i < |Samples(e, c)| :: Samples(e, c)[i].kind == (if i < 17 then Gauge else Counter)
    ensures Scrape(Samples(e, c)) == Some((e, c))
  {
    var s := Samples(e, c);
    assert WellLaidOut(s);
  }

  /** `prometheusMetricsHandler`: one pass, then the page, or HTTP 500 when the pass failed;
      the counters on the page are those after the pass, lines before an error included. */
  method ServeMetrics(x: Exporter, w: World) returns (resp: Response)
    modifies x
    ensures resp == Handler(PassSpec(old(x.Current()), w).0, x.Events())
    ensures x.Current() == PassSpec(old(x.Current()), w).1
  {
    var r := x.Pass(w);
    resp := Handler(r, x.Events());
  }
}
