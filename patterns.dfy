/** The eleven fixed, unanchored line patterns of the tail pass (main.go:119-130).
    The seven capture patterns are sequences of literal text, one whitespace character
    (`\s`) and greedy character runs (`[0-9]+`, `[0-9.]+`); every run is followed by
    a character outside its class, so the longest run is the only one a match can use.
    The four event patterns are written out by hand. */
module Patterns {
  import opened Text

  datatype CharClass = Digits | DigitsOrDots

  /** A part of a pattern that captures nothing: literal text, or `\s`. */
  datatype Fixed = Lit(text: string) | Space

  /** Fixed parts followed by one capturing greedy run `([0-9]+)` or `([0-9.]+)`. */
  datatype Piece = Piece(before: seq<Fixed>, cls: CharClass)

  datatype Pattern = Pattern(pieces: seq<Piece>, after: seq<Fixed>)

  predicate InClass(c: char, cls: CharClass) {
    IsDigit(c) || (cls == DigitsOrDots && c == '.')
  }

  predicate AllInClass(t: string, cls: CharClass) {
    forall k | 0 <= k < |t| :: InClass(t[k], cls)
  }

  /** Length of the longest run of `cls` characters starting at `i`. */
  function RunLength(s: string, i: nat, cls: CharClass): (n: nat)
    requires i <= |s|
    decreases |s| - i
    ensures i + n <= |s|
    ensures forall k | i <= k < i + n :: InClass(s[k], cls)
    ensures i + n == |s| || !InClass(s[i + n], cls)
  {
    if i == |s| || !InClass(s[i], cls) then 0 else 1 + RunLength(s, i + 1, cls)
  }

  /** The index just past the fixed parts `f` matched at `i`, or None. */
  function SkipFixed(s: string, i: nat, f: seq<Fixed>): (r: Option<nat>)
    requires i <= |s|
    decreases f
    ensures r.Some? ==> i <= r.value <= |s|
  {
    if f == [] then Some(i)
    else match f[0]
      case Lit(t) => if OccursAt(s, i, t) then SkipFixed(s, i + |t|, f[1..]) else None
      case Space => if i < |s| && IsSpace(s[i]) then SkipFixed(s, i + 1, f[1..]) else None
  }

  /** The captures of `pieces` followed by `after`, matched at index `i` of `s`. */
  function MatchPieces(s: string, i: nat, pieces: seq<Piece>, after: seq<Fixed>): (r: Option<seq<string>>)
    requires i <= |s|
    decreases pieces
    ensures r.Some? ==> |r.value| == |pieces|
    ensures r.Some? ==> forall k | 0 <= k < |r.value| ::
      r.value[k] != [] && AllInClass(r.value[k], pieces[k].cls)
  {
    if pieces == [] then
      if SkipFixed(s, i, after).Some? then Some([]) else None
    else match SkipFixed(s, i, pieces[0].before)
      case None => None
      case Some(j) =>
        var n := RunLength(s, j, pieces[0].cls);
        if n == 0 then None
        else match MatchPieces(s, j + n, pieces[1..], after)
          case None => None
          case Some(rest) => Some([s[j..j + n]] + rest)
  }

  /** The captures of `p` matched at index `i` of `s`, or None when `p` does not match there. */
  function MatchAt(s: string, i: nat, p: Pattern): (r: Option<seq<string>>)
    requires i <= |s|
  {
    MatchPieces(s, i, p.pieces, p.after)
  }

  /** The leftmost index at or after `i` where `p` matches `s`. */
  function LeftmostFrom(s: string, p: Pattern, i: nat): (r: Option<nat>)
    requires i <= |s|
    decreases |s| - i
    ensures r.Some? ==> i <= r.value <= |s| && MatchAt(s, r.value, p).Some?
    ensures r.Some? ==> forall k | i <= k < r.value :: MatchAt(s, k, p).None?
    ensures r.None? ==> forall k | i <= k <= |s| :: MatchAt(s, k, p).None?
  {
    if MatchAt(s, i, p).Some? then Some(i)
    else if i == |s| then None
    else LeftmostFrom(s, p, i + 1)
  }

  /** `regexp.FindStringSubmatch` without the whole-match element: the captures of the
      leftmost match, or None. */
  function FindSubmatch(s: string, p: Pattern): (r: Option<seq<string>>)
    ensures r.Some? ==> |r.value| == |p.pieces|
    ensures r.Some? ==> forall k | 0 <= k < |r.value| ::
      r.value[k] != [] && AllInClass(r.value[k], p.pieces[k].cls)
  {
    match LeftmostFrom(s, p, 0)
    case None => None
    case Some(j) => MatchAt(s, j, p)
  }

  // The seven capture patterns, main.go:119-125.

  /** `FPS:\s([0-9.]+)` */
  const FPS_PATTERN := Pattern([Piece([Lit("FPS:"), Space], DigitsOrDots)], [])
  /** `Player:\s([0-9]+)` */
  const PLAYER_PATTERN := Pattern([Piece([Lit("Player:"), Space], Digits)], [])
  /** `AI:\s([0-9]+)` */
  const AI_PATTERN := Pattern([Piece([Lit("AI:"), Space], Digits)], [])
  /** `PktLoss:\s([0-9]+)/100,\sRtt:\s([0-9]+)` */
  const RTT_PKT_PATTERN := Pattern(
    [Piece([Lit("PktLoss:"), Space], Digits), Piece([Lit("/100,"), Space, Lit("Rtt:"), Space], Digits)], [])
  /** `Veh:\s([0-9]+)\s\(([0-9]+)\)` */
  const VEH_PATTERN := Pattern(
    [Piece([Lit("Veh:"), Space], Digits), Piece([Space, Lit("(")], Digits)], [Lit(")")])
  /** `Proj\s\(S:\s([0-9]+),\sM:\s([0-9]+),\sG:\s([0-9]+)\s\|\s([0-9]+)\)` */
  const PROJ_PATTERN := Pattern(
    [Piece([Lit("Proj"), Space, Lit("(S:"), Space], Digits),
     Piece([Lit(","), Space, Lit("M:"), Space], Digits),
     Piece([Lit(","), Space, Lit("G:"), Space], Digits),
     Piece([Space, Lit("|"), Space], Digits)],
    [Lit(")")])
  /** `Streaming\(Dynam:\s([0-9]+),\sStatic:\s([0-9]+),\sDisabled:\s([0-9]+)\s\|\sNew:\s([0-9]+),\sDel:\s([0-9]+),\sBump:\s([0-9]+)\)` */
  const STREAMING_PATTERN := Pattern(
    [Piece([Lit("Streaming(Dynam:"), Space], Digits),
     Piece([Lit(","), Space, Lit("Static:"), Space], Digits),
     Piece([Lit(","), Space, Lit("Disabled:"), Space], Digits),
     Piece([Space, Lit("|"), Space, Lit("New:"), Space], Digits),
     Piece([Lit(","), Space, Lit("Del:"), Space], Digits),
     Piece([Lit(","), Space, Lit("Bump:"), Space], Digits)],
    [Lit(")")])

  // Rendering a pattern with given captures, the inverse of matching it.

  function RenderFixed(f: seq<Fixed>): string {
    if f == [] then ""
    else (match f[0] case Lit(t) => t case Space => " ") + RenderFixed(f[1..])
  }

  function RenderPieces(pieces: seq<Piece>, after: seq<Fixed>, caps: seq<string>): string
    requires |caps| == |pieces|
  {
    if pieces == [] then RenderFixed(after)
    else RenderFixed(pieces[0].before) + caps[0] + RenderPieces(pieces[1..], after, caps[1..])
  }

  /** The line a logger writes when it fills pattern `p` with the capture texts `caps`. */
  function Render(p: Pattern, caps: seq<string>): string
    requires |caps| == |p.pieces|
  {
    RenderPieces(p.pieces, p.after, caps)
  }

  /** Matched text starts with a character outside `cls`. */
  predicate StartsOutside(f: seq<Fixed>, cls: CharClass) {
    f != [] && (f[0].Space? || (f[0].text != [] && !InClass(f[0].text[0], cls)))
  }

  /** Every run is followed by fixed text that starts outside its class, or ends the pattern. */
  predicate DelimitedPieces(pieces: seq<Piece>, after: seq<Fixed>)
    decreases pieces
  {
    pieces == [] ||
    ((if |pieces| > 1 then StartsOutside(pieces[1].before, pieces[0].cls)
      else after == [] || StartsOutside(after, pieces[0].cls))
     && DelimitedPieces(pieces[1..], after))
  }

  predicate Delimited(p: Pattern) {
    DelimitedPieces(p.pieces, p.after)
  }

  predicate ValidCaptures(pieces: seq<Piece>, caps: seq<string>) {
    |caps| == |pieces| && forall k | 0 <= k < |caps| :: caps[k] != [] && AllInClass(caps[k], pieces[k].cls)
  }

  lemma PatternsDelimited()
    ensures Delimited(FPS_PATTERN) && Delimited(PLAYER_PATTERN) && Delimited(AI_PATTERN)
    ensures Delimited(RTT_PKT_PATTERN) && Delimited(VEH_PATTERN)
    ensures Delimited(PROJ_PATTERN) && Delimited(STREAMING_PATTERN)
  {
  }

  lemma OccursAtSplit(s: string, i: nat, a: string, b: string)
    requires OccursAt(s, i, a + b)
    ensures OccursAt(s, i, a) && OccursAt(s, i + |a|, b)
  {
    assert s[i..i + |a|] == (a + b)[..|a|];
    assert s[i + |a|..i + |a| + |b|] == (a + b)[|a|..];
  }

  lemma {:induction false} SkipFixedRendered(s: string, i: nat, f: seq<Fixed>)
    requires OccursAt(s, i, RenderFixed(f))
    ensures SkipFixed(s, i, f) == Some(i + |RenderFixed(f)|)
    decreases f
  {
    if f != [] {
      var head := match f[0] case Lit(t) => t case Space => " ";
      OccursAtSplit(s, i, head, RenderFixed(f[1..]));
      if f[0].Space? {
        assert s[i..i + 1] == " ";
        assert s[i] == ' ';
      }
      SkipFixedRendered(s, i + |head|, f[1..]);
    }
  }

  lemma {:induction false} RunLengthRendered(s: string, j: nat, t: string, cls: CharClass)
    requires OccursAt(s, j, t) && AllInClass(t, cls)
    requires j + |t| == |s| || !InClass(s[j + |t|], cls)
    ensures RunLength(s, j, cls) == |t|
    decreases t
  {
    if t != [] {
      assert s[j] == t[0] by { assert s[j..j + |t|][0] == t[0]; }
      assert OccursAt(s, j + 1, t[1..]) by { assert s[j + 1..j + |t|] == s[j..j + |t|][1..]; }
      RunLengthRendered(s, j + 1, t[1..], cls);
    }
  }

  lemma StartsOutsideRendered(s: string, i: nat, f: seq<Fixed>, cls: CharClass)
    requires StartsOutside(f, cls) && OccursAt(s, i, RenderFixed(f))
    ensures i < |s| && !InClass(s[i], cls)
  {
    var head := match f[0] case Lit(t) => t case Space => " ";
    OccursAtSplit(s, i, head, RenderFixed(f[1..]));
    assert s[i..i + |head|][0] == head[0];
  }

  lemma TailsValid(pieces: seq<Piece>, caps: seq<string>)
    requires pieces != [] && ValidCaptures(pieces, caps)
    ensures ValidCaptures(pieces[1..], caps[1..])
  {
    forall k | 0 <= k < |caps| - 1
      ensures caps[1..][k] != [] && AllInClass(caps[1..][k], pieces[1..][k].cls)
    {
      assert caps[1..][k] == caps[k + 1] && pieces[1..][k] == pieces[k + 1];
    }
  }

  /** After the first capture of a rendered line comes a character outside its class. */
  lemma FirstCaptureEnds(s: string, i: nat, pieces: seq<Piece>, after: seq<Fixed>, caps: seq<string>)
    requires pieces != [] && ValidCaptures(pieces, caps) && DelimitedPieces(pieces, after)
    requires OccursAt(s, i, RenderPieces(pieces[1..], after, caps[1..]))
    requires |pieces| == 1 && after == [] ==> i == |s| || !InClass(s[i], pieces[0].cls)
    ensures i == |s| || !InClass(s[i], pieces[0].cls)
  {
    if pieces[1..] != [] {
      var b' := RenderFixed(pieces[1].before);
      OccursAtSplit(s, i, b' + caps[1], RenderPieces(pieces[2..], after, caps[2..]));
      OccursAtSplit(s, i, b', caps[1]);
      StartsOutsideRendered(s, i, pieces[1].before, pieces[0].cls);
    } else if after != [] {
      StartsOutsideRendered(s, i, after, pieces[0].cls);
    }
  }

  lemma MatchPiecesCons(s: string, i: nat, pieces: seq<Piece>, after: seq<Fixed>, j: nat, e: nat, caps: seq<string>)
    requires i <= |s| && pieces != [] && caps != [] && e == j + |caps[0]| <= |s|
    requires SkipFixed(s, i, pieces[0].before) == Some(j)
    requires RunLength(s, j, pieces[0].cls) == |caps[0]| > 0
    requires MatchPieces(s, e, pieces[1..], after) == Some(caps[1..])
    requires s[j..e] == caps[0]
    ensures MatchPieces(s, i, pieces, after) == Some(caps)
  {
    assert [caps[0]] + caps[1..] == caps;
  }

  /** Where the fixed text, the first capture and the rest of a rendered line lie. */
  lemma RenderPiecesSplit(s: string, i: nat, pieces: seq<Piece>, after: seq<Fixed>, caps: seq<string>)
    requires pieces != [] && |caps| == |pieces|
    requires OccursAt(s, i, RenderPieces(pieces, after, caps))
    ensures var b, rest := RenderFixed(pieces[0].before), RenderPieces(pieces[1..], after, caps[1..]);
      OccursAt(s, i, b) && OccursAt(s, i + |b|, caps[0]) && OccursAt(s, i + |b| + |caps[0]|, rest) &&
      |RenderPieces(pieces, after, caps)| == |b| + |caps[0]| + |rest|
  {
    var b, rest := RenderFixed(pieces[0].before), RenderPieces(pieces[1..], after, caps[1..]);
    OccursAtSplit(s, i, b + caps[0], rest);
    OccursAtSplit(s, i, b, caps[0]);
  }

  /** The first piece of a rendered line: its fixed text and its capture. */
  lemma FirstPieceRendered(s: string, i: nat, pieces: seq<Piece>, after: seq<Fixed>, caps: seq<string>)
      returns (j: nat, e: nat)
    requires pieces != [] && ValidCaptures(pieces, caps) && DelimitedPieces(pieces, after)
    requires OccursAt(s, i, RenderPieces(pieces, after, caps))
    requires pieces != [] && after == [] ==>
      var e := i + |RenderPieces(pieces, after, caps)|;
      e == |s| || !InClass(s[e], pieces[|pieces| - 1].cls)
    ensures SkipFixed(s, i, pieces[0].before) == Some(j)
    ensures e == j + |caps[0]| <= |s| && s[j..e] == caps[0] && caps[0] != []
    ensures RunLength(s, j, pieces[0].cls) == |caps[0]|
    ensures e == i + |RenderPieces(pieces, after, caps)| - |RenderPieces(pieces[1..], after, caps[1..])|
  {
    var b := RenderFixed(pieces[0].before);
    j := i + |b|;
    e := j + |caps[0]|;
    RenderPiecesSplit(s, i, pieces, after, caps);
    SkipFixedRendered(s, i, pieces[0].before);
    FirstCaptureEnds(s, e, pieces, after, caps);
    RunLengthRendered(s, j, caps[0], pieces[0].cls);
  }

  /** The rest of a rendered line after its first capture is the rendered rest of the pattern,
      delimited as the whole line was. */
  lemma RestRendered(s: string, i: nat, pieces: seq<Piece>, after: seq<Fixed>, caps: seq<string>, e: nat)
    requires pieces != [] && ValidCaptures(pieces, caps) && DelimitedPieces(pieces, after)
    requires OccursAt(s, i, RenderPieces(pieces, after, caps))
    requires pieces != [] && after == [] ==>
      var e := i + |RenderPieces(pieces, after, caps)|;
      e == |s| || !InClass(s[e], pieces[|pieces| - 1].cls)
    requires e == i + |RenderPieces(pieces, after, caps)| - |RenderPieces(pieces[1..], after, caps[1..])|
    ensures ValidCaptures(pieces[1..], caps[1..]) && DelimitedPieces(pieces[1..], after)
    ensures OccursAt(s, e, RenderPieces(pieces[1..], after, caps[1..]))
    ensures pieces[1..] != [] && after == [] ==>
      var e' := e + |RenderPieces(pieces[1..], after, caps[1..])|;
      e' == |s| || !InClass(s[e'], pieces[1..][|pieces[1..]| - 1].cls)
  {
    RenderPiecesSplit(s, i, pieces, after, caps);
    TailsValid(pieces, caps);
    if pieces[1..] != [] && after == [] {
      assert pieces[1..][|pieces[1..]| - 1] == pieces[|pieces| - 1];
    }
  }

  /** A rendered pattern matches where it was written and gives back its captures. */
  lemma {:induction false} MatchPiecesRendered(s: string, i: nat, pieces: seq<Piece>, after: seq<Fixed>, caps: seq<string>)
    requires ValidCaptures(pieces, caps) && DelimitedPieces(pieces, after)
    requires OccursAt(s, i, RenderPieces(pieces, after, caps))
    requires pieces != [] && after == [] ==>
      var e := i + |RenderPieces(pieces, after, caps)|;
      e == |s| || !InClass(s[e], pieces[|pieces| - 1].cls)
    ensures MatchPieces(s, i, pieces, after) == Some(caps)
    decreases pieces
  {
    if pieces == [] {
      SkipFixedRendered(s, i, after);
    } else {
      var j, e := FirstPieceRendered(s, i, pieces, after, caps);
      RestRendered(s, i, pieces, after, caps, e);
      MatchPiecesRendered(s, e, pieces[1..], after, caps[1..]);
      MatchPiecesCons(s, i, pieces, after, j, e, caps);
    }
  }

  /** The leftmost match from `i` is at `j` when `p` matches at `j` and nowhere between. */
  lemma {:induction false} LeftmostIs(s: string, p: Pattern, i: nat, j: nat)
    requires i <= j <= |s| && MatchAt(s, j, p).Some?
    requires forall k | i <= k < j :: MatchAt(s, k, p).None?
    ensures LeftmostFrom(s, p, i) == Some(j)
    decreases j - i
  {
    if i < j {
      LeftmostIs(s, p, i + 1, j);
    }
  }

  /** `p` matches nowhere in `s` before index `n`. */
  predicate NoMatchBefore(s: string, p: Pattern, n: nat) {
    n <= |s| && forall k | 0 <= k < n :: MatchAt(s, k, p).None?
  }

  /** The character after a greedy run that ends the pattern does not extend the run. */
  predicate EndsRun(p: Pattern, post: string) {
    p.pieces != [] && p.after == [] && post != [] ==> !InClass(post[0], p.pieces[|p.pieces| - 1].cls)
  }

  /** Round trip: on a line that holds the text a logger writes for `p` and `caps`, between
      a prefix where `p` does not match and a suffix that does not extend a final run, the
      leftmost match yields exactly `caps`. */
  lemma FindSubmatchEmbedded(p: Pattern, caps: seq<string>, pre: string, post: string)
    requires Delimited(p) && ValidCaptures(p.pieces, caps)
    requires NoMatchBefore(pre + Render(p, caps) + post, p, |pre|)
    requires EndsRun(p, post)
    ensures FindSubmatch(pre + Render(p, caps) + post, p) == Some(caps)
  {
    var r := Render(p, caps);
    var s := pre + r + post;
    assert OccursAt(s, |pre|, r) by {
      assert s[|pre|..|pre| + |r|] == r;
    }
    if p.pieces != [] && p.after == [] && |pre| + |r| < |s| {
      assert s[|pre| + |r|] == post[0];
    }
    MatchPiecesRendered(s, |pre|, p.pieces, p.after, caps);
    LeftmostIs(s, p, 0, |pre|);
  }

  // What each capture pattern writes (main.go:140-161, 188-209). A capture of `[0-9]+` is
  // converted by Atoi, which cannot fail on a digit run here because integers are unbounded.

  /** The value main.go:141 stores in FPS: the parsed capture, or 0 when ParseFloat rejects it. */
  function Fps(line: string): Option<real> {
    match FindSubmatch(line, FPS_PATTERN)
    case None => None
    case Some(c) => Some(ParseDecimal(c[0]).GetOr(0.0))
  }

  function Players(line: string): Option<nat> {
    match FindSubmatch(line, PLAYER_PATTERN)
    case None => None
    case Some(c) => Some(ParseNat(c[0]))
  }

  function Ai(line: string): Option<nat> {
    match FindSubmatch(line, AI_PATTERN)
    case None => None
    case Some(c) => Some(ParseNat(c[0]))
  }

  /** One (packet loss, round-trip time) sample. */
  function RttSample(line: string): Option<(nat, nat)> {
    match FindSubmatch(line, RTT_PKT_PATTERN)
    case None => None
    case Some(c) => Some((ParseNat(c[0]), ParseNat(c[1])))
  }

  /** (VehCount, VehExtraCount) */
  function Vehicles(line: string): Option<(nat, nat)> {
    match FindSubmatch(line, VEH_PATTERN)
    case None => None
    case Some(c) => Some((ParseNat(c[0]), ParseNat(c[1])))
  }

  /** (ProjShells, ProjMissiles, ProjGrenades, ProjTotal) */
  function Projectiles(line: string): Option<(nat, nat, nat, nat)> {
    match FindSubmatch(line, PROJ_PATTERN)
    case None => None
    case Some(c) => Some((ParseNat(c[0]), ParseNat(c[1]), ParseNat(c[2]), ParseNat(c[3])))
  }

  /** (StreamingDynam, StreamingStatic, StreamingDisabled, StreamingNew, StreamingDel, StreamingBump) */
  function Streaming(line: string): Option<(nat, nat, nat, nat, nat, nat)> {
    match FindSubmatch(line, STREAMING_PATTERN)
    case None => None
    case Some(c) =>
      Some((ParseNat(c[0]), ParseNat(c[1]), ParseNat(c[2]), ParseNat(c[3]), ParseNat(c[4]), ParseNat(c[5])))
  }

  // The four event patterns, main.go:127-130.

  const DISCONNECTED := "disconnected"
  const REASON := "reason="
  const TIMEOUT := "connection timeout"
  const IDENTITY := "identity=0x"
  const CONNECTED := "Player connected:"
  const RESERVING := "Reserving slot for player"

  /** `reason=` followed by a digit at index `j`. */
  predicate ReasonAt(s: string, j: nat) {
    OccursAt(s, j, REASON) && j + |REASON| < |s| && IsDigit(s[j + |REASON|])
  }

  /** Atoi of the digit run written after the `reason=` at `j`. */
  function ReasonValue(s: string, j: nat): nat
    requires ReasonAt(s, j)
  {
    var k := j + |REASON|;
    ParseNat(s[k..k + RunLength(s, k, Digits)])
  }

  /** The last index in [lo, hi) where ReasonAt holds. */
  function LastReasonBelow(s: string, lo: nat, hi: nat): (r: Option<nat>)
    decreases hi
    ensures r.Some? ==> lo <= r.value < hi && ReasonAt(s, r.value)
    ensures r.Some? ==> forall j | r.value < j < hi :: !ReasonAt(s, j)
    ensures r.None? ==> forall j | lo <= j < hi :: !ReasonAt(s, j)
  {
    if hi <= lo then None
    else if ReasonAt(s, hi - 1) then Some(hi - 1)
    else LastReasonBelow(s, lo, hi - 1)
  }

  /** `disconnected.*reason=([0-9]+)`: the leftmost match starts at the first `disconnected`,
      and the greedy `.*` makes the capture the digits after the last `reason=` that follows it
      and is itself followed by a digit. */
  function DisconnectReason(line: string): Option<nat> {
    match IndexFrom(line, DISCONNECTED, 0)
    case None => None
    case Some(i) =>
      match LastReasonBelow(line, i + |DISCONNECTED|, |line|)
      case None => None
      case Some(j) => Some(ReasonValue(line, j))
  }

  /** `identity=0x` followed by an upper-case hex digit at index `j`. */
  predicate IdentityAt(s: string, j: nat) {
    OccursAt(s, j, IDENTITY) && j + |IDENTITY| < |s| && IsUpperHex(s[j + |IDENTITY|])
  }

  function FirstIdentityFrom(s: string, from: nat): (r: Option<nat>)
    decreases |s| - from
    ensures r.Some? ==> from <= r.value && IdentityAt(s, r.value)
    ensures r.None? ==> forall j | from <= j :: !IdentityAt(s, j)
  {
    if |s| <= from then None
    else if IdentityAt(s, from) then Some(from)
    else FirstIdentityFrom(s, from + 1)
  }

  /** `connection timeout.*identity=0x[0-9A-F]+` matches somewhere in `line`. */
  predicate IsTimeout(line: string) {
    match IndexFrom(line, TIMEOUT, 0)
    case None => false
    case Some(i) => FirstIdentityFrom(line, i + |TIMEOUT|).Some?
  }

  predicate IsConnect(line: string) {
    Contains(line, CONNECTED)
  }

  predicate IsReservation(line: string) {
    Contains(line, RESERVING)
  }

  /** The disconnect pattern matches exactly when some `disconnected` is followed, later in the
      line, by `reason=` and a digit; the captured reason is then the one after the LAST
      `reason=` of the line that is followed by a digit. */
  lemma DisconnectReasonSpec(line: string)
    ensures DisconnectReason(line).Some? <==>
      exists i: nat, j: nat :: OccursAt(line, i, DISCONNECTED) && i + |DISCONNECTED| <= j && ReasonAt(line, j)
    ensures DisconnectReason(line).Some? ==>
      exists j: nat :: ReasonAt(line, j) && DisconnectReason(line).value == ReasonValue(line, j) &&
        forall j': nat :: j < j' ==> !ReasonAt(line, j')
  {
    match IndexFrom(line, DISCONNECTED, 0)
    case None =>
    case Some(i) =>
      match LastReasonBelow(line, i + |DISCONNECTED|, |line|)
      case None =>
        forall i': nat, j: nat | OccursAt(line, i', DISCONNECTED) && i' + |DISCONNECTED| <= j
          ensures !ReasonAt(line, j)
        {
        }
      case Some(j) =>
        assert OccursAt(line, i, DISCONNECTED) && i + |DISCONNECTED| <= j && ReasonAt(line, j);
  }

  /** The timeout pattern matches exactly when some `connection timeout` is followed, later in
      the line, by `identity=0x` and an upper-case hex digit. */
  lemma TimeoutSpec(line: string)
    ensures IsTimeout(line) <==>
      exists i: nat, j: nat :: OccursAt(line, i, TIMEOUT) && i + |TIMEOUT| <= j && IdentityAt(line, j)
  {
    match IndexFrom(line, TIMEOUT, 0)
    case None =>
    case Some(i) =>
      match FirstIdentityFrom(line, i + |TIMEOUT|)
      case None =>
      case Some(j) =>
        assert OccursAt(line, i, TIMEOUT) && i + |TIMEOUT| <= j && IdentityAt(line, j);
  }

  // The text of each pattern filled with given captures.

  lemma FpsText(c: string)
    ensures Render(FPS_PATTERN, [c]) == "FPS: " + c
  {
    var p, caps := FPS_PATTERN, [c];
    assert RenderFixed(p.after) == "";
    assert p.pieces[1..] == [] && caps[1..] == [];
    assert RenderPieces(p.pieces[0..], p.after, caps[0..]) == "FPS: " + c by {
      assert p.pieces[0..][0] == p.pieces[0] && caps[0..][0] == caps[0];
      assert p.pieces[0..][1..] == p.pieces[1..] && caps[0..][1..] == caps[1..];
      assert RenderFixed(p.pieces[0].before) == "FPS: " by {
        assert p.pieces[0].before[1..] == [Space];
        assert p.pieces[0].before[1..][1..] == [];
      }
    }
    assert p.pieces[0..] == p.pieces && caps[0..] == caps;
  }

  lemma PlayerText(c: string)
    ensures Render(PLAYER_PATTERN, [c]) == "Player: " + c
  {
    var p, caps := PLAYER_PATTERN, [c];
    assert RenderFixed(p.after) == "";
    assert p.pieces[1..] == [] && caps[1..] == [];
    assert RenderPieces(p.pieces[0..], p.after, caps[0..]) == "Player: " + c by {
      assert p.pieces[0..][0] == p.pieces[0] && caps[0..][0] == caps[0];
      assert p.pieces[0..][1..] == p.pieces[1..] && caps[0..][1..] == caps[1..];
      assert RenderFixed(p.pieces[0].before) == "Player: " by {
        assert p.pieces[0].before[1..] == [Space];
        assert p.pieces[0].before[1..][1..] == [];
      }
    }
    assert p.pieces[0..] == p.pieces && caps[0..] == caps;
  }

  lemma AiText(c: string)
    ensures Render(AI_PATTERN, [c]) == "AI: " + c
  {
    var p, caps := AI_PATTERN, [c];
    assert RenderFixed(p.after) == "";
    assert p.pieces[1..] == [] && caps[1..] == [];
    assert RenderPieces(p.pieces[0..], p.after, caps[0..]) == "AI: " + c by {
      assert p.pieces[0..][0] == p.pieces[0] && caps[0..][0] == caps[0];
      assert p.pieces[0..][1..] == p.pieces[1..] && caps[0..][1..] == caps[1..];
      assert RenderFixed(p.pieces[0].before) == "AI: " by {
        assert p.pieces[0].before[1..] == [Space];
        assert p.pieces[0].before[1..][1..] == [];
      }
    }
    assert p.pieces[0..] == p.pieces && caps[0..] == caps;
  }

  lemma RttPktText(c0: string, c1: string)
    ensures Render(RTT_PKT_PATTERN, [c0, c1]) == "PktLoss: " + c0 + ("/100, Rtt: " + c1)
  {
    var p, caps := RTT_PKT_PATTERN, [c0, c1];
    assert RenderFixed(p.after) == "";
    assert p.pieces[2..] == [] && caps[2..] == [];
    assert RenderPieces(p.pieces[1..], p.after, caps[1..]) == "/100, Rtt: " + c1 by {
      assert p.pieces[1..][0] == p.pieces[1] && caps[1..][0] == caps[1];
      assert p.pieces[1..][1..] == p.pieces[2..] && caps[1..][1..] == caps[2..];
      assert RenderFixed(p.pieces[1].before) == "/100, Rtt: " by {
        assert p.pieces[1].before[1..] == [Space, Lit("Rtt:"), Space];
        assert p.pieces[1].before[1..][1..] == [Lit("Rtt:"), Space];
        assert p.pieces[1].before[1..][1..][1..] == [Space];
        assert p.pieces[1].before[1..][1..][1..][1..] == [];
      }
    }
    assert RenderPieces(p.pieces[0..], p.after, caps[0..]) == "PktLoss: " + c0 + ("/100, Rtt: " + c1) by {
      assert p.pieces[0..][0] == p.pieces[0] && caps[0..][0] == caps[0];
      assert p.pieces[0..][1..] == p.pieces[1..] && caps[0..][1..] == caps[1..];
      assert RenderFixed(p.pieces[0].before) == "PktLoss: " by {
        assert p.pieces[0].before[1..] == [Space];
        assert p.pieces[0].before[1..][1..] == [];
      }
    }
    assert p.pieces[0..] == p.pieces && caps[0..] == caps;
  }

  lemma VehText(c0: string, c1: string)
    ensures Render(VEH_PATTERN, [c0, c1]) == "Veh: " + c0 + (" (" + c1 + ")")
  {
    var p, caps := VEH_PATTERN, [c0, c1];
    assert RenderFixed(p.after) == ")" by {
      assert p.after[1..] == [];
    }
    assert p.pieces[2..] == [] && caps[2..] == [];
    assert RenderPieces(p.pieces[1..], p.after, caps[1..]) == " (" + c1 + ")" by {
      assert p.pieces[1..][0] == p.pieces[1] && caps[1..][0] == caps[1];
      assert p.pieces[1..][1..] == p.pieces[2..] && caps[1..][1..] == caps[2..];
      assert RenderFixed(p.pieces[1].before) == " (" by {
        assert p.pieces[1].before[1..] == [Lit("(")];
        assert p.pieces[1].before[1..][1..] == [];
      }
    }
    assert RenderPieces(p.pieces[0..], p.after, caps[0..]) == "Veh: " + c0 + (" (" + c1 + ")") by {
      assert p.pieces[0..][0] == p.pieces[0] && caps[0..][0] == caps[0];
      assert p.pieces[0..][1..] == p.pieces[1..] && caps[0..][1..] == caps[1..];
      assert RenderFixed(p.pieces[0].before) == "Veh: " by {
        assert p.pieces[0].before[1..] == [Space];
        assert p.pieces[0].before[1..][1..] == [];
      }
    }
    assert p.pieces[0..] == p.pieces && caps[0..] == caps;
  }

  /** The last two pieces of the projectile line. */
  lemma ProjTailText(c0: string, c1: string, c2: string, c3: string)
    ensures var p, caps := PROJ_PATTERN, [c0, c1, c2, c3];
      RenderPieces(p.pieces[2..], p.after, caps[2..]) == ", G: " + c2 + (" | " + c3 + ")")
  {
    var p, caps := PROJ_PATTERN, [c0, c1, c2, c3];
    assert RenderFixed(p.after) == ")" by {
      assert p.after[1..] == [];
    }
    assert p.pieces[4..] == [] && caps[4..] == [];
    assert RenderPieces(p.pieces[3..], p.after, caps[3..]) == " | " + c3 + ")" by {
      assert p.pieces[3..][0] == p.pieces[3] && caps[3..][0] == caps[3];
      assert p.pieces[3..][1..] == p.pieces[4..] && caps[3..][1..] == caps[4..];
      assert RenderFixed(p.pieces[3].before) == " | " by {
        assert p.pieces[3].before[1..] == [Lit("|"), Space];
        assert p.pieces[3].before[1..][1..] == [Space];
        assert p.pieces[3].before[1..][1..][1..] == [];
      }
    }
    assert RenderPieces(p.pieces[2..], p.after, caps[2..]) == ", G: " + c2 + (" | " + c3 + ")") by {
      assert p.pieces[2..][0] == p.pieces[2] && caps[2..][0] == caps[2];
      assert p.pieces[2..][1..] == p.pieces[3..] && caps[2..][1..] == caps[3..];
      assert RenderFixed(p.pieces[2].before) == ", G: " by {
        assert p.pieces[2].before[1..] == [Space, Lit("G:"), Space];
        assert p.pieces[2].before[1..][1..] == [Lit("G:"), Space];
        assert p.pieces[2].before[1..][1..][1..] == [Space];
        assert p.pieces[2].before[1..][1..][1..][1..] == [];
      }
    }
  }

  lemma ProjText(c0: string, c1: string, c2: string, c3: string)
    ensures Render(PROJ_PATTERN, [c0, c1, c2, c3]) == "Proj (S: " + c0 + (", M: " + c1 + (", G: " + c2 + (" | " + c3 + ")")))
  {
    var p, caps := PROJ_PATTERN, [c0, c1, c2, c3];
    ProjTailText(c0, c1, c2, c3);
    assert RenderPieces(p.pieces[1..], p.after, caps[1..]) == ", M: " + c1 + (", G: " + c2 + (" | " + c3 + ")")) by {
      assert p.pieces[1..][0] == p.pieces[1] && caps[1..][0] == caps[1];
      assert p.pieces[1..][1..] == p.pieces[2..] && caps[1..][1..] == caps[2..];
      assert RenderFixed(p.pieces[1].before) == ", M: " by {
        assert p.pieces[1].before[1..] == [Space, Lit("M:"), Space];
        assert p.pieces[1].before[1..][1..] == [Lit("M:"), Space];
        assert p.pieces[1].before[1..][1..][1..] == [Space];
        assert p.pieces[1].before[1..][1..][1..][1..] == [];
      }
    }
    assert RenderPieces(p.pieces[0..], p.after, caps[0..]) == "Proj (S: " + c0 + (", M: " + c1 + (", G: " + c2 + (" | " + c3 + ")"))) by {
      assert p.pieces[0..][0] == p.pieces[0] && caps[0..][0] == caps[0];
      assert p.pieces[0..][1..] == p.pieces[1..] && caps[0..][1..] == caps[1..];
      assert RenderFixed(p.pieces[0].before) == "Proj (S: " by {
        assert p.pieces[0].before[1..] == [Space, Lit("(S:"), Space];
        assert p.pieces[0].before[1..][1..] == [Lit("(S:"), Space];
        assert p.pieces[0].before[1..][1..][1..] == [Space];
        assert p.pieces[0].before[1..][1..][1..][1..] == [];
      }
    }
    assert p.pieces[0..] == p.pieces && caps[0..] == caps;
  }

  /** The last two pieces of the streaming line. */
  lemma StreamingLastText(c3: string, c4: string, c5: string)
    ensures var p, caps := STREAMING_PATTERN, ["", "", "", c3, c4, c5];
      RenderPieces(p.pieces[4..], p.after, caps[4..]) == ", Del: " + c4 + (", Bump: " + c5 + ")")
  {
    var p, caps := STREAMING_PATTERN, ["", "", "", c3, c4, c5];
    assert RenderFixed(p.after) == ")" by {
      assert p.after[1..] == [];
    }
    assert p.pieces[6..] == [] && caps[6..] == [];
    assert RenderPieces(p.pieces[5..], p.after, caps[5..]) == ", Bump: " + c5 + ")" by {
      assert p.pieces[5..][0] == p.pieces[5] && caps[5..][0] == caps[5];
      assert p.pieces[5..][1..] == p.pieces[6..] && caps[5..][1..] == caps[6..];
      assert RenderFixed(p.pieces[5].before) == ", Bump: " by {
        assert p.pieces[5].before[1..] == [Space, Lit("Bump:"), Space];
        assert p.pieces[5].before[1..][1..] == [Lit("Bump:"), Space];
        assert p.pieces[5].before[1..][1..][1..] == [Space];
        assert p.pieces[5].before[1..][1..][1..][1..] == [];
      }
    }
    assert RenderPieces(p.pieces[4..], p.after, caps[4..]) == ", Del: " + c4 + (", Bump: " + c5 + ")") by {
      assert p.pieces[4..][0] == p.pieces[4] && caps[4..][0] == caps[4];
      assert p.pieces[4..][1..] == p.pieces[5..] && caps[4..][1..] == caps[5..];
      assert RenderFixed(p.pieces[4].before) == ", Del: " by {
        assert p.pieces[4].before[1..] == [Space, Lit("Del:"), Space];
        assert p.pieces[4].before[1..][1..] == [Lit("Del:"), Space];
        assert p.pieces[4].before[1..][1..][1..] == [Space];
        assert p.pieces[4].before[1..][1..][1..][1..] == [];
      }
    }
  }

  /** The last three pieces of the streaming line. */
  lemma StreamingTailText(c3: string, c4: string, c5: string)
    ensures RenderPieces(STREAMING_PATTERN.pieces[3..], STREAMING_PATTERN.after, [c3, c4, c5]) ==
      " | New: " + c3 + (", Del: " + c4 + (", Bump: " + c5 + ")"))
  {
    var p, caps := STREAMING_PATTERN, ["", "", "", c3, c4, c5];
    StreamingLastText(c3, c4, c5);
    assert RenderPieces(p.pieces[3..], p.after, caps[3..]) == " | New: " + c3 + (", Del: " + c4 + (", Bump: " + c5 + ")")) by {
      assert p.pieces[3..][0] == p.pieces[3] && caps[3..][0] == caps[3];
      assert p.pieces[3..][1..] == p.pieces[4..] && caps[3..][1..] == caps[4..];
      assert RenderFixed(p.pieces[3].before) == " | New: " by {
        assert p.pieces[3].before[1..] == [Lit("|"), Space, Lit("New:"), Space];
        assert p.pieces[3].before[1..][1..] == [Space, Lit("New:"), Space];
        assert p.pieces[3].before[1..][1..][1..] == [Lit("New:"), Space];
        assert p.pieces[3].before[1..][1..][1..][1..] == [Space];
        assert p.pieces[3].before[1..][1..][1..][1..][1..] == [];
      }
    }
    assert caps[3..] == [c3, c4, c5];
  }

  /** The streaming line from its second piece on. */
  lemma StreamingMidText(c0: string, c1: string, c2: string, c3: string, c4: string, c5: string)
    ensures var p, caps := STREAMING_PATTERN, [c0, c1, c2, c3, c4, c5];
      RenderPieces(p.pieces[1..], p.after, caps[1..]) == ", Static: " + c1 + (", Disabled: " + c2 + (" | New: " + c3 + (", Del: " + c4 + (", Bump: " + c5 + ")"))))
  {
    var p, caps := STREAMING_PATTERN, [c0, c1, c2, c3, c4, c5];
    StreamingTailText(c3, c4, c5);
    assert caps[3..] == [c3, c4, c5];
    assert RenderPieces(p.pieces[2..], p.after, caps[2..]) == ", Disabled: " + c2 + (" | New: " + c3 + (", Del: " + c4 + (", Bump: " + c5 + ")"))) by {
      assert p.pieces[2..][0] == p.pieces[2] && caps[2..][0] == caps[2];
      assert p.pieces[2..][1..] == p.pieces[3..] && caps[2..][1..] == caps[3..];
      assert RenderFixed(p.pieces[2].before) == ", Disabled: " by {
        assert p.pieces[2].before[1..] == [Space, Lit("Disabled:"), Space];
        assert p.pieces[2].before[1..][1..] == [Lit("Disabled:"), Space];
        assert p.pieces[2].before[1..][1..][1..] == [Space];
        assert p.pieces[2].before[1..][1..][1..][1..] == [];
      }
    }
    assert RenderPieces(p.pieces[1..], p.after, caps[1..]) == ", Static: " + c1 + (", Disabled: " + c2 + (" | New: " + c3 + (", Del: " + c4 + (", Bump: " + c5 + ")")))) by {
      assert p.pieces[1..][0] == p.pieces[1] && caps[1..][0] == caps[1];
      assert p.pieces[1..][1..] == p.pieces[2..] && caps[1..][1..] == caps[2..];
      assert RenderFixed(p.pieces[1].before) == ", Static: " by {
        assert p.pieces[1].before[1..] == [Space, Lit("Static:"), Space];
        assert p.pieces[1].before[1..][1..] == [Lit("Static:"), Space];
        assert p.pieces[1].before[1..][1..][1..] == [Space];
        assert p.pieces[1].before[1..][1..][1..][1..] == [];
      }
    }
  }

  lemma StreamingText(c0: string, c1: string, c2: string, c3: string, c4: string, c5: string)
    ensures Render(STREAMING_PATTERN, [c0, c1, c2, c3, c4, c5]) == "Streaming(Dynam: " + c0 + (", Static: " + c1 + (", Disabled: " + c2 + (" | New: " + c3 + (", Del: " + c4 + (", Bump: " + c5 + ")")))))
  {
    var p, caps := STREAMING_PATTERN, [c0, c1, c2, c3, c4, c5];
    StreamingMidText(c0, c1, c2, c3, c4, c5);
    assert RenderPieces(p.pieces[0..], p.after, caps[0..]) == "Streaming(Dynam: " + c0 + (", Static: " + c1 + (", Disabled: " + c2 + (" | New: " + c3 + (", Del: " + c4 + (", Bump: " + c5 + ")"))))) by {
      assert p.pieces[0..][0] == p.pieces[0] && caps[0..][0] == caps[0];
      assert p.pieces[0..][1..] == p.pieces[1..] && caps[0..][1..] == caps[1..];
      assert RenderFixed(p.pieces[0].before) == "Streaming(Dynam: " by {
        assert p.pieces[0].before[1..] == [Space];
        assert p.pieces[0].before[1..][1..] == [];
      }
    }
    assert p.pieces[0..] == p.pieces && caps[0..] == caps;
  }

  // Round trips: each extractor reads back the numbers a log line was written with, wherever
  // the pattern's text stands in the line. `pre` is what the console writes before it (a
  // timestamp, a category) and `post` what follows; the pattern must not match earlier in the
  // line, and a pattern ending in a run must not be followed by a character of that run.

  /** The FPS pattern reads back the capture it was written with and parses it. */
  lemma FpsCapture(pre: string, c: string, post: string)
    requires c != [] && DigitsAndDots(c)
    requires NoMatchBefore(pre + ("FPS: " + c) + post, FPS_PATTERN, |pre|)
    requires post == [] || !InClass(post[0], DigitsOrDots)
    ensures Fps(pre + ("FPS: " + c) + post) == Some(ParseDecimal(c).GetOr(0.0))
  {
    assert AllInClass(c, DigitsOrDots);
    FpsText(c);
    PatternsDelimited();
    FindSubmatchEmbedded(FPS_PATTERN, [c], pre, post);
  }

  /** A whole-number frame rate is read back as that number. */
  lemma FpsRendered(pre: string, n: nat, post: string)
    requires NoMatchBefore(pre + ("FPS: " + NatToString(n)) + post, FPS_PATTERN, |pre|)
    requires post == [] || !InClass(post[0], DigitsOrDots)
    ensures Fps(pre + ("FPS: " + NatToString(n)) + post) == Some(n as real)
  {
    var c := NatToString(n);
    ParseNatToString(n);
    assert DigitsAndDots(c) by {
      assert forall k | 0 <= k < |c| :: IsDigit(c[k]);
    }
    FpsCapture(pre, c, post);
  }

  /** `FPS: 12.5` is read as 12.5 and `FPS: .5` as 0.5: the digits after the dot are tenths,
      hundredths, ... */
  lemma FpsDecimalRendered(pre: string, w: string, f: string, post: string)
    requires AllDigits(w) && AllDigits(f) && (w != [] || f != [])
    requires NoMatchBefore(pre + ("FPS: " + (w + "." + f)) + post, FPS_PATTERN, |pre|)
    requires post == [] || !InClass(post[0], DigitsOrDots)
    ensures Fps(pre + ("FPS: " + (w + "." + f)) + post) == Some(DecimalValue(w, f))
  {
    ParseDecimalWholeAndFraction(w, f);
    FpsCapture(pre, w + "." + f, post);
  }

  /** A capture ParseFloat rejects (no digit at all, or more than one dot) still overwrites
      FPS, with 0. */
  lemma FpsUnparsable(pre: string, c: string, post: string)
    requires c != [] && DigitsAndDots(c)
    requires !HasDigit(c) || multiset(c)['.'] > 1
    requires NoMatchBefore(pre + ("FPS: " + c) + post, FPS_PATTERN, |pre|)
    requires post == [] || !InClass(post[0], DigitsOrDots)
    ensures Fps(pre + ("FPS: " + c) + post) == Some(0.0)
  {
    FpsCapture(pre, c, post);
  }

  lemma PlayersRendered(pre: string, n: nat, post: string)
    requires NoMatchBefore(pre + ("Player: " + NatToString(n)) + post, PLAYER_PATTERN, |pre|)
    requires post == [] || !IsDigit(post[0])
    ensures Players(pre + ("Player: " + NatToString(n)) + post) == Some(n)
  {
    PlayerText(NatToString(n));
    PatternsDelimited();
    FindSubmatchEmbedded(PLAYER_PATTERN, [NatToString(n)], pre, post);
    ParseNatToString(n);
  }

  lemma AiRendered(pre: string, n: nat, post: string)
    requires NoMatchBefore(pre + ("AI: " + NatToString(n)) + post, AI_PATTERN, |pre|)
    requires post == [] || !IsDigit(post[0])
    ensures Ai(pre + ("AI: " + NatToString(n)) + post) == Some(n)
  {
    AiText(NatToString(n));
    PatternsDelimited();
    FindSubmatchEmbedded(AI_PATTERN, [NatToString(n)], pre, post);
    ParseNatToString(n);
  }

  /** The first capture is the packet loss, the second the round-trip time. */
  lemma RttSampleRendered(pre: string, loss: nat, rtt: nat, post: string)
    requires NoMatchBefore(pre + ("PktLoss: " + NatToString(loss) + ("/100, Rtt: " + NatToString(rtt))) + post,
      RTT_PKT_PATTERN, |pre|)
    requires post == [] || !IsDigit(post[0])
    ensures RttSample(pre + ("PktLoss: " + NatToString(loss) + ("/100, Rtt: " + NatToString(rtt))) + post) ==
      Some((loss, rtt))
  {
    RttPktText(NatToString(loss), NatToString(rtt));
    PatternsDelimited();
    FindSubmatchEmbedded(RTT_PKT_PATTERN, [NatToString(loss), NatToString(rtt)], pre, post);
    ParseNatToString(loss);
    ParseNatToString(rtt);
  }

  lemma VehiclesRendered(pre: string, a: nat, b: nat, post: string)
    requires NoMatchBefore(pre + ("Veh: " + NatToString(a) + (" (" + NatToString(b) + ")")) + post,
      VEH_PATTERN, |pre|)
    ensures Vehicles(pre + ("Veh: " + NatToString(a) + (" (" + NatToString(b) + ")")) + post) == Some((a, b))
  {
    VehText(NatToString(a), NatToString(b));
    PatternsDelimited();
    FindSubmatchEmbedded(VEH_PATTERN, [NatToString(a), NatToString(b)], pre, post);
    ParseNatToString(a);
    ParseNatToString(b);
  }

  lemma ProjectilesRendered(pre: string, s: nat, m: nat, g: nat, t: nat, post: string)
    requires NoMatchBefore(pre + ("Proj (S: " + NatToString(s) + (", M: " + NatToString(m) +
      (", G: " + NatToString(g) + (" | " + NatToString(t) + ")")))) + post, PROJ_PATTERN, |pre|)
    ensures Projectiles(pre + ("Proj (S: " + NatToString(s) + (", M: " + NatToString(m) +
      (", G: " + NatToString(g) + (" | " + NatToString(t) + ")")))) + post) == Some((s, m, g, t))
  {
    ProjText(NatToString(s), NatToString(m), NatToString(g), NatToString(t));
    PatternsDelimited();
    FindSubmatchEmbedded(PROJ_PATTERN, [NatToString(s), NatToString(m), NatToString(g), NatToString(t)], pre, post);
    ParseNatToString(s);
    ParseNatToString(m);
    ParseNatToString(g);
    ParseNatToString(t);
  }

  /** The streaming line as the console writes it. */
  function StreamingLine(dynam: nat, stat: nat, disabled: nat, created: nat, deleted: nat, bump: nat): string {
    "Streaming(Dynam: " + NatToString(dynam) + (", Static: " + NatToString(stat) +
      (", Disabled: " + NatToString(disabled) + (" | New: " + NatToString(created) + (", Del: " + NatToString(deleted) +
      (", Bump: " + NatToString(bump) + ")")))))
  }

  lemma StreamingRendered(pre: string, dynam: nat, stat: nat, disabled: nat, created: nat, deleted: nat, bump: nat,
                          post: string)
    requires NoMatchBefore(pre + StreamingLine(dynam, stat, disabled, created, deleted, bump) + post,
      STREAMING_PATTERN, |pre|)
    ensures Streaming(pre + StreamingLine(dynam, stat, disabled, created, deleted, bump) + post) ==
      Some((dynam, stat, disabled, created, deleted, bump))
  {
    var caps := [NatToString(dynam), NatToString(stat), NatToString(disabled),
                 NatToString(created), NatToString(deleted), NatToString(bump)];
    StreamingText(caps[0], caps[1], caps[2], caps[3], caps[4], caps[5]);
    PatternsDelimited();
    FindSubmatchEmbedded(STREAMING_PATTERN, caps, pre, post);
    ParseNatToString(dynam);
    ParseNatToString(stat);
    ParseNatToString(disabled);
    ParseNatToString(created);
    ParseNatToString(deleted);
    ParseNatToString(bump);
  }
}
