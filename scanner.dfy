/** Splitting the unread part of a log file into lines, as `bufio.Scanner` with its default
    `ScanLines` split function does for the loop at main.go:135-136. */
module LineScanner {
  import opened Text

  /** `dropCR`: one trailing carriage return is not part of the line. */
  function DropCR(t: string): (r: string)
    ensures |t| > 0 && t[|t| - 1] == '\r' ==> t == r + "\r"
    ensures !(|t| > 0 && t[|t| - 1] == '\r') ==> r == t
  {
    if |t| > 0 && t[|t| - 1] == '\r' then t[..|t| - 1] else t
  }

  /** `bytes.IndexByte(data, '\n')` on the text from `from` on: the first newline there. */
  function NewlineIndex(s: string, from: nat): (r: Option<nat>)
    decreases |s| - from
    ensures r.Some? ==> from <= r.value < |s| && s[r.value] == '\n'
  {
    if from >= |s| then None
    else if s[from] == '\n' then Some(from)
    else NewlineIndex(s, from + 1)
  }

  /** What `NewlineIndex` finds is a newline with none before it, and it finds one whenever
      there is one. */
  lemma {:induction false} NewlineIndexSpec(s: string, from: nat)
    ensures match NewlineIndex(s, from)
      case Some(i) => from <= i < |s| && s[i] == '\n' && forall k | from <= k < i :: s[k] != '\n'
      case None => forall k | from <= k < |s| :: s[k] != '\n'
    decreases |s| - from
  {
    if from < |s| && s[from] != '\n' {
      NewlineIndexSpec(s, from + 1);
    }
  }

  /** The first newline is where the text has one and none before it. */
  lemma {:induction false} NewlineIndexIs(s: string, from: nat, d: nat)
    requires from <= d < |s| && s[d] == '\n'
    requires forall k | from <= k < d :: s[k] != '\n'
    ensures NewlineIndex(s, from) == Some(d)
    decreases d - from
  {
    if from < d {
      NewlineIndexIs(s, from + 1, d);
    }
  }

  /** The lines `Scan` delivers for `s`, up to end of file: each newline ends a line, a final
      line without newline is delivered too, and nothing follows a final newline. */
  function Lines(s: string): seq<string>
    decreases |s|
  {
    if s == [] then []
    else
      match NewlineIndex(s, 0)
      case None => [DropCR(s)]
      case Some(i) => [DropCR(s[..i])] + Lines(s[i + 1..])
  }

  /** A line without any newline. */
  predicate SingleLine(l: string) {
    forall k | 0 <= k < |l| :: l[k] != '\n'
  }

  /** No delivered line holds a newline, and there are never more lines than characters. */
  lemma {:induction false} LinesAreSingle(s: string)
    ensures forall k | 0 <= k < |Lines(s)| :: SingleLine(Lines(s)[k])
    ensures |Lines(s)| <= |s|
    decreases |s|
  {
    if s != [] {
      NewlineIndexSpec(s, 0);
      match NewlineIndex(s, 0)
      case None =>
        assert SingleLine(DropCR(s));
      case Some(i) =>
        assert SingleLine(DropCR(s[..i]));
        LinesAreSingle(s[i + 1..]);
        var r := Lines(s);
        forall k | 0 <= k < |r| ensures SingleLine(r[k]) {
          if k > 0 {
            assert r[k] == Lines(s[i + 1..])[k - 1];
          }
        }
    }
  }

  /** A single line, in the sense of the `\n` literal pattern: `Contains` finds no newline in it. */
  lemma SingleLineNoNewline(l: string)
    ensures SingleLine(l) <==> !Contains(l, "\n")
  {
    if !SingleLine(l) {
      var k :| 0 <= k < |l| && l[k] == '\n';
      assert OccursAt(l, k, "\n") by {
        assert l[k..k + 1] == [l[k]];
      }
    } else {
      forall k: nat ensures !OccursAt(l, k, "\n") {
        if k + 1 <= |l| {
          assert l[k..k + 1][0] == l[k];
        }
      }
    }
  }

  /** The text a logger writes for `ls`, each line ended by `\n`, or by `\r\n` when `crlf`. */
  function JoinLines(ls: seq<string>, crlf: bool): string {
    if ls == [] then [] else ls[0] + (if crlf then "\r\n" else "\n") + JoinLines(ls[1..], crlf)
  }

  /** A line as a logger writes it: no newline inside, no carriage return at its end. */
  predicate WellFormedLine(l: string) {
    SingleLine(l) && (l == [] || l[|l| - 1] != '\r')
  }

  /** Extending the text after a newline does not move the first newline. */
  lemma NewlineIndexExtend(a: string, b: string, i: nat)
    requires NewlineIndex(a, 0) == Some(i)
    ensures NewlineIndex(a + b, 0) == Some(i)
  {
    NewlineIndexSpec(a, 0);
    assert (a + b)[i] == a[i];
    assert forall k | 0 <= k < i :: (a + b)[k] == a[k];
    NewlineIndexIs(a + b, 0, i);
  }

  /** Where the first line of a joined text ends. */
  lemma FirstNewline(l: string, crlf: bool)
    requires WellFormedLine(l)
    ensures var t := l + (if crlf then "\r\n" else "\n");
      NewlineIndex(t, 0) == Some(|t| - 1) && DropCR(t[..|t| - 1]) == l
  {
    var t := l + (if crlf then "\r\n" else "\n");
    assert forall k | 0 <= k < |t| - 1 :: t[k] != '\n';
    NewlineIndexIs(t, 0, |t| - 1);
    if crlf {
      assert t[..|t| - 1] == l + "\r";
      assert (l + "\r")[..|l|] == l;
    } else {
      assert t[..|t| - 1] == l;
    }
  }

  /** The first line ends at the first newline. */
  lemma LinesAtNewline(s: string, i: nat)
    requires NewlineIndex(s, 0) == Some(i)
    ensures Lines(s) == [DropCR(s[..i])] + Lines(s[i + 1..])
  {
  }

  /** Scanning a joined text delivers its first line, then scans the text of the others. */
  lemma JoinLinesStep(ls: seq<string>, crlf: bool)
    requires ls != [] && WellFormedLine(ls[0])
    ensures Lines(JoinLines(ls, crlf)) == [ls[0]] + Lines(JoinLines(ls[1..], crlf))
  {
    var rest := JoinLines(ls[1..], crlf);
    var t := ls[0] + (if crlf then "\r\n" else "\n");
    var s := JoinLines(ls, crlf);
    assert s == t + rest;
    assert NewlineIndex(s, 0) == Some(|t| - 1) && DropCR(s[..|t| - 1]) == ls[0] && s[|t|..] == rest by {
      FirstNewline(ls[0], crlf);
      NewlineIndexExtend(t, rest, |t| - 1);
      assert s[..|t| - 1] == t[..|t| - 1];
    }
    LinesAtNewline(s, |t| - 1);
  }

  /** Scanning what a logger wrote gives back its lines, whichever line ending it used. */
  lemma {:induction false} LinesJoinLines(ls: seq<string>, crlf: bool)
    requires forall k | 0 <= k < |ls| :: WellFormedLine(ls[k])
    ensures Lines(JoinLines(ls, crlf)) == ls
  {
    if ls != [] {
      JoinLinesStep(ls, crlf);
      var tail := ls[1..];
      assert forall k | 0 <= k < |tail| :: WellFormedLine(tail[k]) by {
        forall k | 0 <= k < |tail| ensures WellFormedLine(tail[k]) {
          assert tail[k] == ls[k + 1];
        }
      }
      LinesJoinLines(tail, crlf);
      assert ls == [ls[0]] + tail;
    }
  }

  /** Scanning past the first line of `a` is the same whether or not `b` follows `a`. */
  lemma FirstLineOfAppend(a: string, b: string, i: nat)
    requires NewlineIndex(a, 0) == Some(i)
    ensures Lines(a) == [DropCR(a[..i])] + Lines(a[i + 1..])
    ensures Lines(a + b) == [DropCR(a[..i])] + Lines(a[i + 1..] + b)
  {
    NewlineIndexExtend(a, b, i);
    assert (a + b)[..i] == a[..i];
    assert (a + b)[i + 1..] == a[i + 1..] + b;
    LinesAtNewline(a + b, i);
  }

  /** One step of `LinesAppend`: if scanning past the first line of `a` splits cleanly at the
      boundary, so does scanning all of `a`. */
  lemma AppendStep(a: string, b: string, i: nat)
    requires NewlineIndex(a, 0) == Some(i)
    requires Lines(a[i + 1..] + b) == Lines(a[i + 1..]) + Lines(b)
    ensures Lines(a + b) == Lines(a) + Lines(b)
  {
    FirstLineOfAppend(a, b, i);
    ConcatAssoc([DropCR(a[..i])], Lines(a[i + 1..]), Lines(b));
  }

  lemma ConcatAssoc<T>(x: seq<T>, y: seq<T>, z: seq<T>)
    ensures x + (y + z) == (x + y) + z
  {
  }

  /** When the first part ends on a line boundary, scanning it and then the rest gives the
      same lines as scanning everything at once. */
  lemma {:induction false} LinesAppend(a: string, b: string)
    requires a == [] || a[|a| - 1] == '\n'
    ensures Lines(a + b) == Lines(a) + Lines(b)
    decreases |a|
  {
    if a == [] {
      assert a + b == b;
    } else {
      match NewlineIndex(a, 0)
      case None =>
        NewlineIndexSpec(a, 0);
        assert false;
      case Some(i) =>
        LinesAppend(a[i + 1..], b);
        AppendStep(a, b, i);
    }
  }

  /** A single line without its newline. */
  lemma UnterminatedLine(l: string)
    requires l != [] && SingleLine(l) && l[|l| - 1] != '\r'
    ensures Lines(l) == [l]
  {
    NewlineIndexSpec(l, 0);
  }

  /** A single line with its newline. */
  lemma TerminatedLine(l: string)
    requires WellFormedLine(l)
    ensures Lines(l + "\n") == [l]
  {
    FirstNewline(l, false);
    var t := l + "\n";
    assert t[|t|..] == [];
  }

  /** A line still being written when a pass reaches end of file is delivered in two pieces:
      its start `a` in this pass, its end `c` as a line of its own in the next, where one
      scan of the finished text would have delivered `a + c`. */
  lemma PartialLineSplit(a: string, c: string)
    requires a != [] && c != [] && WellFormedLine(a) && WellFormedLine(c)
    ensures Lines(a) + Lines(c + "\n") == [a, c]
    ensures Lines(a + c + "\n") == [a + c]
  {
    UnterminatedLine(a);
    TerminatedLine(c);
    assert WellFormedLine(a + c) by {
      assert forall k | 0 <= k < |a + c| :: (a + c)[k] == if k < |a| then a[k] else c[k - |a|];
    }
    TerminatedLine(a + c);
  }
}
