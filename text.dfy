/** Characters, literal search and number parsing on one log line.
    A line is a `string`; each element stands for one byte of the log file. */
module Text {

  datatype Option<+T> = None | Some(value: T) {
    function GetOr(default: T): T {
      match this
      case Some(v) => v
      case None => default
    }
  }

  /** Go's `\s`: tab, newline, form feed, carriage return and space. */
  predicate IsSpace(c: char) {
    c == '\t' || c == '\n' || c == 12 as char || c == '\r' || c == ' '
  }

  predicate IsDigit(c: char) {
    '0' <= c <= '9'
  }

  /** `[0-9A-F]`: only upper-case hex letters. */
  predicate IsUpperHex(c: char) {
    IsDigit(c) || 'A' <= c <= 'F'
  }

  predicate AllDigits(s: string) {
    forall k | 0 <= k < |s| :: IsDigit(s[k])
  }

  /** `lit` occurs in `s` at index `i`. */
  predicate OccursAt(s: string, i: nat, lit: string) {
    i + |lit| <= |s| && s[i..i + |lit|] == lit
  }

  /** The leftmost occurrence of `lit` in `s` at or after `from`. */
  function IndexFrom(s: string, lit: string, from: nat): (r: Option<nat>)
    decreases |s| - from
    ensures r.Some? ==> from <= r.value && OccursAt(s, r.value, lit)
    ensures r.Some? ==> forall k | from <= k < r.value :: !OccursAt(s, k, lit)
    ensures r.None? ==> forall k | from <= k :: !OccursAt(s, k, lit)
  {
    if |s| < from + |lit| then None
    else if OccursAt(s, from, lit) then Some(from)
    else IndexFrom(s, lit, from + 1)
  }

  /** An unanchored literal match, as `regexp.MatchString` on a pattern without metacharacters. */
  predicate Contains(s: string, lit: string) {
    IndexFrom(s, lit, 0).Some?
  }

  lemma ContainsIff(s: string, lit: string)
    ensures Contains(s, lit) <==> exists i: nat :: OccursAt(s, i, lit)
  {
  }

  function DigitValue(c: char): (d: nat)
    requires IsDigit(c)
    ensures d < 10
  {
    (c as int - '0' as int) as nat
  }

  function DigitChar(d: nat): (c: char)
    requires d < 10
    ensures IsDigit(c) && DigitValue(c) == d
  {
    ('0' as int + d) as char
  }

  /** `strconv.Atoi` on a run of decimal digits (leading zeros allowed, no bound). */
  function ParseNat(s: string): nat
    requires AllDigits(s)
  {
    if s == [] then 0 else 10 * ParseNat(s[..|s| - 1]) + DigitValue(s[|s| - 1])
  }

  /** The decimal rendering of `n`, without leading zeros. */
  function NatToString(n: nat): (s: string)
    ensures AllDigits(s) && 0 < |s|
    ensures |s| > 1 ==> s[0] != '0'
  {
    if n < 10 then [DigitChar(n)] else NatToString(n / 10) + [DigitChar(n % 10)]
  }

  lemma {:induction false} ParseNatToString(n: nat)
    ensures ParseNat(NatToString(n)) == n
  {
    var s := NatToString(n);
    if n >= 10 {
      ParseNatToString(n / 10);
      assert s[..|s| - 1] == NatToString(n / 10);
    }
  }

  /** Leading zeros do not change the value `strconv.Atoi` gives a digit run. */
  lemma {:induction false} ParseNatLeadingZero(s: string)
    requires AllDigits(s)
    ensures AllDigits("0" + s) && ParseNat("0" + s) == ParseNat(s)
  {
    var t := "0" + s;
    if s != [] {
      assert t[..|t| - 1] == "0" + s[..|s| - 1];
      ParseNatLeadingZero(s[..|s| - 1]);
    }
  }

  function Pow10(k: nat): (p: nat)
    ensures p >= 1
  {
    if k == 0 then 1 else 10 * Pow10(k - 1)
  }

  predicate DigitsAndDots(s: string) {
    forall k | 0 <= k < |s| :: IsDigit(s[k]) || s[k] == '.'
  }

  predicate HasDigit(s: string) {
    exists k | 0 <= k < |s| :: IsDigit(s[k])
  }

  /** On text of digits and dots, having no dot is having only digits. */
  lemma DigitsWithoutDots(s: string)
    requires DigitsAndDots(s)
    ensures AllDigits(s) <==> multiset(s)['.'] == 0
  {
    if !AllDigits(s) {
      var k :| 0 <= k < |s| && !IsDigit(s[k]);
      assert s[k] in multiset(s);
    }
  }

  /** A one-character literal first occurs where that character first appears. */
  lemma {:induction false} FirstChar(s: string, c: char, from: nat, d: nat)
    requires IndexFrom(s, [c], from) == Some(d)
    ensures d < |s| && s[d] == c
    ensures forall k | from <= k < d :: s[k] != c
    decreases |s| - from
  {
    assert s[from..from + 1][0] == s[from];
    if d != from {
      FirstChar(s, c, from + 1, d);
    }
  }

  /** Cutting `s` at its first dot leaves digits before it. */
  lemma SplitAtFirstDot(s: string, d: nat)
    requires DigitsAndDots(s) && IndexFrom(s, ".", 0) == Some(d)
    ensures d < |s| && s[d] == '.'
    ensures AllDigits(s[..d]) && DigitsAndDots(s[d + 1..])
    ensures multiset(s)['.'] == 1 + multiset(s[d + 1..])['.']
  {
    FirstChar(s, '.', 0, d);
    assert AllDigits(s[..d]);
    SplitDots(s, d);
  }

  lemma SplitDots(s: string, d: nat)
    requires DigitsAndDots(s) && d < |s| && s[d] == '.' && AllDigits(s[..d])
    ensures DigitsAndDots(s[d + 1..])
    ensures multiset(s)['.'] == 1 + multiset(s[d + 1..])['.']
  {
    var whole, frac := s[..d], s[d + 1..];
    assert s == whole + "." + frac;
    DigitsWithoutDots(whole);
    assert multiset(s) == multiset(whole) + multiset(".") + multiset(frac);
  }

  /** The exact value of the decimal numeral `whole.frac`. */
  function DecimalValue(whole: string, frac: string): real
    requires AllDigits(whole) && AllDigits(frac)
  {
    ParseNat(whole) as real + ParseNat(frac) as real / Pow10(|frac|) as real
  }

  /** `strconv.ParseFloat(s, 64)` on text matched by `[0-9.]+`, as an exact decimal:
      `None` is the syntax error Go reports. */
  function ParseDecimal(s: string): (r: Option<real>)
    requires DigitsAndDots(s)
    ensures r.Some? <==> multiset(s)['.'] <= 1 && HasDigit(s)
    ensures AllDigits(s) && s != [] ==> r == Some(ParseNat(s) as real)
  {
    match IndexFrom(s, ".", 0)
    case None =>
      assert AllDigits(s) by {
        forall k | 0 <= k < |s| ensures IsDigit(s[k]) {
          assert !OccursAt(s, k, ".");
          assert s[k..k + 1] == [s[k]];
        }
      }
      DigitsWithoutDots(s);
      if s == [] then None else assert IsDigit(s[0]); Some(ParseNat(s) as real)
    case Some(d) =>
      SplitAtFirstDot(s, d);
      var whole, frac := s[..d], s[d + 1..];
      DigitsWithoutDots(frac);
      if !AllDigits(frac) then
        None
      else if whole == [] && frac == [] then
        assert s == ".";
        None
      else
        assert HasDigit(s) by {
          if whole != [] { assert IsDigit(s[0]); } else { assert IsDigit(s[d + 1]); }
        }
        Some(DecimalValue(whole, frac))
  }

  /** The leftmost occurrence is the one with no occurrence before it. */
  lemma IndexFromIs(s: string, lit: string, from: nat, d: nat)
    requires from <= d && OccursAt(s, d, lit)
    requires forall k | from <= k < d :: !OccursAt(s, k, lit)
    ensures IndexFrom(s, lit, from) == Some(d)
  {
  }

  lemma FirstDotAfterDigits(w: string, f: string)
    requires AllDigits(w) && AllDigits(f)
    ensures DigitsAndDots(w + "." + f)
    ensures IndexFrom(w + "." + f, ".", 0) == Some(|w|)
    ensures (w + "." + f)[..|w|] == w && (w + "." + f)[|w| + 1..] == f
  {
    var c := w + "." + f;
    assert OccursAt(c, |w|, ".") by {
      assert c[|w|..|w| + 1] == [c[|w|]];
    }
    assert forall k | 0 <= k < |w| :: !OccursAt(c, k, ".") by {
      forall k: nat | k < |w| ensures !OccursAt(c, k, ".") {
        assert c[k] == w[k] && IsDigit(c[k]);
        assert c[k..k + 1][0] == c[k];
      }
    }
    IndexFromIs(c, ".", 0, |w|);
    assert c[..|w|] == w && c[|w| + 1..] == f;
    DigitsDotDigits(w, f);
  }

  lemma DigitsDotDigits(w: string, f: string)
    requires AllDigits(w) && AllDigits(f)
    ensures DigitsAndDots(w + "." + f)
  {
    var wd := w + ".";
    assert DigitsAndDots(wd) by {
      forall k | 0 <= k < |wd| ensures IsDigit(wd[k]) || wd[k] == '.' {
        if k < |w| {
          assert wd[k] == w[k];
        }
      }
    }
    forall k | 0 <= k < |wd + f| ensures IsDigit((wd + f)[k]) || (wd + f)[k] == '.' {
      if k < |wd| {
        assert (wd + f)[k] == wd[k];
      } else {
        assert (wd + f)[k] == f[k - |wd|];
      }
    }
  }

  /** A number written with a dot is its whole part plus its fraction digits scaled down. */
  lemma ParseDecimalWholeAndFraction(w: string, f: string)
    requires AllDigits(w) && AllDigits(f) && (w != [] || f != [])
    ensures DigitsAndDots(w + "." + f)
    ensures ParseDecimal(w + "." + f) == Some(DecimalValue(w, f))
  {
    var c := w + "." + f;
    FirstDotAfterDigits(w, f);
    SplitAtFirstDot(c, |w|);
    assert c[..|w|] == w && c[|w| + 1..] == f;
  }
}
