/**
 * How both race lists render a finish time given in minutes:
 * `${Math.floor(t / 60)}:${String(t % 60).padStart(2, '0')}`, with JavaScript's
 * integer-to-string, truncating `%` and `padStart` written out, and a reader
 * for the "H:MM" text that undoes it.
 */
module FinishTime {
  import opened Wrappers

  predicate IsDigit(c: char)
  {
    '0' <= c <= '9'
  }

  function DigitChar(d: nat): (c: char)
    requires d < 10
    ensures IsDigit(c)
  {
    (48 + d) as char
  }

  function DigitValue(c: char): (d: nat)
    requires IsDigit(c)
    ensures d < 10
  {
    c as int - 48
  }

  /** `String(n)` for a non-negative integer: its decimal digits, without leading zeros. */
  function Decimal(n: nat): (s: string)
    ensures |s| > 0 && forall i :: 0 <= i < |s| ==> IsDigit(s[i])
    ensures |s| == 1 <==> n < 10
  {
    if n < 10 then [DigitChar(n)] else Decimal(n / 10) + [DigitChar(n % 10)]
  }

  /** `String(i)` for any integer. */
  function IntString(i: int): string
  {
    if i < 0 then "-" + Decimal(-i) else Decimal(i)
  }

  /** `s.padStart(2, '0')`: zeros in front up to length 2. */
  function PadStart2(s: string): string
  {
    if |s| >= 2 then s else if |s| == 1 then "0" + s else "00"
  }

  /** JavaScript's `a % b` for b > 0: the remainder carries the sign of a. */
  function JsRemainder(a: int, b: int): int
    requires b > 0
  {
    if a >= 0 then a % b else -((-a) % b)
  }

  /**
   * The rendered finish time. Dafny's `/` on a positive divisor rounds down,
   * as `Math.floor(t / 60)` does.
   */
  function FormatFinishTime(t: int): string
  {
    IntString(t / 60) + ":" + PadStart2(IntString(JsRemainder(t, 60)))
  }

  // ---------------------------------------------------------------------------
  // Reading the text back

  /** A non-empty run of decimal digits, read as a number. */
  function ParseDigits(s: string): Option<nat>
  {
    if s == [] || !IsDigit(s[|s| - 1]) then None
    else if |s| == 1 then Some(DigitValue(s[0]))
    else match ParseDigits(s[..|s| - 1])
      case None => None
      case Some(v) => Some(10 * v + DigitValue(s[|s| - 1]))
  }

  /** The text before and after the first ':'. */
  function SplitAtColon(s: string): Option<(string, string)>
  {
    if s == [] then None
    else if s[0] == ':' then Some(([], s[1..]))
    else match SplitAtColon(s[1..])
      case None => None
      case Some((h, m)) => Some(([s[0]] + h, m))
  }

  /** "H:MM" back to minutes: decimal hours, ':', then exactly two digits below 60. */
  function ParseFinishTime(s: string): Option<int>
  {
    match SplitAtColon(s)
    case None => None
    case Some((h, m)) =>
      if |m| != 2 then None
      else match (ParseDigits(h), ParseDigits(m))
        case (Some(hours), Some(minutes)) => if minutes < 60 then Some(60 * hours + minutes) else None
        case _ => None
  }

  lemma {:induction false} DecimalRoundTrip(n: nat)
    ensures ParseDigits(Decimal(n)) == Some(n)
  {
    if n >= 10 {
      var s := Decimal(n);
      assert s[..|s| - 1] == Decimal(n / 10);
      DecimalRoundTrip(n / 10);
    }
  }

  lemma {:induction false} SplitAfterDigits(h: string, m: string)
    requires forall i :: 0 <= i < |h| ==> IsDigit(h[i])
    ensures SplitAtColon(h + ":" + m) == Some((h, m))
  {
    if h == [] {
      assert h + ":" + m == [':'] + m;
    } else {
      assert (h + ":" + m)[1..] == h[1..] + ":" + m;
      SplitAfterDigits(h[1..], m);
      assert [h[0]] + h[1..] == h;
    }
  }

  /** The minutes field of a time t >= 0: two digits that read as t mod 60. */
  lemma MinutesFieldRoundTrip(m: nat)
    requires m < 60
    ensures |PadStart2(IntString(m))| == 2
    ensures ParseDigits(PadStart2(IntString(m))) == Some(m)
  {
    var d := Decimal(m);
    if m < 10 {
      var p := PadStart2(d);
      assert p == ['0', DigitChar(m)];
      assert p[..1] == ['0'];
    } else {
      DecimalRoundTrip(m);
    }
  }

  /** Reading back the text of a finish time t >= 0 gives t. */
  lemma FinishTimeRoundTrip(t: int)
    requires t >= 0
    ensures ParseFinishTime(FormatFinishTime(t)) == Some(t)
  {
    var h, m := t / 60, t % 60;
    assert JsRemainder(t, 60) == m;
    MinutesFieldRoundTrip(m);
    SplitAfterDigits(Decimal(h), PadStart2(IntString(m)));
    DecimalRoundTrip(h);
  }

  /**
   * The text of t >= 0 is the hours t / 60 in decimal, ':', then two digits
   * that read as t mod 60, which is below 60; so 60 * hours + minutes == t.
   */
  lemma FinishTimeFields(t: int)
    requires t >= 0
    ensures var s := FormatFinishTime(t);
      && |s| >= 4 && s[|s| - 3] == ':'
      && ParseDigits(s[..|s| - 3]) == Some(t / 60)
      && ParseDigits(s[|s| - 2..]) == Some(t % 60)
      && 0 <= t % 60 < 60 && 60 * (t / 60) + t % 60 == t
  {
    var h, m := t / 60, t % 60;
    assert JsRemainder(t, 60) == m;
    MinutesFieldRoundTrip(m);
    DecimalRoundTrip(h);
    var s := FormatFinishTime(t);
    assert s[..|s| - 3] == Decimal(h);
    assert s[|s| - 2..] == PadStart2(IntString(m));
  }

  /** Two different finish times t, u >= 0 never render the same. */
  lemma FormatFinishTimeInjective(t: int, u: int)
    requires t >= 0 && u >= 0 && FormatFinishTime(t) == FormatFinishTime(u)
    ensures t == u
  {
    FinishTimeRoundTrip(t);
    FinishTimeRoundTrip(u);
  }
}
