/**
  `format_duration` of the backend (app.py): a duration in whole seconds rendered
  as `m:ss`, minutes unpadded and seconds zero-padded to two digits.

  Python's `//` and `%` floor; with the positive divisor 60 they agree with
  Dafny's Euclidean `/` and `%`, so a negative duration gives a negative minute
  count and a seconds part in 0..59 (`-1` renders as `-1:59`), exactly as Python does.

  `ParseDuration` is an independent reader of that format, used to state the
  round trip.
*/
module DurationFormat {
  import opened Wrappers

  predicate IsDigit(c: char) {
    '0' <= c <= '9'
  }

  predicate AllDigits(s: string) {
    forall i :: 0 <= i < |s| ==> IsDigit(s[i])
  }

  function DigitValue(c: char): (n: nat)
    requires IsDigit(c)
    ensures n < 10
  {
    c as int - '0' as int
  }

  function DigitChar(n: nat): (c: char)
    requires n < 10
    ensures IsDigit(c) && DigitValue(c) == n
  {
    ('0' as int + n) as char
  }

  /** The number a string of decimal digits denotes (the empty string denotes 0). */
  function DigitsValue(s: string): nat
    requires AllDigits(s)
  {
    if s == [] then 0 else 10 * DigitsValue(s[..|s| - 1]) + DigitValue(s[|s| - 1])
  }

  /**
    An integer written the way Python's `str` writes it: `"0"`, or digits not
    starting with `0`, optionally after a minus sign.
  */
  predicate Canonical(s: string) {
    || s == "0"
    || (|s| >= 1 && AllDigits(s) && s[0] != '0')
    || (|s| >= 2 && s[0] == '-' && AllDigits(s[1..]) && s[1] != '0')
  }

  /** Python's `str(n)` for a non-negative integer: no leading zero, one digit exactly below 10. */
  function NatToString(n: nat): (s: string)
    ensures |s| >= 1 && AllDigits(s)
    ensures s[0] == '0' <==> n == 0
    ensures |s| == 1 <==> n < 10
    decreases n
  {
    if n < 10 then [DigitChar(n)] else NatToString(n / 10) + [DigitChar(n % 10)]
  }

  /** Python's `str(i)` for any integer: a minus sign before the digits of a negative value. */
  function IntToString(i: int): (s: string)
    ensures |s| >= 1 && Canonical(s)
    ensures i < 0 <==> s[0] == '-'
  {
    if i < 0 then "-" + NatToString(-i) else NatToString(i)
  }

  /** Python's `f"{n:02d}"` for 0 <= n < 100: always exactly two digits. */
  function TwoDigits(n: nat): (s: string)
    requires n < 100
    ensures |s| == 2 && AllDigits(s) && DigitsValue(s) == n
  {
    var s := [DigitChar(n / 10), DigitChar(n % 10)];
    assert s[..1] == [DigitChar(n / 10)] && s[..1][..0] == [];
    assert DigitsValue(s[..1]) == n / 10;
    s
  }

  /** `minutes = duration // 60` and `seconds = duration % 60` (app.py lines 10-11). */
  function SplitDuration(d: int): (p: (int, int))
    ensures 60 * p.0 + p.1 == d && 0 <= p.1 < 60
  {
    (d / 60, d % 60)
  }

  /** `format_duration(duration)`: `f"{minutes}:{seconds:02d}"`. */
  function FormatDuration(d: int): (r: string)
    ensures |r| >= 4 && r[|r| - 3] == ':' && AllDigits(r[|r| - 2..])
    ensures Canonical(r[..|r| - 3])
  {
    var (m, s) := SplitDuration(d);
    var r := IntToString(m) + ":" + TwoDigits(s);
    assert r[..|r| - 3] == IntToString(m);
    r
  }

  /** Reads an optionally signed decimal integer; anything else is `None`. */
  function ParseInt(s: string): Option<int> {
    if |s| >= 2 && s[0] == '-' && AllDigits(s[1..]) then Some(-(DigitsValue(s[1..]) as int))
    else if |s| >= 1 && AllDigits(s) then Some(DigitsValue(s))
    else None
  }

  /** Reads `m:ss` back into seconds: a signed minute count, a colon, two digits below 60. */
  function ParseDuration(t: string): Option<int> {
    if |t| < 4 || t[|t| - 3] != ':' || !AllDigits(t[|t| - 2..]) then None
    else
      var sec := DigitsValue(t[|t| - 2..]);
      match ParseInt(t[..|t| - 3])
      case None => None
      case Some(m) => if sec < 60 then Some(60 * m + sec) else None
  }

  /** Reading back the digits `str(n)` writes gives `n`. */
  lemma {:induction false} NatToStringRoundTrip(n: nat)
    ensures DigitsValue(NatToString(n)) == n
    decreases n
  {
    var s := NatToString(n);
    if n < 10 {
      assert s == [DigitChar(n)];
      assert s[..0] == [];
    } else {
      NatToStringRoundTrip(n / 10);
      assert s[..|s| - 1] == NatToString(n / 10);
    }
  }

  /** Reading back `str(i)` gives `i`, for every integer. */
  lemma IntToStringRoundTrip(i: int)
    ensures ParseInt(IntToString(i)) == Some(i)
  {
    var s := IntToString(i);
    if i < 0 {
      assert s[1..] == NatToString(-i);
      NatToStringRoundTrip(-i);
    } else {
      NatToStringRoundTrip(i);
    }
  }

  /** Round trip: the rendered `m:ss` string reads back as the original duration, for every integer duration. */
  lemma FormatDurationRoundTrip(d: int)
    ensures ParseDuration(FormatDuration(d)) == Some(d)
  {
    var (m, s) := SplitDuration(d);
    var t := FormatDuration(d);
    var ms := IntToString(m);
    assert t == ms + ":" + TwoDigits(s);
    assert t[..|t| - 3] == ms;
    assert t[|t| - 2..] == TwoDigits(s);
    IntToStringRoundTrip(m);
  }

  /** Two different durations never render the same string. */
  lemma FormatDurationInjective(d1: int, d2: int)
    requires FormatDuration(d1) == FormatDuration(d2)
    ensures d1 == d2
  {
    FormatDurationRoundTrip(d1);
    FormatDurationRoundTrip(d2);
  }
}
