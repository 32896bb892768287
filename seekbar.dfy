/** The progress bar's arithmetic (components/Seekbar.tsx): `formatTime`,
    restricted to whole, non-negative seconds, and the fill percentage. */
module Seekbar {
  import opened Wrappers

  predicate IsDigit(c: char) {
    '0' <= c <= '9'
  }

  predicate AllDigits(s: string) {
    forall i :: 0 <= i < |s| ==> IsDigit(s[i])
  }

  function DigitChar(d: nat): (c: char)
    requires d < 10
    ensures IsDigit(c)
  {
    (('0' as int) + d) as char
  }

  function DigitValue(c: char): nat
    requires IsDigit(c)
  {
    (c as int) - ('0' as int)
  }

  /** How a template literal renders a whole number: its decimal digits,
      without leading zeros. */
  function Decimal(n: nat): (r: string)
    ensures |r| > 0 && AllDigits(r)
    ensures |r| == 1 <==> n < 10
    ensures n >= 10 ==> r[0] != '0'
    decreases n
  {
    if n < 10 then [DigitChar(n)] else Decimal(n / 10) + [DigitChar(n % 10)]
  }

  /** Reads a string of digits back as a number. */
  function ParseDecimal(s: string): nat
    requires AllDigits(s)
    decreases |s|
  {
    if s == [] then 0 else 10 * ParseDecimal(s[..|s| - 1]) + DigitValue(s[|s| - 1])
  }

  lemma {:induction false} ParseDecimalRoundTrip(n: nat)
    ensures ParseDecimal(Decimal(n)) == n
    decreases n
  {
    var r := Decimal(n);
    if n >= 10 {
      ParseDecimalRoundTrip(n / 10);
      assert r[..|r| - 1] == Decimal(n / 10);
    } else {
      assert r[..|r| - 1] == [];
    }
  }

  /** The seconds field: two digits, with a `0` in front below ten. */
  function SecondsField(s: nat): string
    requires s < 60
  {
    (if s < 10 then "0" else "") + Decimal(s)
  }

  /** `formatTime` on whole seconds: a zero input takes the `!seconds`
      guard; otherwise minutes are `seconds / 60` and the field after the
      colon is `seconds % 60`. */
  function FormatTime(seconds: nat): (r: string)
    ensures seconds == 0 ==> r == "0:00"
    ensures |r| >= 4 && r[|r| - 3] == ':'
  {
    if seconds == 0 then "0:00"
    else Decimal(seconds / 60) + ":" + SecondsField(seconds % 60)
  }

  /** Reads `m:ss` back into its two fields; `None` for anything else. */
  function ParseTime(t: string): Option<(nat, nat)> {
    if |t| >= 4 && t[|t| - 3] == ':' && AllDigits(t[..|t| - 3]) && AllDigits(t[|t| - 2..])
    then Some((ParseDecimal(t[..|t| - 3]), ParseDecimal(t[|t| - 2..])))
    else None
  }

  /** The seconds field is always exactly two digits, led by `0` exactly
      when the seconds are below ten. */
  lemma SecondsFieldShape(s: nat)
    requires s < 60
    ensures |SecondsField(s)| == 2 && AllDigits(SecondsField(s))
    ensures SecondsField(s)[0] == '0' <==> s < 10
    ensures ParseDecimal(SecondsField(s)) == s
  {
    var f := SecondsField(s);
    ParseDecimalRoundTrip(s);
    if s < 10 {
      assert f == ['0', DigitChar(s)];
      assert f[..1] == "0";
    } else {
      assert Decimal(s) == Decimal(s / 10) + [DigitChar(s % 10)];
      assert 1 <= s / 10 < 10;
    }
  }

  /** Round trip: parsing what `formatTime` printed gives back the minutes
      `s / 60` and the seconds `s % 60`, which together make `s`. */
  lemma FormatTimeRoundTrip(s: nat)
    ensures ParseTime(FormatTime(s)) == Some((s / 60, s % 60))
    ensures s % 60 < 60 && 60 * (s / 60) + s % 60 == s
  {
    var t := FormatTime(s);
    var m := Decimal(s / 60);
    var f := SecondsField(s % 60);
    SecondsFieldShape(s % 60);
    ParseDecimalRoundTrip(s / 60);
    assert t == m + ":" + f;
    assert t[..|t| - 3] == m;
    assert t[|t| - 2..] == f;
  }

  /** `percent`: the share of the track already played, 0 when the duration
      is not positive. */
  function Percent(currentTime: real, duration: real): (r: real)
    ensures duration <= 0.0 ==> r == 0.0
    ensures 0.0 <= currentTime <= duration ==> 0.0 <= r <= 100.0
    ensures 0.0 < duration && currentTime == duration ==> r == 100.0
  {
    if duration > 0.0 then (currentTime / duration) * 100.0 else 0.0
  }
}
