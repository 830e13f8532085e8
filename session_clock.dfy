/** The countdown display of persistent-auth/src/App.tsx: `formatTime` renders a number of seconds
    as minutes, a colon and the seconds, padding seconds below ten with a '0'. JavaScript semantics
    are written out: `Math.floor(time / 60)` rounds down, `time % 60` takes the sign of `time`, and
    a number is printed in decimal with a leading '-' when negative. */
module SessionClock {
  import opened Wrappers

  /** The countdown's starting value and the value every reset restores: ten minutes. */
  const SessionSeconds: int := 600

  predicate IsDigit(c: char)
  {
    '0' <= c <= '9'
  }

  predicate AllDigits(s: string)
  {
    forall i :: 0 <= i < |s| ==> IsDigit(s[i])
  }

  function DigitChar(d: int): (c: char)
    requires 0 <= d < 10
    ensures IsDigit(c) && c as int - '0' as int == d
  {
    ('0' as int + d) as char
  }

  /** The value of a string of decimal digits, most significant first. */
  function DigitsValue(s: string): (v: nat)
    requires AllDigits(s)
  {
    if s == [] then 0
    else DigitsValue(s[..|s| - 1]) * 10 + (s[|s| - 1] as int - '0' as int)
  }

  /** The decimal numeral of a natural number, without leading zeros. */
  function NatToString(n: nat): (s: string)
    ensures |s| >= 1 && AllDigits(s)
    ensures |s| > 1 ==> s[0] != '0'
    ensures n < 10 <==> |s| == 1
    decreases n
  {
    if n < 10 then [DigitChar(n)]
    else NatToString(n / 10) + [DigitChar(n % 10)]
  }

  /** `String(i)` for an integer: a '-' before the magnitude when negative, and the digits read
      back as the value. */
  function IntToString(i: int): (s: string)
    ensures i >= 0 ==> AllDigits(s) && DigitsValue(s) == i
    ensures i < 0 ==> |s| >= 2 && s[0] == '-' && AllDigits(s[1..]) && DigitsValue(s[1..]) == -i
  {
    if i < 0 then
      NatToStringValue(-i);
      assert ("-" + NatToString(-i))[1..] == NatToString(-i);
      "-" + NatToString(-i)
    else
      NatToStringValue(i);
      NatToString(i)
  }

  /** JavaScript's `a % b` for a positive divisor: the remainder takes the sign of the dividend. */
  function JsRemainder(a: int, b: int): (r: int)
    requires b > 0
    ensures -b < r < b
    ensures a >= 0 ==> 0 <= r && r == a % b
    ensures a < 0 ==> r <= 0 && -r == (-a) % b
  {
    if a >= 0 then a % b else -((-a) % b)
  }

  /** The seconds part of the display: a '0' before any value below ten. */
  function SecondsField(seconds: int): string
  {
    (if seconds < 10 then "0" else "") + IntToString(seconds)
  }

  /** `formatTime(time)`. For a non-negative time, reading the display back gives the time. */
  function FormatTime(time: int): (r: string)
    ensures time >= 0 ==> ParseClock(r) == Some(time)
  {
    var minutes := time / 60;
    var seconds := JsRemainder(time, 60);
    var r := IntToString(minutes) + ":" + SecondsField(seconds);
    if time >= 0 then
      ClockRoundTrip(minutes, seconds);
      r
    else
      r
  }

  /** Reads an `M:SS` clock back into seconds: a decimal minute count, a colon and exactly two
      digits of seconds below 60. */
  function ParseClock(s: string): Option<int>
  {
    if |s| < 4 || s[|s| - 3] != ':' then None
    else
      var minutes, seconds := s[..|s| - 3], s[|s| - 2..];
      if AllDigits(minutes) && AllDigits(seconds) && DigitsValue(seconds) < 60
      then Some(DigitsValue(minutes) * 60 + DigitsValue(seconds))
      else None
  }

  // ---------------------------------------------------------------------------------------------

  lemma {:induction false} DigitsValueAppend(s: string, c: char)
    requires AllDigits(s) && IsDigit(c)
    ensures AllDigits(s + [c])
    ensures DigitsValue(s + [c]) == DigitsValue(s) * 10 + (c as int - '0' as int)
  {
    assert (s + [c])[..|s|] == s;
  }

  /** The numeral reads back as the number. */
  lemma {:induction false} NatToStringValue(n: nat)
    ensures DigitsValue(NatToString(n)) == n
    decreases n
  {
    if n >= 10 {
      NatToStringValue(n / 10);
      DigitsValueAppend(NatToString(n / 10), DigitChar(n % 10));
    }
  }

  /** The seconds field as `formatTime` prints it for 0 <= seconds < 60. */
  lemma {:induction false} SecondsFieldIsTwoDigits(seconds: int)
    requires 0 <= seconds < 60
    ensures var f := SecondsField(seconds);
      |f| == 2 && AllDigits(f) && DigitsValue(f) == seconds
      && (f[0] == '0' <==> seconds < 10)
  {
    var f := SecondsField(seconds);
    NatToStringValue(seconds);
    if seconds < 10 {
      assert f == "0" + [DigitChar(seconds)];
      assert f[..1] == "0";
      assert DigitsValue("0") == 0;
    } else {
      assert NatToString(seconds) == NatToString(seconds / 10) + [DigitChar(seconds % 10)];
      assert |NatToString(seconds / 10)| == 1;
      assert f[0] == NatToString(seconds / 10)[0] == DigitChar(seconds / 10);
    }
  }

  /** Minutes, a colon and a seconds field below 60 read back as minutes * 60 + seconds. */
  lemma {:induction false} ClockRoundTrip(minutes: nat, seconds: int)
    requires 0 <= seconds < 60
    ensures ParseClock(NatToString(minutes) + ":" + SecondsField(seconds)) == Some(minutes * 60 + seconds)
  {
    var m, f := NatToString(minutes), SecondsField(seconds);
    var s := m + ":" + f;
    SecondsFieldIsTwoDigits(seconds);
    NatToStringValue(minutes);
    assert s[..|s| - 3] == m;
    assert s[|s| - 2..] == f;
  }

  /** For a non-negative time the display is the minutes, a colon and two digits of seconds, with
      minutes * 60 + seconds == time and a '0' pad exactly when the seconds are below ten. */
  lemma {:induction false} FormatTimeShape(time: int)
    requires time >= 0
    ensures var s := FormatTime(time);
      && |s| == |NatToString(time / 60)| + 3
      && s[..|s| - 3] == NatToString(time / 60)
      && s[|s| - 3] == ':'
      && AllDigits(s[|s| - 2..])
      && DigitsValue(s[|s| - 2..]) == time % 60
      && (time / 60) * 60 + time % 60 == time
      && (s[|s| - 2] == '0' <==> time % 60 < 10)
  {
    var seconds := JsRemainder(time, 60);
    var m := NatToString(time / 60);
    var f := SecondsField(seconds);
    SecondsFieldIsTwoDigits(seconds);
    var s := FormatTime(time);
    assert s == m + ":" + f;
    assert s[..|s| - 3] == m;
    assert s[|s| - 2..] == f;
  }

  /** Distinct non-negative times are displayed differently. */
  lemma FormatTimeInjective(t1: int, t2: int)
    requires t1 >= 0 && t2 >= 0 && t1 != t2
    ensures FormatTime(t1) != FormatTime(t2)
  {
  }

  /** The starting value is shown as ten minutes. */
  lemma FormatInitialTime()
    ensures FormatTime(SessionSeconds) == "10:00"
  {
    assert NatToString(10) == NatToString(1) + ['0'];
    assert NatToString(0) == "0";
  }

  /** One second past zero, JavaScript's remainder goes negative and the padding still fires. */
  lemma FormatNegativeTime()
    ensures FormatTime(-1) == "-1:0-1"
  {
    assert NatToString(1) == "1";
  }
}
