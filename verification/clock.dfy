/** Local wall-clock time as the bot uses it. An instant is a whole number of
    local seconds; the day of an instant starts at a multiple of Day. A plan
    cell "HH:MM:SS" is read as a time of day (seconds since midnight) with the
    leniency of strptime('%H:%M:%S'), and written back as strftime does. */
module Clock {
  import opened Common

  const Day: int := 86400
  const Hour: int := 3600

  /** Midnight of the day that holds instant t (datetime.replace(hour=0, ...)). */
  function DayStart(t: int): (d: int)
    ensures d <= t < d + Day
    ensures d % Day == 0
  {
    t - t % Day
  }

  /** The seconds since midnight of instant t. */
  function TimeOfDay(t: int): (s: nat)
    ensures s < Day && DayStart(t) + s == t
  {
    t % Day
  }

  /** datetime.hour */
  function HourOf(t: int): (h: nat)
    ensures h < 24
  {
    TimeOfDay(t) / Hour
  }

  /** Instants on the same day share their midnight. */
  lemma {:induction false} DayStartOfOffset(d: int, s: int)
    requires d % Day == 0 && 0 <= s < Day
    ensures DayStart(d + s) == d && TimeOfDay(d + s) == s
  {
    var k := d / Day;
    assert d == k * Day;
    assert (k * Day + s) / Day == k;
    assert (k * Day + s) % Day == s;
  }

  /** Moving an instant by one day moves its midnight by one day and keeps its time. */
  lemma {:induction false} DayStartNextDay(t: int)
    ensures DayStart(t + Day) == DayStart(t) + Day
    ensures TimeOfDay(t + Day) == TimeOfDay(t)
  {
    var d := DayStart(t);
    assert (d + Day) % Day == 0;
    DayStartOfOffset(d + Day, TimeOfDay(t));
  }

  predicate IsDigit(c: char)
  {
    '0' <= c <= '9'
  }

  function DigitValue(c: char): (n: nat)
    requires IsDigit(c)
    ensures n < 10
  {
    c as int - '0' as int
  }

  function DigitChar(n: nat): (c: char)
    requires n < 10
    ensures IsDigit(c) && DigitValue(c) == n
  {
    ('0' as int + n) as char
  }

  /** Splits a string at every occurrence of sep (str.split(sep)). */
  function SplitOn(s: string, sep: char): (parts: seq<string>)
    ensures |parts| >= 1
  {
    if s == [] then [[]]
    else
      var rest := SplitOn(s[1..], sep);
      if s[0] == sep then [[]] + rest else [[s[0]] + rest[0]] + rest[1..]
  }

  /** A piece free of the separator comes out whole, followed by the pieces of the rest. */
  lemma {:induction false} SplitOnPiece(a: string, sep: char, rest: string)
    requires forall k :: 0 <= k < |a| ==> a[k] != sep
    ensures SplitOn(a + [sep] + rest, sep) == [a] + SplitOn(rest, sep)
  {
    if a != [] {
      SplitOnPiece(a[1..], sep, rest);
      assert (a + [sep] + rest)[1..] == a[1..] + [sep] + rest;
      assert [a[0]] + a[1..] == a;
    } else {
      assert a + [sep] + rest == [sep] + rest;
    }
  }

  lemma {:induction false} SplitOnWhole(a: string, sep: char)
    requires forall k :: 0 <= k < |a| ==> a[k] != sep
    ensures SplitOn(a, sep) == [a]
  {
    if a != [] {
      SplitOnWhole(a[1..], sep);
      assert [a[0]] + a[1..] == a;
    }
  }

  /** One strptime field: one or two digits. */
  function ParseField(f: string): (r: Option<nat>)
    ensures r.Some? ==> r.value < 100
  {
    if |f| == 1 && IsDigit(f[0]) then Some(DigitValue(f[0]))
    else if |f| == 2 && IsDigit(f[0]) && IsDigit(f[1]) then Some(10 * DigitValue(f[0]) + DigitValue(f[1]))
    else None
  }

  /** datetime.strptime(s, '%H:%M:%S') reduced to the time of day it denotes:
      three fields of one or two digits, hour below 24, minute and second below 60. */
  function ParseClock(s: string): (r: Option<nat>)
    ensures r.Some? ==> r.value < Day
  {
    var parts := SplitOn(s, ':');
    if |parts| != 3 then None
    else
      match (ParseField(parts[0]), ParseField(parts[1]), ParseField(parts[2]))
      case (Some(h), Some(m), Some(sec)) =>
        if h < 24 && m < 60 && sec < 60 then Some(h * 3600 + m * 60 + sec) else None
      case _ => None
  }

  function TwoDigits(n: nat): (r: string)
    requires n < 100
    ensures |r| == 2 && IsDigit(r[0]) && IsDigit(r[1])
  {
    [DigitChar(n / 10), DigitChar(n % 10)]
  }

  /** strftime('%H:%M:%S') of a time of day. */
  function FormatClock(t: nat): (r: string)
    requires t < Day
    ensures |r| == 8
  {
    TwoDigits(t / 3600) + ":" + TwoDigits(t / 60 % 60) + ":" + TwoDigits(t % 60)
  }

  lemma ParseTwoDigits(n: nat)
    requires n < 100
    ensures ParseField(TwoDigits(n)) == Some(n)
  {
    assert 10 * (n / 10) + n % 10 == n;
  }

  lemma ClockArithmetic(t: nat)
    requires t < Day
    ensures t / 3600 < 24 && t / 60 % 60 < 60
    ensures t / 3600 * 3600 + t / 60 % 60 * 60 + t % 60 == t
  {
    var q := t / 60;
    assert q * 60 + t % 60 == t;
    assert q / 60 * 60 + q % 60 == q;
    assert t / 3600 == q / 60;
  }

  /** Writing a time of day back into a plan row and reading it again gives the
      same time of day (and nothing about its date). */
  lemma ParseFormatClock(t: nat)
    requires t < Day
    ensures ParseClock(FormatClock(t)) == Some(t)
  {
    var h, m, s := TwoDigits(t / 3600), TwoDigits(t / 60 % 60), TwoDigits(t % 60);
    assert FormatClock(t) == h + [':'] + (m + [':'] + s);
    SplitOnPiece(h, ':', m + [':'] + s);
    SplitOnPiece(m, ':', s);
    SplitOnWhole(s, ':');
    assert SplitOn(FormatClock(t), ':') == [h, m, s];
    ClockArithmetic(t);
    ParseTwoDigits(t / 3600);
    ParseTwoDigits(t / 60 % 60);
    ParseTwoDigits(t % 60);
  }
}
