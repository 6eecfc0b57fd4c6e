/** Whole-second UTC date-times: `datetime.utcfromtimestamp`, the
    `strftime` layouts the dashboard uses ("%Y-%m-%d" and the 12-hour
    "%Y-%m-%d %I:%M:%S %p"), and the parser that reads the 12-hour layout
    back. */
module Timestamps {
  import opened Outcomes
  import opened Calendar

  datatype DateTime = DateTime(date: Date, hour: int, minute: int, second: int)

  /** A value `datetime.datetime` can hold, microseconds aside. */
  predicate IsPyDateTime(t: DateTime) {
    IsPyDate(t.date) && 0 <= t.hour < 24 && 0 <= t.minute < 60 && 0 <= t.second < 60
  }

  /** 0001-01-01 00:00:00 and 9999-12-31 23:59:59 as seconds since the epoch. */
  const MinTimestamp := -62135596800
  const MaxTimestamp := 253402300799

  /** Whole seconds since 1970-01-01 00:00:00 UTC. */
  function EpochSeconds(t: DateTime): int
    requires ValidDate(t.date)
  {
    (Ordinal(t.date) - EpochOrdinal) * 86400 + t.hour * 3600 + t.minute * 60 + t.second
  }

  /** `datetime.utcfromtimestamp(s)` for a whole number of seconds `s`:
      the UTC civil date-time `s` seconds after the epoch, or the error
      Python raises when its year falls outside 1..9999. */
  function UtcFromTimestamp(s: int): (r: Result<DateTime>)
    ensures r.Ok? <==> MinTimestamp <= s <= MaxTimestamp
    ensures r.Ok? ==> IsPyDateTime(r.value) && EpochSeconds(r.value) == s
    ensures r.Err? ==> r.error == TimestampOutOfRange
  {
    var days, secondOfDay := s / 86400, s % 86400;
    var n := EpochOrdinal + days;
    TimestampRange(s);
    if 1 <= n <= MaxOrdinal then
      Ok(DateTimeOfParts(n, secondOfDay))
    else
      Err(TimestampOutOfRange)
  }

  /** The date-time on day number `n` at `secondOfDay` seconds past
      midnight. */
  function DateTimeOfParts(n: int, secondOfDay: int): (t: DateTime)
    requires 1 <= n <= MaxOrdinal && 0 <= secondOfDay < 86400
    ensures IsPyDateTime(t) && Ordinal(t.date) == n
    ensures t.hour * 3600 + t.minute * 60 + t.second == secondOfDay
  {
    var d := DateOfOrdinal(n);
    PyDateRange(d);
    ClockSplit(secondOfDay);
    DateTime(d, secondOfDay / 3600, secondOfDay % 3600 / 60, secondOfDay % 60)
  }

  lemma TimestampRange(s: int)
    ensures 1 <= EpochOrdinal + s / 86400 <= MaxOrdinal <==> MinTimestamp <= s <= MaxTimestamp
    ensures s == (s / 86400) * 86400 + s % 86400
  {
  }

  lemma ClockSplit(secondOfDay: int)
    requires 0 <= secondOfDay < 86400
    ensures 0 <= secondOfDay / 3600 < 24 && 0 <= secondOfDay % 3600 / 60 < 60
    ensures secondOfDay / 3600 * 3600 + secondOfDay % 3600 / 60 * 60 + secondOfDay % 60 == secondOfDay
  {
  }

  /** Every Python date-time is what `utcfromtimestamp` gives for its own
      epoch seconds. */
  lemma UtcFromTimestampOfEpochSeconds(t: DateTime)
    requires IsPyDateTime(t)
    ensures UtcFromTimestamp(EpochSeconds(t)) == Ok(t)
  {
    PyDateRange(t.date);
    var r := UtcFromTimestamp(EpochSeconds(t));
    EpochSecondsInjective(r.value, t);
  }

  /** The clock fields come back out of the second of the day. */
  lemma ClockOfSecondOfDay(hour: int, minute: int, second: int)
    requires 0 <= hour < 24 && 0 <= minute < 60 && 0 <= second < 60
    ensures var x := hour * 3600 + minute * 60 + second;
      x / 3600 == hour && x % 3600 / 60 == minute && x % 60 == second
  {
    var x := hour * 3600 + minute * 60 + second;
    DivModHour(x, hour, minute * 60 + second);
    DivModMinute(minute * 60 + second, minute, second);
    DivModMinute(x, hour * 60 + minute, second);
  }

  lemma DivModMinute(x: int, q: int, r: int)
    requires 0 <= r < 60 && x == q * 60 + r
    ensures x / 60 == q && x % 60 == r
  {
  }

  lemma DivModDay(x: int, q: int, r: int)
    requires 0 <= r < 86400 && x == q * 86400 + r
    ensures x / 86400 == q && x % 86400 == r
  {
  }

  lemma DivModHour(x: int, q: int, r: int)
    requires 0 <= r < 3600 && x == q * 3600 + r
    ensures x / 3600 == q && x % 3600 == r
  {
  }

  /** Two Python date-times with the same epoch seconds are the same. */
  lemma EpochSecondsInjective(t: DateTime, u: DateTime)
    requires IsPyDateTime(t) && IsPyDateTime(u)
    ensures EpochSeconds(t) == EpochSeconds(u) <==> t == u
  {
    if EpochSeconds(t) == EpochSeconds(u) {
      var n, m := Ordinal(t.date), Ordinal(u.date);
      var x := t.hour * 3600 + t.minute * 60 + t.second;
      var y := u.hour * 3600 + u.minute * 60 + u.second;
      assert n == m && x == y by {
        DivModDay(EpochSeconds(t), n - EpochOrdinal, x);
        DivModDay(EpochSeconds(u), m - EpochOrdinal, y);
      }
      assert t.date == u.date by {
        OrdinalRoundTrip(t.date);
        OrdinalRoundTrip(u.date);
      }
      ClockOfSecondOfDay(t.hour, t.minute, t.second);
      ClockOfSecondOfDay(u.hour, u.minute, u.second);
    }
  }

  /** `datetime.utcfromtimestamp(ms / 1000.0)` keeps the whole seconds
      `floor(ms / 1000)`; Dafny's `/` on a positive divisor is that floor,
      also for instants before the epoch. */
  function UtcFromMillis(ms: int): (r: Result<DateTime>)
    ensures r.Ok? <==> MinTimestamp * 1000 <= ms < MaxTimestamp * 1000 + 1000
    ensures r.Ok? ==> IsPyDateTime(r.value)
    ensures r.Ok? ==> EpochSeconds(r.value) * 1000 <= ms < EpochSeconds(r.value) * 1000 + 1000
  {
    UtcFromTimestamp(ms / 1000)
  }

  // ---------------------------------------------------------------------
  // strftime

  function Digit(n: int): char
    requires 0 <= n < 10
  {
    "0123456789"[n]
  }

  /** `%m`, `%d`, `%I`, `%M`, `%S`: two digits, zero-padded. */
  function Pad2(n: int): string
    requires 0 <= n < 100
  {
    [Digit(n / 10), Digit(n % 10)]
  }

  /** `%Y`: four digits, zero-padded. */
  function Pad4(n: int): string
    requires 0 <= n < 10000
  {
    [Digit(n / 1000), Digit(n / 100 % 10), Digit(n / 10 % 10), Digit(n % 10)]
  }

  /** `date.strftime("%Y-%m-%d")`. */
  function FormatDate(d: Date): string
    requires IsPyDate(d)
  {
    Pad4(d.year) + "-" + Pad2(d.month) + "-" + Pad2(d.day)
  }

  /** The hour on a 12-hour clock (`%I`): 1..12, congruent to the hour of
      day modulo 12, so midnight and noon both read 12. */
  function Hour12(hour: int): (h: int)
    requires 0 <= hour < 24
    ensures 1 <= h <= 12 && h % 12 == hour % 12
  {
    if hour % 12 == 0 then 12 else hour % 12
  }

  /** `%p` in the C locale. */
  function Meridiem(hour: int): string {
    if hour < 12 then "AM" else "PM"
  }

  /** `convert_to_am_pm`: `dt.strftime('%Y-%m-%d %I:%M:%S %p')`. */
  function FormatTimestamp(t: DateTime): (s: string)
    requires IsPyDateTime(t)
    ensures |s| == 22
    ensures s[..10] == FormatDate(t.date)
    ensures s[20..] == "AM" <==> t.hour < 12
  {
    FormatDate(t.date) + " " + Pad2(Hour12(t.hour)) + ":" + Pad2(t.minute) + ":"
      + Pad2(t.second) + " " + Meridiem(t.hour)
  }

  // ---------------------------------------------------------------------
  // Reading the 12-hour layout back

  predicate IsDigit(c: char) {
    '0' <= c <= '9'
  }

  function DigitValue(c: char): (n: nat)
    requires IsDigit(c)
  {
    (c as int) - ('0' as int)
  }

  /** The value of a string of decimal digits. */
  function DigitsValue(s: string): (n: nat)
    requires forall i :: 0 <= i < |s| ==> IsDigit(s[i])
  {
    if s == [] then 0
    else DigitsValue(s[..|s| - 1]) * 10 + DigitValue(s[|s| - 1])
  }

  function ParseNumber(s: string): Option<nat> {
    if forall i :: 0 <= i < |s| ==> IsDigit(s[i]) then Some(DigitsValue(s)) else None
  }

  /** Reads "YYYY-MM-DD"; None unless it names a real day. */
  function ParseDate(s: string): (r: Option<Date>)
    ensures r.Some? ==> ValidDate(r.value)
  {
    if |s| != 10 || s[4] != '-' || s[7] != '-' then None
    else
      match (ParseNumber(s[..4]), ParseNumber(s[5..7]), ParseNumber(s[8..]))
      case (Some(y), Some(m), Some(d)) =>
        if 1 <= m <= 12 && 1 <= d <= DaysInMonth(y, m) then Some(Date(y, m, d)) else None
      case _ => None
  }

  /** The hour of day that a 12-hour reading and its meridiem denote. */
  function Hour24(h12: int, pm: bool): int {
    if pm then (if h12 == 12 then 12 else h12 + 12)
    else (if h12 == 12 then 0 else h12)
  }

  /** Reads "YYYY-MM-DD hh:mm:ss AM" / "... PM", as pandas' `to_datetime`
      reads the layout `convert_to_am_pm` writes. */
  function ParseTimestamp(s: string): (r: Option<DateTime>)
    ensures r.Some? ==> ValidDate(r.value.date) && 0 <= r.value.hour < 24
    ensures r.Some? ==> 0 <= r.value.minute < 60 && 0 <= r.value.second < 60
  {
    if |s| != 22 || s[10] != ' ' || s[13] != ':' || s[16] != ':' || s[19] != ' ' then None
    else if s[20..] != "AM" && s[20..] != "PM" then None
    else
      match (ParseDate(s[..10]), ParseNumber(s[11..13]), ParseNumber(s[14..16]), ParseNumber(s[17..19]))
      case (Some(d), Some(h12), Some(mi), Some(se)) =>
        if 1 <= h12 <= 12 && mi < 60 && se < 60
        then Some(DateTime(d, Hour24(h12, s[20..] == "PM"), mi, se))
        else None
      case _ => None
  }

  /** Where each field of a formatted timestamp sits. */
  lemma TimestampLayout(t: DateTime)
    requires IsPyDateTime(t)
    ensures var s := FormatTimestamp(t);
      && s[..10] == FormatDate(t.date) && s[10] == ' '
      && s[11..13] == Pad2(Hour12(t.hour)) && s[13] == ':'
      && s[14..16] == Pad2(t.minute) && s[16] == ':'
      && s[17..19] == Pad2(t.second) && s[19] == ' '
      && s[20..] == Meridiem(t.hour)
  {
    FieldLayout(FormatDate(t.date), Pad2(Hour12(t.hour)), Pad2(t.minute), Pad2(t.second), Meridiem(t.hour));
  }

  /** Slicing "date hh:mm:ss XM" back into its fields. */
  lemma FieldLayout(date: string, hh: string, mm: string, ss: string, xm: string)
    requires |date| == 10 && |hh| == 2 && |mm| == 2 && |ss| == 2 && |xm| == 2
    ensures var s := date + " " + hh + ":" + mm + ":" + ss + " " + xm;
      && |s| == 22
      && s[..10] == date && s[10] == ' '
      && s[11..13] == hh && s[13] == ':'
      && s[14..16] == mm && s[16] == ':'
      && s[17..19] == ss && s[19] == ' '
      && s[20..] == xm
  {
    var s := date + " " + hh + ":" + mm + ":" + ss + " " + xm;
    var clock := hh + ":" + mm + ":" + ss;
    assert s == date + " " + clock + " " + xm;
    assert clock[..2] == hh && clock[3..5] == mm && clock[6..] == ss;
  }

  lemma DigitRoundTrip(n: int)
    requires 0 <= n < 10
    ensures IsDigit(Digit(n)) && DigitValue(Digit(n)) == n
  {
  }

  /** Appending a digit shifts the value one decimal place. */
  lemma {:induction false} DigitsValueAppend(s: string, n: int)
    requires forall i :: 0 <= i < |s| ==> IsDigit(s[i])
    requires 0 <= n < 10
    ensures ParseNumber(s + [Digit(n)]) == Some(DigitsValue(s) * 10 + n)
  {
    DigitRoundTrip(n);
    assert (s + [Digit(n)])[..|s|] == s;
  }

  /** Appending the last decimal digit of `x` to the digits of `x / 10`
      gives the digits of `x`. */
  lemma {:induction false} AppendLastDigit(s: string, x: int)
    requires forall i :: 0 <= i < |s| ==> IsDigit(s[i])
    requires 0 <= x && DigitsValue(s) == x / 10
    ensures ParseNumber(s + [Digit(x % 10)]) == Some(x)
    ensures forall i :: 0 <= i < |s| + 1 ==> IsDigit((s + [Digit(x % 10)])[i])
  {
    DigitsValueAppend(s, x % 10);
  }

  lemma Pad2Value(n: int)
    requires 0 <= n < 100
    ensures ParseNumber(Pad2(n)) == Some(n)
  {
    AppendLastDigit([], n / 10);
    assert [] + [Digit(n / 10)] == [Digit(n / 10)];
    AppendLastDigit([Digit(n / 10)], n);
    assert [Digit(n / 10)] + [Digit(n % 10)] == Pad2(n);
  }

  lemma Pad4Value(n: int)
    requires 0 <= n < 10000
    ensures ParseNumber(Pad4(n)) == Some(n)
  {
    var s1 := [Digit(n / 1000)];
    AppendLastDigit([], n / 1000);
    assert [] + [Digit(n / 1000)] == s1;
    assert n / 1000 == n / 100 / 10;
    AppendLastDigit(s1, n / 100);
    var s2 := s1 + [Digit(n / 100 % 10)];
    assert n / 100 == n / 10 / 10;
    AppendLastDigit(s2, n / 10);
    var s3 := s2 + [Digit(n / 10 % 10)];
    AppendLastDigit(s3, n);
    assert s3 + [Digit(n % 10)] == Pad4(n);
  }

  /** Reading a formatted date gives the date back. */
  lemma ParseFormatDate(d: Date)
    requires IsPyDate(d)
    ensures ParseDate(FormatDate(d)) == Some(d)
  {
    var s := FormatDate(d);
    assert s[..4] == Pad4(d.year);
    assert s[5..7] == Pad2(d.month);
    assert s[8..] == Pad2(d.day);
    Pad4Value(d.year);
    Pad2Value(d.month);
    Pad2Value(d.day);
  }

  /** Reading a formatted timestamp gives the whole date-time back: the
      12-hour clock and its AM/PM suffix lose nothing. */
  lemma ParseFormatTimestamp(t: DateTime)
    requires IsPyDateTime(t)
    ensures ParseTimestamp(FormatTimestamp(t)) == Some(t)
  {
    var s := FormatTimestamp(t);
    TimestampLayout(t);
    assert ParseDate(s[..10]) == Some(t.date) by {
      ParseFormatDate(t.date);
    }
    assert ParseNumber(s[11..13]) == Some(Hour12(t.hour)) by {
      Pad2Value(Hour12(t.hour));
    }
    assert ParseNumber(s[14..16]) == Some(t.minute) by {
      Pad2Value(t.minute);
    }
    assert ParseNumber(s[17..19]) == Some(t.second) by {
      Pad2Value(t.second);
    }
    assert s[20..] == "PM" <==> t.hour >= 12;
    Hour24OfHour12(t.hour);
  }

  /** The 12-hour reading and its meridiem give the hour of day back. */
  lemma Hour24OfHour12(hour: int)
    requires 0 <= hour < 24
    ensures Hour24(Hour12(hour), hour >= 12) == hour
  {
    if hour >= 12 {
      assert hour % 12 == hour - 12;
    }
  }

  /** The hour field of a formatted timestamp reads 01..12, and both
      midnight and noon read "12". */
  lemma TwelveHourClock(t: DateTime)
    requires IsPyDateTime(t)
    ensures var s := FormatTimestamp(t);
      && ParseNumber(s[11..13]).Some?
      && 1 <= ParseNumber(s[11..13]).value <= 12
      && ParseNumber(s[11..13]).value % 12 == t.hour % 12
      && (t.hour % 12 == 0 ==> s[11..13] == "12")
  {
    TimestampLayout(t);
    HourField(FormatTimestamp(t)[11..13], t.hour);
  }

  lemma HourField(hh: string, hour: int)
    requires 0 <= hour < 24 && hh == Pad2(Hour12(hour))
    ensures ParseNumber(hh) == Some(Hour12(hour))
    ensures hour % 12 == 0 ==> hh == "12"
  {
    Pad2Value(Hour12(hour));
  }

  /** The suffix of a formatted timestamp is "AM" before noon and "PM"
      from noon on, so midnight reads "12 ... AM" and noon "12 ... PM". */
  lemma MeridiemSuffix(t: DateTime)
    requires IsPyDateTime(t)
    ensures var s := FormatTimestamp(t);
      && (s[20..] == "AM" <==> t.hour < 12)
      && (s[20..] == "PM" <==> t.hour >= 12)
  {
    TimestampLayout(t);
  }
}
