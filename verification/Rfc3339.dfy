/** Points in time and their text form as in section 5.6 of RFC 3339, which is how the daemon stores and
    sends timeouts (time.Format and time.Parse with the layout time.RFC3339). */
module Rfc3339 {
  import opened Basics
  import opened Leases

  /** A wall-clock reading together with the zone's offset from UTC in seconds. */
  datatype Time = Time(
    year: int, month: int, day: int, hour: int, minute: int, second: int, nanos: int, offset: int)

  // ---------- The instant a reading denotes ----------

  predicate Leap(year: int) { year % 4 == 0 && (year % 100 != 0 || year % 400 == 0) }

  const MONTH_DAYS := [31, 28, 31, 30, 31, 30, 31, 31, 30, 31, 30, 31]

  const DAYS_BEFORE_MONTH := [0, 31, 59, 90, 120, 151, 181, 212, 243, 273, 304, 334]

  function DaysIn(year: int, month: int): int
    requires 1 <= month <= 12
  {
    if month == 2 && Leap(year) then 29 else MONTH_DAYS[month - 1]
  }

  /** Days from 1 January of year 1 (proleptic Gregorian) to 1 January of this year. */
  function DaysBeforeYear(year: int): int {
    var y := year - 1;
    365 * y + y / 4 - y / 100 + y / 400
  }

  predicate Valid(t: Time) {
    && 1 <= t.month <= 12 && 1 <= t.day <= DaysIn(t.year, t.month)
    && 0 <= t.hour < 24 && 0 <= t.minute < 60 && 0 <= t.second < 60 && 0 <= t.nanos < NANOS
    && -360_000 < t.offset < 360_000
  }

  /** Days of a year before its month. */
  function DaysBeforeMonth(year: int, month: int): int
    requires 1 <= month <= 12
  {
    DAYS_BEFORE_MONTH[month - 1] + (if month > 2 && Leap(year) then 1 else 0)
  }

  /** Days since 1 January of year 1. */
  function Day(t: Time): int
    requires 1 <= t.month <= 12
  {
    DaysBeforeYear(t.year) + DaysBeforeMonth(t.year, t.month) + t.day - 1
  }

  function SecondOfDay(t: Time): int { 3600 * t.hour + 60 * t.minute + t.second }

  /** Seconds since the Unix epoch. */
  function Seconds(t: Time): int {
    if 1 <= t.month <= 12 then 86_400 * (Day(t) - 719_162) + SecondOfDay(t) - t.offset else 0
  }

  /** Nanoseconds since the Unix epoch; this is what Time.Before compares. */
  function Instant(t: Time): int {
    Seconds(t) * NANOS + t.nanos
  }

  function DropNanos(t: Time): Time { t.(nanos := 0) }

  const DEFAULT_TIME := Time(2222, 1, 1, 0, 0, 0, 0, 0)

  lemma NamedInstants()
    ensures Instant(DEFAULT_TIME) == DEFAULT_TIMEOUT
    ensures Instant(Time(1, 1, 1, 0, 0, 0, 0, 0)) == ZERO_TIME
    ensures Instant(Time(1970, 1, 1, 0, 0, 0, 0, 0)) == 0
  {
    hide Instant, DaysBeforeYear;
    NewYear(2222);
    NewYear(1);
    NewYear(1970);
    YearsNamed();
  }

  lemma NewYear(year: int)
    ensures Instant(Time(year, 1, 1, 0, 0, 0, 0, 0)) == 86_400 * (DaysBeforeYear(year) - 719_162) * NANOS
  {
    hide DaysBeforeYear, Leap;
    assert DaysBeforeMonth(year, 1) == 0;
  }

  lemma YearsNamed()
    ensures DaysBeforeYear(2222) == 811_203 && DaysBeforeYear(1) == 0 && DaysBeforeYear(1970) == 719_162
  {}

  lemma FractionDrops(s: int, nanos: int)
    requires 0 <= nanos < NANOS
    ensures Truncate(s * NANOS + nanos) == s * NANOS
  {
    assert (s * NANOS + nanos) / NANOS == s;
  }

  /** Dropping the fraction of a reading is truncating its instant. */
  lemma DropIsTruncate(t: Time)
    requires Valid(t)
    ensures Instant(DropNanos(t)) == Truncate(Instant(t))
  {
    assert Seconds(DropNanos(t)) == Seconds(t);
    hide Seconds, Truncate;
    FractionDrops(Seconds(t), t.nanos);
  }

  // ---------- The calendar and the clock ----------

  function YearLength(year: int): int { if Leap(year) then 366 else 365 }

  lemma YearStep(year: int)
    ensures DaysBeforeYear(year + 1) == DaysBeforeYear(year) + YearLength(year)
  {
    Fourths(year);
    Hundredths(year);
    FourHundredths(year);
  }

  lemma Fourths(year: int)
    ensures year / 4 == (year - 1) / 4 + (if year % 4 == 0 then 1 else 0)
  {}

  lemma Hundredths(year: int)
    ensures year / 100 == (year - 1) / 100 + (if year % 100 == 0 then 1 else 0)
    ensures year % 100 == 0 ==> year % 4 == 0
  {}

  lemma FourHundredths(year: int)
    ensures year / 400 == (year - 1) / 400 + (if year % 400 == 0 then 1 else 0)
    ensures year % 400 == 0 ==> year % 100 == 0
  {}

  lemma MonthStep(year: int, month: int)
    requires 1 <= month <= 12
    ensures DaysBeforeMonth(year, month) + DaysIn(year, month)
            == if month < 12 then DaysBeforeMonth(year, month + 1) else YearLength(year)
  {}

  /** The reading one second later, with its carries. */
  function NextSecond(t: Time): Time
    requires Valid(t)
  {
    if t.second < 59 then t.(second := t.second + 1)
    else if t.minute < 59 then t.(minute := t.minute + 1, second := 0)
    else if t.hour < 23 then t.(hour := t.hour + 1, minute := 0, second := 0)
    else if t.day < DaysIn(t.year, t.month) then t.(day := t.day + 1, hour := 0, minute := 0, second := 0)
    else if t.month < 12 then t.(month := t.month + 1, day := 1, hour := 0, minute := 0, second := 0)
    else t.(year := t.year + 1, month := 1, day := 1, hour := 0, minute := 0, second := 0)
  }

  /** A second later, through minutes, hours, days, months and leap years, is one second more. */
  lemma OneSecondLater(t: Time)
    requires Valid(t)
    ensures Valid(NextSecond(t)) && Seconds(NextSecond(t)) == Seconds(t) + 1
  {
    hide DaysBeforeYear, DaysBeforeMonth, Leap, YearLength;
    MonthStep(t.year, t.month);
    YearStep(t.year);
    January(t.year + 1);
  }

  lemma January(year: int)
    ensures DaysBeforeMonth(year, 1) == 0
  {}

  /** The same reading in a zone further east is that much earlier. */
  lemma ZoneShifts(t: Time, offset: int)
    requires Valid(t)
    ensures Seconds(t.(offset := offset)) == Seconds(t) + t.offset - offset
  {}

  lemma {:induction false} LaterYear(y: int, z: int)
    requires y < z
    ensures DaysBeforeYear(y) + YearLength(y) <= DaysBeforeYear(z)
    decreases z - y
  {
    YearStep(y);
    hide DaysBeforeYear, Leap;
    if y + 1 < z {
      LaterYear(y + 1, z);
    }
  }

  lemma {:induction false} LaterMonth(year: int, m: int, n: int)
    requires 1 <= m < n <= 12
    ensures DaysBeforeMonth(year, m) + DaysIn(year, m) <= DaysBeforeMonth(year, n)
    decreases n - m
  {
    MonthStep(year, m);
    if m + 1 < n {
      LaterMonth(year, m + 1, n);
    }
  }

  lemma {:induction false} MonthInYear(year: int, month: int)
    requires 1 <= month <= 12
    ensures 0 <= DaysBeforeMonth(year, month) && DaysBeforeMonth(year, month) + DaysIn(year, month) <= YearLength(year)
  {}

  predicate DateBefore(t: Time, u: Time) {
    t.year < u.year || (t.year == u.year && (t.month < u.month || (t.month == u.month && t.day < u.day)))
  }

  predicate ClockBefore(t: Time, u: Time) {
    t.hour < u.hour || (t.hour == u.hour && (t.minute < u.minute || (t.minute == u.minute &&
      (t.second < u.second || (t.second == u.second && t.nanos < u.nanos)))))
  }

  lemma DatesOrder(t: Time, u: Time)
    requires Valid(t) && Valid(u) && DateBefore(t, u)
    ensures Day(t) < Day(u)
  {
    MonthInYear(t.year, t.month);
    MonthInYear(u.year, u.month);
    if t.year < u.year {
      LaterYear(t.year, u.year);
    } else if t.month < u.month {
      LaterMonth(t.year, t.month, u.month);
    }
    hide DaysBeforeYear, DaysBeforeMonth, YearLength, Leap;
  }

  lemma EarlierIsLess(t: Time, u: Time)
    requires Valid(t) && Valid(u) && t.offset == u.offset
    requires DateBefore(t, u) || (!DateBefore(u, t) && ClockBefore(t, u))
    ensures Instant(t) < Instant(u)
  {
    if DateBefore(t, u) {
      DatesOrder(t, u);
    }
    hide Day, DaysIn, DateBefore;
    assert Seconds(t) < Seconds(u) || (Seconds(t) == Seconds(u) && t.nanos < u.nanos) by {
      assert 0 <= SecondOfDay(t) < 86_400 && 0 <= SecondOfDay(u) < 86_400;
      if !(Day(t) < Day(u)) {
        assert Day(t) == Day(u) by { SameDay(t, u); }
      }
    }
  }

  lemma SameDay(t: Time, u: Time)
    requires Valid(t) && Valid(u) && !DateBefore(t, u) && !DateBefore(u, t)
    ensures Day(t) == Day(u)
  {}

  /** Readings of one zone are in the order of their date and then their clock; this is what Time.Before says. */
  lemma InstantOrders(t: Time, u: Time)
    requires Valid(t) && Valid(u) && t.offset == u.offset
    ensures Instant(t) < Instant(u) <==> DateBefore(t, u) || (!DateBefore(u, t) && ClockBefore(t, u))
  {
    if DateBefore(t, u) || (!DateBefore(u, t) && ClockBefore(t, u)) {
      EarlierIsLess(t, u);
    } else if DateBefore(u, t) || (!DateBefore(t, u) && ClockBefore(u, t)) {
      EarlierIsLess(u, t);
    } else {
      assert t == u;
    }
  }

  // ---------- Text ----------

  function Decimal(n: nat): string {
    if n < 10 then [DIGITS[n]] else Decimal(n / 10) + [DIGITS[n % 10]]
  }

  function Zeros(n: int): string {
    if n <= 0 then "" else "0" + Zeros(n - 1)
  }

  /** Zero-padded to a width; a sign comes on top of it. */
  function AppendInt(n: int, width: int): string {
    if n < 0 then "-" + Zeros(width - |Decimal(-n)|) + Decimal(-n)
    else Zeros(width - |Decimal(n)|) + Decimal(n)
  }

  /** Division that rounds towards zero, as Go's does. */
  function TruncDiv(a: int, b: int): int
    requires b > 0
  {
    if a < 0 then -(-a / b) else a / b
  }

  function FormatZone(offset: int): string {
    if offset == 0 then "Z"
    else
      var zone := TruncDiv(offset, 60);
      var mag := if zone < 0 then -zone else zone;
      (if zone < 0 then "-" else "+") + AppendInt(mag / 60, 2) + ":" + AppendInt(mag % 60, 2)
  }

  function FormatDate(t: Time): string {
    AppendInt(t.year, 4) + "-" + AppendInt(t.month, 2) + "-" + AppendInt(t.day, 2)
  }

  function FormatClock(t: Time): string {
    AppendInt(t.hour, 2) + ":" + AppendInt(t.minute, 2) + ":" + AppendInt(t.second, 2)
  }

  function Format(t: Time): string {
    FormatDate(t) + "T" + FormatClock(t) + FormatZone(t.offset)
  }

  predicate TwoDigits(s: string, i: nat) {
    i + 2 <= |s| && IsDigit(s[i]) && IsDigit(s[i + 1])
  }

  function TwoValue(s: string, i: nat): (r: int)
    requires TwoDigits(s, i)
    ensures 0 <= r < 100
  {
    10 * DigitValue(s[i]) + DigitValue(s[i + 1])
  }

  /** As Go 1.13 does, the version that go.mod names: the hours and minutes are any two digits, which
      later versions restrict. */
  function ParseZone(s: string): Option<int> {
    if s == "Z" then Some(0)
    else if |s| == 6 && (s[0] == '+' || s[0] == '-') && TwoDigits(s, 1) && s[3] == ':' && TwoDigits(s, 4) then
      var magnitude := (TwoValue(s, 1) * 60 + TwoValue(s, 4)) * 60;
      Some(if s[0] == '-' then -magnitude else magnitude)
    else None
  }

  predicate HasDateTimeShape(s: string) {
    && |s| >= 19
    && TwoDigits(s, 0) && TwoDigits(s, 2) && s[4] == '-' && TwoDigits(s, 5) && s[7] == '-' && TwoDigits(s, 8)
    && s[10] == 'T' && TwoDigits(s, 11) && s[13] == ':' && TwoDigits(s, 14) && s[16] == ':' && TwoDigits(s, 17)
  }

  function Parse(s: string): Option<Time> {
    if !HasDateTimeShape(s) then None
    else
      var zone := ParseZone(s[19..]);
      var year, month, day := 100 * TwoValue(s, 0) + TwoValue(s, 2), TwoValue(s, 5), TwoValue(s, 8);
      var hour, minute, second := TwoValue(s, 11), TwoValue(s, 14), TwoValue(s, 17);
      if zone.None? || !(1 <= month <= 12) || !(1 <= day <= DaysIn(year, month))
         || hour >= 24 || minute >= 60 || second >= 60 then None
      else Some(Time(year, month, day, hour, minute, second, 0, zone.value))
  }

  // ---------- Round trip ----------

  /** The readings whose text says everything but the fraction of the second. */
  predicate Encodable(t: Time) {
    Valid(t) && 0 <= t.year <= 9999 && t.offset % 60 == 0
  }

  /** Two decimal digits. */
  function Two(n: int): string
    requires 0 <= n < 100
  {
    [DIGITS[n / 10], DIGITS[n % 10]]
  }

  lemma PadTwo(n: int)
    requires 0 <= n < 100
    ensures AppendInt(n, 2) == Two(n)
  {
    if n < 10 {
      assert Zeros(1) == "0" + Zeros(0);
    } else {
      assert Decimal(n / 10) == [DIGITS[n / 10]];
    }
  }

  lemma LastTwoDigits(n: int)
    requires n >= 100
    ensures Decimal(n) == Decimal(n / 100) + Two(n % 100)
  {
    var m := n / 10;
    assert m / 10 == n / 100 && m % 10 == n % 100 / 10 && n % 10 == n % 100 % 10;
    assert Decimal(n) == Decimal(m) + [DIGITS[n % 10]];
    assert Decimal(m) == Decimal(m / 10) + [DIGITS[m % 10]];
  }

  lemma ShortDecimal(n: int)
    requires 0 <= n < 100
    ensures |Decimal(n)| == (if n < 10 then 1 else 2)
  {
    if n >= 10 {
      assert Decimal(n / 10) == [DIGITS[n / 10]];
    }
  }

  lemma ShortZeros()
    ensures Zeros(0) == "" && Zeros(1) == "0" && Zeros(2) == "00" && Zeros(3) == "000"
  {
    assert Zeros(1) == "0" + Zeros(0);
    assert Zeros(2) == "0" + Zeros(1);
    assert Zeros(3) == "0" + Zeros(2);
  }

  lemma PadBelowHundred(n: int)
    requires 0 <= n < 100
    ensures AppendInt(n, 4) == "00" + AppendInt(n, 2)
  {
    ShortDecimal(n);
    ShortZeros();
    hide Decimal, Zeros;
    var d := Decimal(n);
    if |d| == 1 {
      assert "000" + d == "00" + ("0" + d);
    }
  }

  lemma PadFour(n: int)
    requires 0 <= n <= 9999
    ensures AppendInt(n, 4) == Two(n / 100) + Two(n % 100)
  {
    hide Decimal, Zeros, Two;
    PadTwo(n / 100);
    if n >= 100 {
      LastTwoDigits(n);
      ShortDecimal(n / 100);
      TwoLength(n % 100);
      var pad := 2 - |Decimal(n / 100)|;
      assert 4 - |Decimal(n)| == pad;
      assert Zeros(pad) + (Decimal(n / 100) + Two(n % 100)) == (Zeros(pad) + Decimal(n / 100)) + Two(n % 100);
    } else {
      PadTwo(n);
      TwoZero();
      PadBelowHundred(n);
    }
  }

  lemma TwoZero()
    ensures Two(0) == "00"
  {}

  lemma DigitsInvert(k: int)
    requires 0 <= k < 10
    ensures IsDigit(DIGITS[k]) && DigitValue(DIGITS[k]) == k
  {}

  lemma ParsesTwo(s: string, i: nat, n: int)
    requires 0 <= n < 100 && i + 2 <= |s| && s[i..i + 2] == Two(n)
    ensures TwoDigits(s, i) && TwoValue(s, i) == n
  {
    DigitsInvert(n / 10);
    DigitsInvert(n % 10);
    hide IsDigit, DigitValue;
    assert s[i] == s[i..i + 2][0] && s[i + 1] == s[i..i + 2][1];
  }

  lemma ZoneRoundTrip(offset: int)
    requires -360_000 < offset < 360_000
    ensures ParseZone(FormatZone(offset)) == Some(TruncDiv(offset, 60) * 60)
  {
    hide AppendInt, Two, TwoDigits, TwoValue;
    if offset != 0 {
      var zone := TruncDiv(offset, 60);
      var mag := if zone < 0 then -zone else zone;
      var s := FormatZone(offset);
      var h, m := mag / 60, mag % 60;
      assert 0 <= mag < 6000 && 0 <= h < 100;
      PadTwo(h);
      PadTwo(m);
      TwoLength(h);
      TwoLength(m);
      assert s == s[..1] + Two(h) + ":" + Two(m);
      assert s[1..3] == Two(h) && s[4..6] == Two(m);
      ParsesTwo(s, 1, h);
      ParsesTwo(s, 4, m);
    }
  }

  /** The zone of a whole number of minutes: Z, or the sign, + for east of Greenwich, and hours and minutes. */
  lemma ZoneText(offset: int)
    requires -360_000 < offset < 360_000 && offset % 60 == 0
    ensures var size := if offset < 0 then -offset else offset;
            FormatZone(offset) == if offset == 0 then "Z"
                                  else (if offset < 0 then "-" else "+") + Two(size / 3600) + ":" + Two(size / 60 % 60)
  {
    hide AppendInt, Two, TruncDiv;
    if offset != 0 {
      var size := if offset < 0 then -offset else offset;
      ZoneParts(offset, size);
      PadTwo(size / 3600);
      PadTwo(size / 60 % 60);
    }
  }

  lemma ZoneParts(offset: int, size: int)
    requires size == if offset < 0 then -offset else offset
    requires 0 < size < 360_000 && offset % 60 == 0
    ensures var zone := TruncDiv(offset, 60);
            (zone < 0 <==> offset < 0) && (if zone < 0 then -zone else zone) == size / 60
    ensures 0 <= size / 60 / 60 == size / 3600 < 100
  {}

  lemma ZoneWhole(offset: int)
    ensures TruncDiv(offset, 60) * 60 == offset <==> offset % 60 == 0
  {}

  lemma TwoLength(n: int)
    requires 0 <= n < 100
    ensures |Two(n)| == 2
  {}

  lemma JoinedDate(c: string, y: string, m: string, d: string)
    requires |c| == |y| == |m| == |d| == 2
    ensures var s := c + y + "-" + m + "-" + d;
            && |s| == 10 && s[0..2] == c && s[2..4] == y && s[4] == '-' && s[5..7] == m && s[7] == '-' && s[8..10] == d
  {
    var s := [c[0], c[1], y[0], y[1], '-', m[0], m[1], '-', d[0], d[1]];
    assert c + y + "-" + m + "-" + d == s;
    assert s[0..2] == c && s[2..4] == y && s[5..7] == m && s[8..10] == d;
  }

  lemma DatePieces(t: Time)
    requires Valid(t) && 0 <= t.year <= 9999
    ensures var s := FormatDate(t);
            && |s| == 10 && s[0..2] == Two(t.year / 100) && s[2..4] == Two(t.year % 100) && s[4] == '-'
            && s[5..7] == Two(t.month) && s[7] == '-' && s[8..10] == Two(t.day)
  {
    hide AppendInt, Two;
    PadFour(t.year);
    PadTwo(t.month); PadTwo(t.day);
    TwoLength(t.year / 100); TwoLength(t.year % 100); TwoLength(t.month); TwoLength(t.day);
    JoinedDate(Two(t.year / 100), Two(t.year % 100), Two(t.month), Two(t.day));
  }

  lemma ClockPieces(t: Time)
    requires Valid(t)
    ensures var s := FormatClock(t);
            && |s| == 8 && s[0..2] == Two(t.hour) && s[2] == ':' && s[3..5] == Two(t.minute) && s[5] == ':'
            && s[6..8] == Two(t.second)
  {
    PadTwo(t.hour); PadTwo(t.minute); PadTwo(t.second);
    TwoLength(t.hour); TwoLength(t.minute); TwoLength(t.second);
    hide AppendInt, Two;
  }

  lemma SliceOfSlice(s: string, lo: nat, hi: nat, i: nat, j: nat)
    requires lo <= hi <= |s| && i <= j <= hi - lo
    ensures s[lo..hi][i..j] == s[lo + i..lo + j]
  {
    var a, b := s[lo..hi][i..j], s[lo + i..lo + j];
    assert |a| == |b|;
    assert forall k :: 0 <= k < |a| ==> a[k] == b[k];
  }

  lemma JoinedText(date: string, clock: string, zone: string)
    requires |date| == 10 && |clock| == 8
    ensures var s := date + "T" + clock + zone;
            |s| >= 19 && s[0..10] == date && s[10] == 'T' && s[11..19] == clock && s[19..] == zone
  {}

  lemma FormatParts(t: Time)
    requires Valid(t) && 0 <= t.year <= 9999
    ensures |Format(t)| >= 19 && Format(t)[0..10] == FormatDate(t) && Format(t)[10] == 'T'
    ensures |Format(t)| >= 19 && Format(t)[11..19] == FormatClock(t) && Format(t)[19..] == FormatZone(t.offset)
  {
    FormatLengths(t);
    hide FormatDate, FormatClock, FormatZone, Valid;
    JoinedText(FormatDate(t), FormatClock(t), FormatZone(t.offset));
  }

  lemma ParsesDate(t: Time, s: string)
    requires Valid(t) && 0 <= t.year <= 9999 && |s| >= 19 && s[0..10] == FormatDate(t)
    ensures TwoDigits(s, 0) && TwoDigits(s, 2) && s[4] == '-' && TwoDigits(s, 5) && s[7] == '-' && TwoDigits(s, 8)
    ensures TwoDigits(s, 0) && TwoDigits(s, 2) && 100 * TwoValue(s, 0) + TwoValue(s, 2) == t.year
    ensures TwoDigits(s, 5) && TwoDigits(s, 8) && TwoValue(s, 5) == t.month && TwoValue(s, 8) == t.day
  {
    DatePieces(t);
    hide FormatDate, Two, TwoDigits, TwoValue;
    SliceOfSlice(s, 0, 10, 0, 2); SliceOfSlice(s, 0, 10, 2, 4); SliceOfSlice(s, 0, 10, 5, 7);
    SliceOfSlice(s, 0, 10, 8, 10);
    assert s[4] == s[0..10][4] && s[7] == s[0..10][7];
    ParsesTwo(s, 0, t.year / 100); ParsesTwo(s, 2, t.year % 100); ParsesTwo(s, 5, t.month); ParsesTwo(s, 8, t.day);
  }

  lemma ParsesClock(t: Time, s: string)
    requires Valid(t) && |s| >= 19 && s[11..19] == FormatClock(t)
    ensures TwoDigits(s, 11) && s[13] == ':' && TwoDigits(s, 14) && s[16] == ':' && TwoDigits(s, 17)
    ensures TwoDigits(s, 11) && TwoValue(s, 11) == t.hour
    ensures TwoDigits(s, 14) && TwoDigits(s, 17) && TwoValue(s, 14) == t.minute && TwoValue(s, 17) == t.second
  {
    ClockPieces(t);
    hide FormatClock, Two, TwoDigits, TwoValue;
    SliceOfSlice(s, 11, 19, 0, 2); SliceOfSlice(s, 11, 19, 3, 5); SliceOfSlice(s, 11, 19, 6, 8);
    assert s[13] == s[11..19][2] && s[16] == s[11..19][5];
    ParsesTwo(s, 11, t.hour); ParsesTwo(s, 14, t.minute); ParsesTwo(s, 17, t.second);
  }

  /** The whole text of such a reading: year, month and day, T, hour, minute and second, each of two digits, and
      the zone. */
  lemma TextIs(t: Time)
    requires Encodable(t)
    ensures Format(t) == Two(t.year / 100) + Two(t.year % 100) + "-" + Two(t.month) + "-" + Two(t.day) + "T"
                         + Two(t.hour) + ":" + Two(t.minute) + ":" + Two(t.second) + FormatZone(t.offset)
  {
    hide AppendInt, Two, FormatZone;
    PadFour(t.year);
    PadTwo(t.month); PadTwo(t.day); PadTwo(t.hour); PadTwo(t.minute); PadTwo(t.second);
    var date := Two(t.year / 100) + Two(t.year % 100) + "-" + Two(t.month) + "-" + Two(t.day);
    assert FormatDate(t) == date;
    assert date + "T" + (Two(t.hour) + ":" + Two(t.minute) + ":" + Two(t.second))
        == date + "T" + Two(t.hour) + ":" + Two(t.minute) + ":" + Two(t.second);
  }

  /** What comes back of any reading of a four-digit year: the fraction and the odd seconds of the zone
      offset are gone. */
  lemma FormatThenParse(t: Time)
    requires Valid(t) && 0 <= t.year <= 9999
    ensures Parse(Format(t)) == Some(t.(nanos := 0, offset := TruncDiv(t.offset, 60) * 60))
  {
    hide FormatZone, ParseZone, Format, FormatDate, FormatClock, TwoDigits, TwoValue, TruncDiv;
    FormatParts(t);
    ParsesDate(t, Format(t));
    ParsesClock(t, Format(t));
    ZoneRoundTrip(t.offset);
  }

  lemma {:induction false} DecimalLength(n: nat, width: nat)
    requires width > 0 && n >= Pow10(width - 1)
    ensures |Decimal(n)| >= width
    ensures forall i :: 0 <= i < |Decimal(n)| ==> IsDigit(Decimal(n)[i])
  {
    if n >= 10 {
      if width == 1 {
        DecimalLength(n / 10, 1);
      } else {
        DecimalLength(n / 10, width - 1);
      }
    }
  }

  function Pow10(e: nat): (r: nat)
    ensures r > 0
  {
    if e == 0 then 1 else 10 * Pow10(e - 1)
  }

  /** Years outside 0 to 9999 do not fit the format, and their text does not parse. */
  lemma OtherYearsDoNotParse(t: Time)
    requires Valid(t) && !(0 <= t.year <= 9999)
    ensures Parse(Format(t)) == None
  {
    var s := Format(t);
    if t.year < 0 {
      assert s[0] == '-';
    } else {
      assert Pow10(4) == 10_000 by {
        assert Pow10(1) == 10 && Pow10(2) == 100 && Pow10(3) == 1000;
      }
      DecimalLength(t.year, 5);
      assert s[4] == Decimal(t.year)[4];
    }
  }

  /** A second trip changes nothing any more, unless the zone was written as 100 hours or more. */
  lemma SecondTrip(s: string)
    requires Parse(s).Some?
    ensures Parse(Format(Parse(s).value)) == Parse(s) <==> -360_000 < Parse(s).value.offset < 360_000
  {
    var t := Parse(s).value;
    ParsedFields(s);
    ParsedZone(s[19..]);
    hide Parse, ParseZone, Format, FormatZone, TruncDiv;
    if -360_000 < t.offset < 360_000 {
      FormatThenParse(t);
    } else {
      FarZoneDoesNotParse(t.offset);
      ZoneEndsFormat(t);
      ZoneMustParse(Format(t));
    }
  }

  lemma ParsedFields(s: string)
    requires Parse(s).Some?
    ensures var t := Parse(s).value;
            && |s| >= 19 && ParseZone(s[19..]) == Some(t.offset) && t.nanos == 0
            && 0 <= t.year <= 9999 && 1 <= t.month <= 12 && 1 <= t.day <= DaysIn(t.year, t.month)
            && 0 <= t.hour < 24 && 0 <= t.minute < 60 && 0 <= t.second < 60
  {
    hide ParseZone, TwoDigits, TwoValue;
  }

  lemma ZoneMustParse(s: string)
    requires |s| >= 19 && ParseZone(s[19..]) == None
    ensures Parse(s) == None
  {
    hide ParseZone;
  }

  lemma ZoneEndsFormat(t: Time)
    requires 0 <= t.year <= 9999 && 1 <= t.month <= 12 && 1 <= t.day <= DaysIn(t.year, t.month)
    requires 0 <= t.hour < 24 && 0 <= t.minute < 60 && 0 <= t.second < 60
    ensures |Format(t)| >= 19 && Format(t)[19..] == FormatZone(t.offset)
  {
    FormatLengths(t);
    hide FormatDate, FormatClock, FormatZone;
  }

  lemma ParsedZone(s: string)
    requires ParseZone(s).Some?
    ensures var z := ParseZone(s).value; -363_000 < z < 363_000 && z % 60 == 0 && TruncDiv(z, 60) * 60 == z
  {}

  lemma FarZoneDoesNotParse(offset: int)
    requires 360_000 <= offset < 363_000 || -363_000 < offset <= -360_000
    ensures ParseZone(FormatZone(offset)) == None
  {
    var zone := TruncDiv(offset, 60);
    var mag := if zone < 0 then -zone else zone;
    assert mag / 60 == 100;
    assert Decimal(100) == "100" by {
      LastTwoDigits(100);
    }
    PadTwo(mag % 60);
    hide Decimal;
    assert |FormatZone(offset)| == 7;
  }

  lemma FormatLengths(t: Time)
    requires 0 <= t.year <= 9999 && 1 <= t.month <= 12 && 1 <= t.day <= DaysIn(t.year, t.month)
    requires 0 <= t.hour < 24 && 0 <= t.minute < 60 && 0 <= t.second < 60
    ensures |FormatDate(t)| == 10 && |FormatClock(t)| == 8
  {
    PadFour(t.year);
    PadTwo(t.month); PadTwo(t.day); PadTwo(t.hour); PadTwo(t.minute); PadTwo(t.second);
    hide AppendInt;
  }
}
