/** The real-time clock abstraction: calendar arithmetic, the daylight-saving
    (DST) state machine layered on the raw DS3231 reading, and the BCD encoding
    of the DS3231 registers. The raw reading is a parameter: the I2C transfer
    itself is not modelled. */
module Rtc {
  import opened Ints

  const MinutesPerHour := 60
  const MinutesPerDay := 1440

  lemma DayHasTwentyFourHours()
    ensures MinutesPerDay == 24 * MinutesPerHour
  {
  }

  /** RtcControl::hours; the parameter is an AVR `int` (16 bits). */
  function Hours(m: int16): (h: uint8)
    ensures 0 <= m < 256 * MinutesPerHour ==> h == m / MinutesPerHour
    ensures 0 <= m < MinutesPerDay ==> h < 24
  {
    ToU8(CDiv(m, MinutesPerHour))
  }

  /** RtcControl::minutes: the C remainder, truncated to uint8. */
  function Minutes(m: int16): (r: uint8)
    ensures 0 <= m ==> r == m % MinutesPerHour && r < MinutesPerHour
    ensures m < 0 ==> r == if CRem(m, MinutesPerHour) == 0 then 0 else 0x100 + CRem(m, MinutesPerHour)
  {
    ToU8(CRem(m, MinutesPerHour))
  }

  /** Splitting a minute of the day into hours and minutes loses nothing. */
  lemma HoursMinutesJoin(m: int16)
    requires 0 <= m < MinutesPerDay
    ensures Hours(m) * MinutesPerHour + Minutes(m) == m
    ensures Hours(m) < 24 && Minutes(m) < MinutesPerHour
  {
  }

  // ---------------------------------------------------------------- calendar

  const DaysInMonth: seq<uint8> := [31, 28, 31, 30, 31, 30, 31, 31, 30, 31, 30, 31]

  /** getDaysPerMonth: the month table, plus one for February of every year divisible by 4
      (the table is indexed by month - 1, so months outside 1..12 are out of bounds). */
  function DaysPerMonth(month: uint8, year: uint16): (days: uint8)
    requires 1 <= month <= 12
    ensures 28 <= days <= 31
    ensures month == 2 ==> (days == 29 <==> year % 4 == 0) && (days == 28 <==> year % 4 != 0)
    ensures month != 2 ==> (days == 30 <==> month in {4, 6, 9, 11}) && (days == 31 <==> month !in {4, 6, 9, 11})
  {
    var days := DaysInMonth[month - 1];
    if month == 2 && year % 4 == 0 then days + 1 else days
  }

  /** The dates the DS3231 can hold (its year register has two BCD digits). */
  predicate ValidDate(year: int, month: int, day: int)
  {
    2000 <= year <= 2099 && 1 <= month <= 12 && 1 <= day <= DaysPerMonth(month, year)
  }

  /** The calendar date after (year, month, day). */
  function NextDate(year: int, month: int, day: int): (int, int, int)
    requires ValidDate(year, month, day)
  {
    if day < DaysPerMonth(month, year) then (year, month, day + 1)
    else if month < 12 then (year, month + 1, 1)
    else (year + 1, 1, 1)
  }

  /** The calendar date before (year, month, day); NextDate undoes it. */
  function PrevDate(year: int, month: int, day: int): (p: (int, int, int))
    requires ValidDate(year, month, day) && (year, month, day) != (2000, 1, 1)
    ensures ValidDate(p.0, p.1, p.2) && NextDate(p.0, p.1, p.2) == (year, month, day)
  {
    if day > 1 then (year, month, day - 1)
    else if month > 1 then (year, month - 1, DaysPerMonth(month - 1, year))
    else (year - 1, 12, 31)
  }

  /** The year part of the congruence: `yy + yy/4 - yy/100 + yy/400`. */
  function YearKey(yy: int): int
    requires yy >= 0
  {
    yy + yy / 4 - yy / 100 + yy / 400
  }

  /** The sum of the day-of-week congruence; month 13 is the value getMonth reports
      on 31 December under DST. */
  function WeekKey(year: uint16, month: uint8, day: uint8): (k: int)
    requires 1 <= year < 10000 && 1 <= month <= 13
    ensures k >= 0
  {
    var adjustment := (14 - month) / 12;
    var mm := month + 12 * adjustment - 2;
    var yy := year - adjustment;
    day + (13 * mm - 1) / 5 + YearKey(yy)
  }

  /** dayOfTheWeek: a Gregorian congruence, 0 = Sunday. All terms are non-negative for
      the arguments the clock passes, so C's `/` and `%` agree with Dafny's here. */
  function DayOfTheWeek(year: uint16, month: uint8, day: uint8): (dow: uint8)
    requires 1 <= year < 10000 && 1 <= month <= 13
    ensures dow < 7
  {
    WeekKey(year, month, day) % 7
  }

  /** The month part of the key, for the months of a valid date. */
  function MonthShift(month: int): int
    requires 1 <= month <= 12
  {
    [28, 31, 2, 5, 7, 10, 12, 15, 18, 20, 23, 25][month - 1]
  }

  lemma WeekKeyByMonth(year: int, month: int, day: int)
    requires ValidDate(year, month, day)
    ensures WeekKey(year, month, day) == day + MonthShift(month) + YearKey(if month <= 2 then year - 1 else year)
  {
  }

  /** Each year adds one weekday, two after a 29 February. */
  lemma YearKeyStep(year: int)
    requires 2000 <= year <= 2099
    ensures YearKey(year) - YearKey(year - 1) == if year % 4 == 0 then 2 else 1
  {
    if year != 2000 {
      assert year / 100 == (year - 1) / 100 == 20;
      assert year / 400 == (year - 1) / 400 == 5;
      assert year / 4 == (year - 1) / 4 + (if year % 4 == 0 then 1 else 0);
    }
  }

  /** 1 January 2000 was a Saturday. */
  lemma FirstDayOfCentury()
    ensures DayOfTheWeek(2000, 1, 1) == 6
  {
  }

  /** The month shifts of consecutive months differ by the earlier month's length less 28. */
  lemma MonthShiftStep(year: uint16, month: int)
    requires 1 <= month < 12 && month != 2
    ensures MonthShift(month + 1) - MonthShift(month) == DaysPerMonth(month, year) - 28
  {
    if month == 1 {
    } else if month == 3 {
    } else if month == 4 {
    } else if month == 5 {
    } else if month == 6 {
    } else if month == 7 {
    } else if month == 8 {
    } else if month == 9 {
    } else if month == 10 {
    } else {
      assert month == 11;
    }
  }

  lemma WeekKeyMonthEnd(year: int, month: int)
    requires 2000 <= year <= 2099 && 1 <= month < 12 && month != 2
    ensures WeekKey(year, month + 1, 1) - WeekKey(year, month, DaysPerMonth(month, year)) == -27
  {
    var last := DaysPerMonth(month, year);
    WeekKeyByMonth(year, month, last);
    WeekKeyByMonth(year, month + 1, 1);
    MonthShiftStep(year, month);
    assert (month <= 2) == (month + 1 <= 2);
  }

  lemma WeekKeyFebruaryEnd(year: int)
    requires 2000 <= year <= 2099
    ensures WeekKey(year, 3, 1) - WeekKey(year, 2, DaysPerMonth(2, year)) == -55
  {
    WeekKeyByMonth(year, 2, DaysPerMonth(2, year));
    WeekKeyByMonth(year, 3, 1);
    YearKeyStep(year);
  }

  lemma WeekKeyYearEnd(year: int)
    requires 2000 <= year < 2099
    ensures WeekKey(year + 1, 1, 1) - WeekKey(year, 12, 31) == -27
  {
    WeekKeyByMonth(year, 12, 31);
    WeekKeyByMonth(year + 1, 1, 1);
  }

  /** The key grows by one per calendar day, modulo 7. */
  lemma {:induction false} WeekKeyAdvances(year: int, month: int, day: int)
    requires ValidDate(year, month, day) && (year, month, day) != (2099, 12, 31)
    ensures var (y, m, d) := NextDate(year, month, day);
      ValidDate(y, m, d) && (WeekKey(y, m, d) - WeekKey(year, month, day)) % 7 == 1
  {
    var (y, m, d) := NextDate(year, month, day);
    var k0 := WeekKey(year, month, day);
    if day < DaysPerMonth(month, year) {
      assert (y, m, d) == (year, month, day + 1);
      WeekKeyByMonth(year, month, day);
      WeekKeyByMonth(year, month, day + 1);
      assert WeekKey(y, m, d) == k0 + 1;
    } else if month == 2 {
      assert (y, m, d) == (year, 3, 1);
      WeekKeyFebruaryEnd(year);
      assert WeekKey(y, m, d) == k0 - 55;
    } else if month == 12 {
      assert (y, m, d) == (year + 1, 1, 1);
      WeekKeyYearEnd(year);
      assert WeekKey(y, m, d) == k0 - 27;
    } else {
      assert (y, m, d) == (year, month + 1, 1);
      WeekKeyMonthEnd(year, month);
      assert WeekKey(y, m, d) == k0 - 27;
    }
  }

  lemma ModSevenStep(a: int, b: int)
    requires (b - a) % 7 == 1
    ensures b % 7 == (a % 7 + 1) % 7
  {
    var q := (b - a) / 7;
    assert b == a + 1 + 7 * q;
  }

  /** The weekday advances by exactly one per calendar day (together with
      FirstDayOfCentury this pins the congruence down on the whole range). */
  lemma {:induction false} DayOfTheWeekAdvances(year: int, month: int, day: int)
    requires ValidDate(year, month, day) && (year, month, day) != (2099, 12, 31)
    ensures var (y, m, d) := NextDate(year, month, day);
      ValidDate(y, m, d) && DayOfTheWeek(y, m, d) == (DayOfTheWeek(year, month, day) + 1) % 7
  {
    var (y, m, d) := NextDate(year, month, day);
    WeekKeyAdvances(year, month, day);
    var k0, k1 := WeekKey(year, month, day), WeekKey(y, m, d);
    ModSevenStep(k0, k1);
  }

  // ---------------------------------------------------------------- BCD

  /** bin2bcd: tens digit in the high nibble, units in the low nibble. */
  function Bin2Bcd(v: uint8): (r: uint8)
    ensures v <= 99 ==> r / 16 == v / 10 && r % 16 == v % 10
  {
    ToU8(v + 6 * (v / 10))
  }

  /** bcd2bin: `val - 6 * (val >> 4)`. */
  function Bcd2Bin(v: uint8): (r: uint8)
    ensures v / 16 <= 9 && v % 16 <= 9 ==> r == 10 * (v / 16) + v % 16
  {
    ToU8(v - 6 * (v / 16))
  }

  lemma BcdRoundTrip(v: uint8)
    requires v <= 99
    ensures Bcd2Bin(Bin2Bcd(v)) == v
  {
    var b := Bin2Bcd(v);
    assert b / 16 == v / 10 && b % 16 == v % 10;
  }

  // ---------------------------------------------------------------- DST

  /** A date and time as the DS3231 reports it: standard (winter) time. */
  datatype Reading = Reading(year: uint16, month: uint8, day: uint8, minutes: uint16)

  predicate ValidReading(r: Reading)
  {
    ValidDate(r.year, r.month, r.day) && r.minutes < MinutesPerDay
  }

  /** getMinutesSinceMidnight: one hour later under DST, wrapping at midnight. */
  function LocalMinutes(r: Reading, dst: bool): (m: uint16)
    ensures !dst ==> m == r.minutes
    ensures dst ==> m < MinutesPerDay
    ensures dst && r.minutes + 60 < MinutesPerDay ==> m == r.minutes + 60
    ensures dst && MinutesPerDay <= r.minutes + 60 < 2 * MinutesPerDay ==> m == r.minutes + 60 - MinutesPerDay
  {
    if dst then ToU16(r.minutes + 60) % MinutesPerDay else r.minutes
  }

  /** Whether the DST hour pushes the local time past midnight. */
  predicate CrossesMidnight(r: Reading, dst: bool)
  {
    dst && ToU16(r.minutes + 60) / MinutesPerDay == 1
  }

  /** getDay: the next day of the month (1 after the last day) when the DST hour crosses midnight. */
  function LocalDay(r: Reading, dst: bool): uint8
    requires 1 <= r.month <= 12
  {
    if CrossesMidnight(r, dst) then
      (if r.day == DaysPerMonth(r.month, r.year) then 1 else ToU8(r.day + 1))
    else r.day
  }

  /** getMonth: the next month only when crossing midnight on the month's last day. */
  function LocalMonth(r: Reading, dst: bool): uint8
    requires 1 <= r.month <= 12
  {
    if CrossesMidnight(r, dst) && r.day == DaysPerMonth(r.month, r.year) then ToU8(r.month + 1)
    else r.month
  }

  /** The local date is the raw date, or the next calendar date when the DST hour crosses
      midnight; the year never advances, so on 31 December it reads as month 13. */
  lemma LocalDateIsNextDate(r: Reading, dst: bool)
    requires ValidReading(r)
    ensures !CrossesMidnight(r, dst) ==> LocalDay(r, dst) == r.day && LocalMonth(r, dst) == r.month
    ensures CrossesMidnight(r, dst) <==> dst && r.minutes >= MinutesPerDay - 60
    ensures CrossesMidnight(r, dst) && !(r.month == 12 && r.day == 31) ==>
      NextDate(r.year, r.month, r.day) == (r.year as int, LocalMonth(r, dst) as int, LocalDay(r, dst) as int)
    ensures CrossesMidnight(r, dst) && r.month == 12 && r.day == 31 ==>
      LocalMonth(r, dst) == 13 && LocalDay(r, dst) == 1
  {
  }

  /** The DST flag after updateNow: off on an October Sunday from the 25th at local
      03:xx, on on a March Sunday from the 25th at local 02:xx, otherwise unchanged. */
  function DstAfterUpdate(r: Reading, dst: bool): bool
    requires ValidReading(r)
  {
    var month := LocalMonth(r, dst);
    var day := LocalDay(r, dst);
    var dow := DayOfTheWeek(r.year, month, day);
    var hour := Hours(ToI16(LocalMinutes(r, dst)));
    if dst && month == 10 && day >= 25 && dow == 0 && hour == 3 then false
    else if !dst && month == 3 && day >= 25 && dow == 0 && hour == 2 then true
    else dst
  }

  /** The last Sunday of the month: a Sunday with less than a week of the month left. */
  predicate IsLastSunday(year: uint16, month: uint8, day: uint8)
    requires ValidDate(year, month, day)
  {
    DayOfTheWeek(year, month, day) == 0 && day + 7 > DaysPerMonth(month, year)
  }

  /** updateNow turns summer time off only on the last Sunday of October and on only on the
      last Sunday of March, in both cases during raw 02:xx (standard time), which is 01:xx UTC;
      and at those instants it always does. */
  lemma DstFlipsOnlyAtBoundaries(r: Reading, dst: bool)
    requires ValidReading(r)
    ensures DstAfterUpdate(r, dst) != dst <==>
      r.month == (if dst then 10 else 3) && IsLastSunday(r.year, r.month, r.day) && 120 <= r.minutes < 180
  {
    if DstAfterUpdate(r, dst) != dst {
      assert LocalDay(r, dst) >= 25;
      assert !CrossesMidnight(r, dst) by {
        if CrossesMidnight(r, dst) {
          LocalDateIsNextDate(r, dst);
        }
      }
      assert LocalMinutes(r, dst) == r.minutes + (if dst then 60 else 0);
    }
  }

  /** No oscillation: a second update from the same reading keeps the flag the first one set. */
  lemma {:induction false} DstUpdateStable(r: Reading, dst: bool)
    requires ValidReading(r)
    ensures DstAfterUpdate(r, DstAfterUpdate(r, dst)) == DstAfterUpdate(r, dst)
  {
    var d1 := DstAfterUpdate(r, dst);
    DstFlipsOnlyAtBoundaries(r, dst);
    DstFlipsOnlyAtBoundaries(r, d1);
  }

  /** EU summer time by date (Directive 2000/84/EC, Articles 2 and 3), ignoring the hour of
      the switch: from the last Sunday of March until the last Sunday of October. Both months
      have 31 days, so their last Sunday is the Sunday falling on the 25th or later. */
  ghost predicate LastSundayReached(year: int, month: int, day: int)
    requires 2000 <= year <= 2099 && 1 <= month <= 12
  {
    exists s :: 25 <= s <= day && s <= 31 && DayOfTheWeek(year, month, s) == 0
  }

  ghost predicate EuSummerTime(year: int, month: int, day: int)
    requires ValidDate(year, month, day)
  {
    (3 < month < 10) ||
    (month == 3 && LastSundayReached(year, month, day)) ||
    (month == 10 && !LastSundayReached(year, month, day))
  }

  /** checkDayLightSaving as written: the "previous Sunday" is `day - (dow + 1)` held in a uint8. */
  function DstFromDateAsWritten(month: uint8, day: uint8, dow: uint8): bool
  {
    if month < 3 || month > 10 then false
    else if month > 3 && month < 10 then true
    else
      var previousSunday := ToU8(day - (dow + 1));
      if month == 3 then previousSunday >= 25 else previousSunday < 25
  }

  /** The as-written rule misses DST the day after a 25 March Sunday (2018-03-26) and
      turns it on in early March when the uint8 wraps (2018-03-03, a Saturday). */
  lemma DstFromDateAsWrittenCounterexample()
    ensures EuSummerTime(2018, 3, 26) && !DstFromDateAsWritten(3, 26, DayOfTheWeek(2018, 3, 26))
    ensures !EuSummerTime(2018, 3, 3) && DstFromDateAsWritten(3, 3, DayOfTheWeek(2018, 3, 3))
  {
    assert DayOfTheWeek(2018, 3, 25) == 0;
    assert DayOfTheWeek(2018, 3, 26) == 1;
    assert DayOfTheWeek(2018, 3, 3) == 6;
  }

  /** checkDayLightSaving as evidently intended: the Sunday on or before today is `day - dow`,
      computed without wrap-around. */
  function DstFromDate(month: uint8, day: uint8, dow: uint8): bool
  {
    if month < 3 || month > 10 then false
    else if month > 3 && month < 10 then true
    else if month == 3 then day - dow >= 25
    else day - dow < 25
  }

  /** Subtracting the remainder lands on a multiple of 7. */
  lemma ModSevenFloor(base: int, day: int)
    ensures (base + (day - (base + day) % 7)) % 7 == 0
  {
    var q := (base + day) / 7;
    assert base + (day - (base + day) % 7) == 7 * q;
  }

  /** A multiple of 7 at or below `base + day` is at or below `base + day` minus its remainder. */
  lemma ModSevenLatest(base: int, day: int, s: int)
    requires (base + s) % 7 == 0 && s <= day
    ensures day - (base + day) % 7 >= s
  {
    var q := (base + s) / 7;
    var k := day - s;
    assert base + day == 7 * q + k;
    assert (base + day) % 7 == k % 7;
  }

  /** `day - dow` is the Sunday on or before `day`; it is at least 25 exactly when the
      month's last Sunday has been reached. */
  lemma {:induction false} SundayOnOrBefore(year: int, month: int, day: int)
    requires ValidDate(year, month, day)
    ensures day - DayOfTheWeek(year, month, day) >= 25 <==> LastSundayReached(year, month, day)
  {
    var dow := DayOfTheWeek(year, month, day);
    var base := MonthShift(month) + YearKey(if month <= 2 then year - 1 else year);
    WeekKeyByMonth(year, month, day);
    assert dow == (base + day) % 7;
    if day - dow >= 25 {
      var s := day - dow;
      WeekKeyByMonth(year, month, s);
      ModSevenFloor(base, day);
      assert DayOfTheWeek(year, month, s) == 0;
    }
    if LastSundayReached(year, month, day) {
      var s :| 25 <= s <= day && s <= 31 && DayOfTheWeek(year, month, s) == 0;
      WeekKeyByMonth(year, month, s);
      ModSevenLatest(base, day, s);
    }
  }

  /** The corrected rule agrees with EU summer time on every date of the clock's range. */
  lemma DstFromDateIsEuSummerTime(year: int, month: int, day: int)
    requires ValidDate(year, month, day)
    ensures DstFromDate(month, day, DayOfTheWeek(year, month, day)) == EuSummerTime(year, month, day)
  {
    SundayOnOrBefore(year, month, day);
  }

  /** checkDayLightSaving (corrected) as a function of the raw reading and the current flag:
      the rule is applied to the local date. */
  function DstFromReading(r: Reading, dst: bool): bool
    requires ValidReading(r)
  {
    var month := LocalMonth(r, dst);
    var day := LocalDay(r, dst);
    DstFromDate(month, day, DayOfTheWeek(r.year, month, day))
  }

  /** Away from the midnight crossing, re-deriving DST gives EU summer time of the date read. */
  lemma DstFromReadingIsEuSummerTime(r: Reading, dst: bool)
    requires ValidReading(r) && !CrossesMidnight(r, dst)
    ensures DstFromReading(r, dst) == EuSummerTime(r.year, r.month, r.day)
  {
    DstFromDateIsEuSummerTime(r.year, r.month, r.day);
  }

  /** EU summer time at a raw instant: the clock keeps standard time (CET), and the switches
      happen at 01:00 UTC, i.e. raw 02:00, on the last Sunday of March and of October. */
  ghost predicate SwitchPassed(r: Reading)
    requires ValidReading(r)
  {
    LastSundayReached(r.year, r.month, r.day) && !(IsLastSunday(r.year, r.month, r.day) && r.minutes < 120)
  }

  ghost predicate SummerTimeAt(r: Reading)
    requires ValidReading(r)
  {
    (3 < r.month < 10) || (r.month == 3 && SwitchPassed(r)) || (r.month == 10 && !SwitchPassed(r))
  }

  /** The raw reading one minute later. */
  function NextMinute(r: Reading): (n: Reading)
    requires ValidReading(r) && r != Reading(2099, 12, 31, MinutesPerDay - 1)
    ensures ValidReading(n)
  {
    if r.minutes + 1 < MinutesPerDay then r.(minutes := r.minutes + 1)
    else
      DayOfTheWeekAdvances(r.year, r.month, r.day);
      var (y, m, d) := NextDate(r.year, r.month, r.day);
      Reading(y, m, d, 0)
  }

  /** In a 31-day month the last Sunday falls on the 25th or later. */
  lemma LastSundayIsReached(year: uint16, month: uint8, day: uint8)
    requires ValidDate(year, month, day) && DaysPerMonth(month, year) == 31
    ensures IsLastSunday(year, month, day) ==> LastSundayReached(year, month, day)
  {
    if IsLastSunday(year, month, day) {
      assert 25 <= day && DayOfTheWeek(year, month, day) == 0;
    }
  }

  /** A 31-day month always has its last Sunday by the 31st. */
  lemma LastSundayByMonthEnd(year: uint16, month: uint8)
    requires 2000 <= year <= 2099 && 1 <= month <= 12 && DaysPerMonth(month, year) == 31
    ensures LastSundayReached(year, month, 31)
  {
    SundayOnOrBefore(year, month, 31);
  }

  /** At midnight inside March or October, the switch has passed exactly when it had passed
      at 23:59 the day before. */
  lemma {:induction false} SwitchPassedOverMidnight(r: Reading)
    requires ValidReading(r) && r.minutes == MinutesPerDay - 1 && r.day < DaysPerMonth(r.month, r.year)
    requires r.month == 3 || r.month == 10
    ensures SwitchPassed(NextMinute(r)) == SwitchPassed(r)
  {
    var n := NextMinute(r);
    assert n == Reading(r.year, r.month, r.day + 1, 0);
    DayOfTheWeekAdvances(r.year, r.month, r.day);
    SundayOnOrBefore(r.year, r.month, r.day);
    SundayOnOrBefore(n.year, n.month, n.day);
  }

  /** EU summer time changes from one minute to the next only at raw 02:00 on the last
      Sunday of March (to summer) or October (to winter). */
  lemma {:induction false} SummerTimeStep(r: Reading)
    requires ValidReading(r) && r != Reading(2099, 12, 31, MinutesPerDay - 1)
    ensures var n := NextMinute(r);
      SummerTimeAt(n) != SummerTimeAt(r) ==>
        (n.month == 3 || n.month == 10) && IsLastSunday(n.year, n.month, n.day) && n.minutes == 120 &&
        SummerTimeAt(n) == (n.month == 3)
  {
    var n := NextMinute(r);
    if r.minutes + 1 < MinutesPerDay {
      if SummerTimeAt(n) != SummerTimeAt(r) {
        assert n.month == r.month && n.day == r.day;
        assert IsLastSunday(n.year, n.month, n.day) && n.minutes == 120;
        assert LastSundayReached(n.year, n.month, n.day);
      }
    } else if r.day < DaysPerMonth(r.month, r.year) {
      assert n.month == r.month;
      if r.month == 3 || r.month == 10 {
        SwitchPassedOverMidnight(r);
      }
    } else {
      assert n.day == 1;
      if r.month == 3 || r.month == 10 {
        LastSundayByMonthEnd(r.year, r.month);
      }
      assert !LastSundayReached(n.year, n.month, n.day);
    }
  }

  /** The flag updateNow keeps follows EU summer time minute by minute: if it was right for
      one reading, it is right after the update for the next minute's reading. */
  lemma DstTracksSummerTime(r: Reading, dst: bool)
    requires ValidReading(r) && r != Reading(2099, 12, 31, MinutesPerDay - 1)
    requires dst == SummerTimeAt(r)
    ensures DstAfterUpdate(NextMinute(r), dst) == SummerTimeAt(NextMinute(r))
  {
    var n := NextMinute(r);
    DstFlipsOnlyAtBoundaries(n, dst);
    SummerTimeStep(r);
    if DstAfterUpdate(n, dst) != dst {
      assert LastSundayReached(n.year, n.month, n.day);
    }
  }

  /** setDateTime as written: only local times after 01:00 are moved back by the DST hour. */
  function RawMinutesAsWritten(local: uint16, dst: bool): uint16
  {
    if dst && local > 60 then local - 60 else local
  }

  /** Under DST, setting 01:00 stores raw 01:00, which reads back as 02:00. */
  lemma RawMinutesAsWrittenCounterexample()
    ensures LocalMinutes(Reading(2018, 7, 1, RawMinutesAsWritten(60, true)), true) == 120
  {
  }

  /** setDateTime as evidently intended: every local time from 01:00 on is moved back. */
  function RawMinutes(local: uint16, dst: bool): (raw: uint16)
    ensures raw <= local
  {
    if dst && local >= 60 then local - 60 else local
  }

  /** Writing the corrected raw time reads back the local time the user set, whenever the
      DST flag is off or the time is 01:00 or later (earlier times would need the previous date). */
  lemma RawMinutesRoundTrip(r: Reading, local: uint16, dst: bool)
    requires local < MinutesPerDay && (!dst || local >= 60)
    ensures LocalMinutes(r.(minutes := RawMinutes(local, dst)), dst) == local
    ensures !CrossesMidnight(r.(minutes := RawMinutes(local, dst)), dst)
  {
  }

  /** setDateTime as written, as the raw reading it writes and the flag it leaves: the raw
      minute is chosen with the flag held before the call, and only then is the flag updated
      and re-derived from the new date. */
  function SetDateTimeAsWritten(y: uint16, m: uint8, d: uint8, local: uint16, dst: bool): (Reading, bool)
    requires ValidDate(y, m, d) && local < MinutesPerDay
  {
    var r := Reading(y, m, d, RawMinutesAsWritten(local, dst));
    var updated := DstAfterUpdate(r, dst);
    var month := LocalMonth(r, updated);
    var day := LocalDay(r, updated);
    (r, DstFromDateAsWritten(month, day, DayOfTheWeek(r.year, month, day)))
  }

  /** Setting a time across a season change reads back an hour off: 12:00 on 15 January set
      during summer time reads back as 11:00, and 12:00 on 15 July set during winter time
      reads back as 13:00. */
  lemma SetDateTimeAsWrittenCounterexample()
    ensures var (r, dst) := SetDateTimeAsWritten(2018, 1, 15, 720, true); !dst && LocalMinutes(r, dst) == 660
    ensures var (r, dst) := SetDateTimeAsWritten(2018, 7, 15, 720, false); dst && LocalMinutes(r, dst) == 780
  {
  }

  /** The summer-time flag for a date, by the corrected start-up rule. */
  function DstOnDate(y: uint16, m: uint8, d: uint8): bool
    requires ValidDate(y, m, d)
  {
    DstFromDate(m, d, DayOfTheWeek(y, m, d))
  }

  /** setDateTime as evidently intended: the raw reading for a local date and time, with the
      flag taken from the date being set rather than the date the clock held. A summer-time
      local time before 01:00 lies on the previous raw day. */
  function SetDateTimeReading(y: uint16, m: uint8, d: uint8, local: uint16): (r: Reading)
    requires ValidDate(y, m, d) && local < MinutesPerDay
    ensures ValidReading(r)
  {
    var dst := DstOnDate(y, m, d);
    if dst && local < 60 then
      var (py, pm, pd) := PrevDate(y, m, d);
      Reading(py, pm, pd, local + MinutesPerDay - 60)
    else Reading(y, m, d, RawMinutes(local, dst))
  }

  /** Round trip: reading the clock back, with the flag for the date set, gives exactly the
      local date and time that were set; updateNow keeps that flag and checkDayLightSaving
      re-derives it; and it is EU summer time of that date. */
  lemma SetDateTimeRoundTrip(y: uint16, m: uint8, d: uint8, local: uint16)
    requires ValidDate(y, m, d) && local < MinutesPerDay
    ensures var r, dst := SetDateTimeReading(y, m, d, local), DstOnDate(y, m, d);
      r.year == y && LocalMonth(r, dst) == m && LocalDay(r, dst) == d && LocalMinutes(r, dst) == local &&
      DstAfterUpdate(r, dst) == dst && DstFromReading(r, dst) == dst && dst == EuSummerTime(y, m, d)
  {
    var r, dst := SetDateTimeReading(y, m, d, local), DstOnDate(y, m, d);
    DstFromDateIsEuSummerTime(y, m, d);
    if dst && local < 60 {
      LocalDateIsNextDate(r, dst);
    }
    assert r.year == y && LocalMonth(r, dst) == m && LocalDay(r, dst) == d;
    DstFlipsOnlyAtBoundaries(r, dst);
    if m == 3 || m == 10 {
      LastSundayIsReached(y, m, d);
    }
  }

  /** The clock: the last raw reading, its weekday and the DST flag. */
  class RtcControl {
    var year: uint16
    var month: uint8
    var day: uint8
    var dayOfTheWeek: uint8
    var minutesSinceMidnight: uint16
    var dayLightSaving: bool

    function Raw(): Reading
      reads this
    {
      Reading(year, month, day, minutesSinceMidnight)
    }

    ghost predicate Valid()
      reads this
    {
      ValidReading(Raw())
    }

    /** getMonth, getDay, getMinutesSinceMidnight: the DST-adjusted (local) view. */
    function Month(): uint8
      reads this
      requires Valid()
    {
      LocalMonth(Raw(), dayLightSaving)
    }

    function Day(): uint8
      reads this
      requires Valid()
    {
      LocalDay(Raw(), dayLightSaving)
    }

    function MinutesSinceMidnight(): (m: uint16)
      reads this
      requires Valid()
      ensures m < MinutesPerDay
    {
      LocalMinutes(Raw(), dayLightSaving)
    }

    /** The constructor (DST off) followed by begin(): a clock that lost power is reset
        to 2018-01-01 00:00 before it is read. */
    constructor (reading: Reading, lostPower: bool)
      requires ValidReading(reading)
      ensures Valid()
      ensures Raw() == if lostPower then Reading(2018, 1, 1, 0) else reading
      ensures dayOfTheWeek == DayOfTheWeek(year, month, day)
      ensures dayLightSaving == DstFromReading(Raw(), DstAfterUpdate(Raw(), false))
      ensures dayLightSaving == EuSummerTime(year, month, day)
    {
      year, month, day, minutesSinceMidnight := 2018, 1, 1, 0;
      dayOfTheWeek := 1;
      dayLightSaving := false;
      new;
      var r := if lostPower then Reading(2018, 1, 1, 0) else reading;
      UpdateNow(r);
      CheckDayLightSaving();
      DstFlipsOnlyAtBoundaries(r, false);
      DstFromReadingIsEuSummerTime(r, DstAfterUpdate(r, false));
    }

    /** updateNow: take the raw reading, derive the weekday of the local date (with the
        DST flag as it was) and apply the two DST transition rules. */
    method UpdateNow(r: Reading)
      requires ValidReading(r)
      modifies this
      ensures Valid() && Raw() == r
      ensures dayOfTheWeek == DayOfTheWeek(r.year, LocalMonth(r, old(dayLightSaving)), LocalDay(r, old(dayLightSaving)))
      ensures dayLightSaving == DstAfterUpdate(r, old(dayLightSaving))
    {
      year, month, day, minutesSinceMidnight := r.year, r.month, r.day, r.minutes;
      dayOfTheWeek := DayOfTheWeek(year, Month(), Day());
      if dayLightSaving && Month() == 10 && Day() >= 25 && dayOfTheWeek == 0
         && Hours(ToI16(MinutesSinceMidnight())) == 3 {
        dayLightSaving := false;
      } else if !dayLightSaving && Month() == 3 && Day() >= 25 && dayOfTheWeek == 0
         && Hours(ToI16(MinutesSinceMidnight())) == 2 {
        dayLightSaving := true;
      }
    }

    /** checkDayLightSaving (corrected): re-derive the DST flag from the local date. */
    method CheckDayLightSaving()
      requires Valid()
      modifies this`dayLightSaving
      ensures dayLightSaving == DstFromReading(Raw(), old(dayLightSaving))
    {
      var m, d := Month(), Day();
      dayLightSaving := DstFromDate(m, d, DayOfTheWeek(year, m, d));
    }

    /** setDateTime (corrected): take the flag from the date being set, write the raw time
        for the local date and time, read it back and re-derive the flag. The DS3231 is taken
        to return what was written. The clock then reads back what was set. */
    method SetDateTime(y: uint16, m: uint8, d: uint8, local: uint16)
      requires ValidDate(y, m, d) && local < MinutesPerDay
      modifies this
      ensures Valid() && Raw() == SetDateTimeReading(y, m, d, local)
      ensures year == y && Month() == m && Day() == d && MinutesSinceMidnight() == local
      ensures dayOfTheWeek == DayOfTheWeek(y, m, d)
      ensures dayLightSaving == EuSummerTime(y, m, d)
    {
      dayLightSaving := DstOnDate(y, m, d);
      UpdateNow(SetDateTimeReading(y, m, d, local));
      CheckDayLightSaving();
      SetDateTimeRoundTrip(y, m, d, local);
    }
  }
}
