/** The sunrise/sunset cache: an 8-bit date hash decides whether the two event
    times are recomputed. The solar position formulas themselves (float
    trigonometry) are a parameter: `SolarEvent(isRise, jday)` is the UTC minute of
    the event on Julian day `jday`, or None where the C code produces NaN
    (no sunrise or sunset at that latitude). Julian days are exact rationals. */
module Dusk2Dawn {
  import opened Ints
  import Rtc

  datatype Option<T> = None | Some(value: T)

  /** sunriseSetUTC: UTC minutes of the event, or None (NaN). */
  type SolarEvent = (bool, real) -> Option<real>

  /** TIMEZONE: the Netherlands, GMT + 1. */
  const Timezone := 1

  // ---------------------------------------------------------------- date hash

  /** The 8-bit hash of a date and the DST flag. */
  function DateHash(year: uint16, month: uint8, day: uint8, isDst: bool): uint8
  {
    ToU8((year - 2000) + month * 3 + day * 2 + 40 * (if isDst then 1 else 0))
  }

  /** On the clock's years the sum never reaches 256, so nothing is truncated, and it
      is never 0: the first update after start-up (hash field 0) always computes. */
  lemma DateHashExact(year: uint16, month: uint8, day: uint8, isDst: bool)
    requires 2000 <= year <= 2099 && 1 <= month <= 12 && 1 <= day <= 31
    ensures DateHash(year, month, day, isDst) == (year - 2000) + month * 3 + day * 2 + 40 * (if isDst then 1 else 0)
    ensures DateHash(year, month, day, isDst) != 0
  {
  }

  /** Two different dates of the same year can share a hash: 4 January and 1 March. */
  lemma DateHashCollision(year: uint16)
    requires 2000 <= year <= 2099
    ensures DateHash(year, 1, 4, false) == DateHash(year, 3, 1, false)
    ensures (1, 4) != (3, 1)
  {
  }

  /** Still, the hash changes at every midnight and at every DST switch, so the cache
      never serves yesterday's times. */
  lemma {:induction false} DateHashChangesDaily(year: int, month: int, day: int, isDst: bool)
    requires Rtc.ValidDate(year, month, day) && (year, month, day) != (2099, 12, 31)
    ensures var (y, m, d) := Rtc.NextDate(year, month, day);
      DateHash(y, m, d, isDst) != DateHash(year, month, day, isDst)
    ensures DateHash(year, month, day, true) != DateHash(year, month, day, false)
  {
    var (y, m, d) := Rtc.NextDate(year, month, day);
    DateHashExact(year, month, day, isDst);
    DateHashExact(y, m, d, isDst);
    DateHashExact(year, month, day, true);
    DateHashExact(year, month, day, false);
  }

  // ---------------------------------------------------------------- Julian day

  /** floor(365.25 * (year + 4716)). */
  function YearTerm(year: int): int
  {
    (365.25 * (year + 4716) as real).Floor
  }

  /** floor(30.6001 * (month + 1)). */
  function MonthTerm(month: int): int
  {
    (30.6001 * (month + 1) as real).Floor
  }

  /** The Gregorian correction B = 2 - A + A/4 with A = year/100 (C division). */
  function CenturyTerm(year: int): int
  {
    var a := CDiv(year, 100);
    2 - a + CDiv(a, 4)
  }

  /** jDay: January and February count as months 13 and 14 of the previous year. */
  function JDay(year: int, month: int, day: int): real
  {
    var (y, m) := if month <= 2 then (year - 1, month + 12) else (year, month);
    (YearTerm(y) + MonthTerm(m) + day + CenturyTerm(y)) as real - 1524.5
  }

  /** fractionOfCentury: Julian centuries since noon UTC, 1 January 2000. */
  function FractionOfCentury(jd: real): (t: real)
    ensures t * 36525.0 + 2451545.0 == jd
  {
    (jd - 2451545.0) / 36525.0
  }

  /** 1 January 2000 starts at Julian day 2451544.5, half a day before the epoch. */
  lemma JDayEpoch()
    ensures JDay(2000, 1, 1) == 2451544.5
    ensures FractionOfCentury(JDay(2000, 1, 1)) == -0.5 / 36525.0
  {
    assert YearTerm(1999) == 2452653;
    assert MonthTerm(13) == 428;
  }

  /** The month terms for the shifted months 3..14 (March .. February). */
  lemma MonthTermTable(month: int)
    requires 3 <= month <= 14
    ensures MonthTerm(month) == [122, 153, 183, 214, 244, 275, 306, 336, 367, 397, 428, 459][month - 3]
  {
    if month == 3 { assert MonthTerm(3) == 122; }
    else if month == 4 { assert MonthTerm(4) == 153; }
    else if month == 5 { assert MonthTerm(5) == 183; }
    else if month == 6 { assert MonthTerm(6) == 214; }
    else if month == 7 { assert MonthTerm(7) == 244; }
    else if month == 8 { assert MonthTerm(8) == 275; }
    else if month == 9 { assert MonthTerm(9) == 306; }
    else if month == 10 { assert MonthTerm(10) == 336; }
    else if month == 11 { assert MonthTerm(11) == 367; }
    else if month == 12 { assert MonthTerm(12) == 397; }
    else if month == 13 { assert MonthTerm(13) == 428; }
    else { assert MonthTerm(14) == 459; }
  }

  /** floor(365.25 * n) is 1461 * n / 4 in integer arithmetic. */
  lemma YearTermExact(year: int)
    requires year + 4716 >= 0
    ensures YearTerm(year) == (1461 * (year + 4716)) / 4
  {
    var n := 1461 * (year + 4716);
    assert 365.25 * (year + 4716) as real == n as real / 4.0;
    var q, r := n / 4, n % 4;
    assert n == 4 * q + r && 0 <= r < 4;
    assert n as real / 4.0 == q as real + r as real / 4.0;
  }

  /** A (shifted) year has 366 days when the following February has a 29th. */
  lemma YearTermStep(year: int)
    requires year + 4716 >= 0
    ensures YearTerm(year + 1) - YearTerm(year) == if (year + 1) % 4 == 0 then 366 else 365
  {
    YearTermExact(year);
    YearTermExact(year + 1);
    var n := year + 4716;
    var q, r := n / 4, n % 4;
    assert n == 4 * q + r;
    assert 1461 * n == 4 * (1461 * q + 365 * r) + r;
    assert (1461 * n) / 4 == 1461 * q + 365 * r;
    if r == 3 {
      assert 1461 * (n + 1) == 4 * (1461 * (q + 1));
    } else {
      assert 1461 * (n + 1) == 4 * (1461 * q + 365 * (r + 1)) + (r + 1);
    }
  }

  /** Between March 1900 and February 2100 the correction is the constant -13. */
  lemma CenturyTermConstant(year: int)
    requires 1999 <= year <= 2099
    ensures CenturyTerm(year) == -13
  {
  }

  lemma JDayByMonth(year: int, month: int, day: int)
    requires 2000 <= year <= 2099 && 1 <= month <= 12
    ensures JDay(year, month, day) == (YearTerm(if month <= 2 then year - 1 else year)
      + MonthTerm(if month <= 2 then month + 12 else month) + day - 13) as real - 1524.5
  {
    CenturyTermConstant(if month <= 2 then year - 1 else year);
  }

  /** The Julian day grows by exactly one per calendar day over the clock's range. */
  lemma {:induction false} JDayAdvances(year: int, month: int, day: int)
    requires Rtc.ValidDate(year, month, day) && (year, month, day) != (2099, 12, 31)
    ensures var (y, m, d) := Rtc.NextDate(year, month, day);
      JDay(y, m, d) == JDay(year, month, day) + 1.0
  {
    var (y, m, d) := Rtc.NextDate(year, month, day);
    JDayByMonth(year, month, day);
    JDayByMonth(y, m, d);
    if day < Rtc.DaysPerMonth(month, year) {
    } else if month == 2 {
      MonthTermTable(3);
      MonthTermTable(14);
      YearTermStep(year - 1);
    } else if month == 12 {
      MonthTermTable(12);
      MonthTermTable(13);
    } else if month == 1 {
      MonthTermTable(13);
      MonthTermTable(14);
    } else {
      MonthTermTable(month);
      MonthTermTable(month + 1);
    }
  }

  // ---------------------------------------------------------------- sunriseSet

  /** C's round: to the nearest integer, halves away from zero. */
  function Round(x: real): (r: int)
    ensures r as real - 0.5 <= x <= r as real + 0.5
    ensures x >= 0.0 ==> r >= 0 && x < r as real + 0.5
    ensures x < 0.0 ==> r <= 0 && r as real - 0.5 < x
  {
    if x >= 0.0 then (x + 0.5).Floor else -((-x + 0.5).Floor)
  }

  /** round is odd-symmetric and exact on integers. */
  lemma RoundProperties(x: real, n: int)
    ensures Round(-x) == -Round(x) || x == 0.0
    ensures Round(n as real) == n
  {
  }

  /** sunriseSet: two passes of the solar formulas, the second at the day advanced by the
      first pass's result; the local time is the rounded UTC time plus the time zone,
      plus an hour under DST, and -1 when there is no event. The result is not wrapped
      into one day. */
  function SunriseSet(isRise: bool, year: int, month: int, day: int, isDst: bool, solar: SolarEvent): int
  {
    var jday := JDay(year, month, day);
    match solar(isRise, jday)
    case None => -1
    case Some(timeUtc) =>
      match solar(isRise, jday + timeUtc / 1440.0)
      case None => -1
      case Some(newTimeUtc) => Round(newTimeUtc + (Timezone * 60) as real) + (if isDst then 60 else 0)
  }

  /** The refined UTC time of the event, when both passes find one. */
  function RefinedUtc(isRise: bool, year: int, month: int, day: int, solar: SolarEvent): Option<real>
  {
    var jday := JDay(year, month, day);
    match solar(isRise, jday)
    case None => None
    case Some(timeUtc) => solar(isRise, jday + timeUtc / 1440.0)
  }

  /** The local time is within half a minute of the refined UTC time shifted by the time
      zone and DST; no event gives -1. */
  lemma SunriseSetNearest(isRise: bool, year: int, month: int, day: int, isDst: bool, solar: SolarEvent)
    ensures RefinedUtc(isRise, year, month, day, solar).None? ==> SunriseSet(isRise, year, month, day, isDst, solar) == -1
    ensures RefinedUtc(isRise, year, month, day, solar).Some? ==>
      var exact := RefinedUtc(isRise, year, month, day, solar).value + 60.0 + (if isDst then 60.0 else 0.0);
      var r := SunriseSet(isRise, year, month, day, isDst, solar) as real;
      exact - 0.5 <= r <= exact + 0.5
  {
  }

  /** DST moves an event by exactly one hour. */
  lemma SunriseSetDstShift(isRise: bool, year: int, month: int, day: int, solar: SolarEvent)
    requires RefinedUtc(isRise, year, month, day, solar).Some?
    ensures SunriseSet(isRise, year, month, day, true, solar) == SunriseSet(isRise, year, month, day, false, solar) + 60
  {
  }

  // ---------------------------------------------------------------- the cache

  datatype Cache = Cache(dateHash: uint8, sunrise: uint16, sunset: uint16)

  /** update on the cache contents: recompute only when the hash differs; the int results
      are stored in uint16 fields, so -1 becomes 65535. */
  function AfterUpdate(c: Cache, year: uint16, month: uint8, day: uint8, isDst: bool, solar: SolarEvent): (r: Cache)
    ensures c.dateHash == DateHash(year, month, day, isDst) ==> r == c
    ensures r.dateHash == DateHash(year, month, day, isDst)
  {
    var hash := DateHash(year, month, day, isDst);
    if c.dateHash != hash then
      Cache(hash,
            ToU16(SunriseSet(true, ToI16(year), month, day, isDst, solar)),
            ToU16(SunriseSet(false, ToI16(year), month, day, isDst, solar)))
    else c
  }

  /** A second update with the same arguments changes nothing. */
  lemma AfterUpdateIdempotent(c: Cache, year: uint16, month: uint8, day: uint8, isDst: bool, solar: SolarEvent)
    ensures var c1 := AfterUpdate(c, year, month, day, isDst, solar);
      AfterUpdate(c1, year, month, day, isDst, solar) == c1
  {
  }

  /** A recomputation stores the events of that date; no event reads back as 65535. */
  lemma {:induction false} AfterUpdateFresh(c: Cache, year: uint16, month: uint8, day: uint8, isDst: bool, solar: SolarEvent)
    requires c.dateHash != DateHash(year, month, day, isDst)
    requires year < 0x8000
    ensures var r := AfterUpdate(c, year, month, day, isDst, solar);
      (RefinedUtc(true, year, month, day, solar).None? ==> r.sunrise == 65535) &&
      (RefinedUtc(false, year, month, day, solar).None? ==> r.sunset == 65535) &&
      ToI16(r.sunrise) == ToI16(SunriseSet(true, year, month, day, isDst, solar)) &&
      ToI16(r.sunset) == ToI16(SunriseSet(false, year, month, day, isDst, solar))
  {
    assert ToI16(year) == year;
    var sunrise, sunset := SunriseSet(true, year, month, day, isDst, solar), SunriseSet(false, year, month, day, isDst, solar);
    var r := AfterUpdate(c, year, month, day, isDst, solar);
    assert r.sunrise == ToU16(sunrise) && r.sunset == ToU16(sunset);
    SunriseSetNearest(true, year, month, day, isDst, solar);
    SunriseSetNearest(false, year, month, day, isDst, solar);
    I16OfU16(sunrise);
    I16OfU16(sunset);
  }

  class Dusk2Dawn {
    var sunrise: uint16
    var sunset: uint16
    var dateHash: uint8

    function Contents(): Cache
      reads this
    {
      Cache(dateHash, sunrise, sunset)
    }

    /** The object has static storage, so every field starts at 0. */
    constructor ()
      ensures Contents() == Cache(0, 0, 0)
    {
      sunrise, sunset, dateHash := 0, 0, 0;
    }

    method Update(year: uint16, month: uint8, day: uint8, isDst: bool, solar: SolarEvent)
      modifies this
      ensures Contents() == AfterUpdate(old(Contents()), year, month, day, isDst, solar)
    {
      var hash := DateHash(year, month, day, isDst);
      if dateHash != hash {
        dateHash := hash;
        sunrise := ToU16(SunriseSet(true, ToI16(year), month, day, isDst, solar));
        sunset := ToU16(SunriseSet(false, ToI16(year), month, day, isDst, solar));
      }
    }
  }
}
