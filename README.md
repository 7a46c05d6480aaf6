# Dusk/dawn relay timer — a verified Dafny model

This project models the core of an Arduino (ATmega328P) clock timer. The timer switches a
solid-state relay on and off by a weekly program: one on/off pair for Monday to Thursday and one
for Friday to Sunday. Each event is a clock time, or an offset from sunrise or sunset computed for
Utrecht. Modules:

- `Ints` (ints.dfy): the AVR's integer widths. `int` is 16 bits. The wrap-around of the
  `uint8_t`/`uint16_t`/`int16_t` conversions and C's truncating `/` and `%` are written out.
- `Rtc` (rtc.dfy): `RtcControl`, the DS3231 clock seen through local time. It covers:
  - the hour added under summer time, and the date and month rolled over when that hour crosses
    midnight;
  - the day-of-week congruence;
  - the last-Sunday summer-time switches and the summer-time start-up rule;
  - `setDateTime`;
  - the BCD conversions.
- `Persist` (persist.dfy): the EEPROM as a byte array updated in place. It holds the screen-blank
  timeout byte and two timer blocks with little-endian 16-bit times.
- `Dusk2Dawn` (dusk2dawn.dfy): the once-a-day sunrise/sunset cache keyed by a one-byte date
  hash, the Julian day computation in exact arithmetic, and the rounding and DST shift of
  `sunriseSet`.
- `SwitchTimer` (timer.dfy): `Timer`. It resolves the four rules against sunrise and sunset. It
  finds the next switch by recursing day by day (`getNextSwitch`). It keeps a minute cache, the
  relay pin and the manual override. New rules are stored in the EEPROM.
- `Menu` (menu.dfy): `OledControl`'s menu logic. It covers:
  - the six screens and the transitions between them;
  - the edit rules over the six-entry menu data array;
  - the field order of the timer screen;
  - the screen-blank rule;
  - the two-digit time strings.

Where a C routine updates state, the model is a class with `modifies` clauses. Each method's new
state is given by a pure function of the old state (for the menu, `UpdateMenuAfter` and one
function per screen), and the properties are proved as lemmas about those functions. Pure C
routines are Dafny functions.

Points where the code and its usual description part ways. In these the model follows the code.
Where the code is evidently wrong (see Findings), the class methods follow the corrected code, and
the code as written is modelled beside them with a counterexample:

- **Missing sunrise or sunset.** `sunriseSet` returns -1, which is stored as 65535. A sunrise rule
  with offset `o` then resolves to `o - 1` (`SwitchTimer.TimerTimeWithoutSunrise`). The event is
  not placed after the day's other events.
- **Manual override.** The override is cleared in the minute it was armed for. The schedule is
  inverted only while the next scheduled switch equals the armed minute
  (`SwitchTimer.OverrideLastsUntilNextSwitch`).
- **`dayOfTheWeek + 1 % 7` (timer.cpp:150).** This reads as `dayOfTheWeek + 1`. The day index
  passed on is truncated to `uint8_t`, so it runs 7, 8, …, 255, 0 through weekend days. It is
  harmless: the next switch equals the one computed with `(day + 1) % 7` for every start day 0..6
  (`SwitchTimer.DayIndexHarmless`).
- **Date hash collisions.** The date hash of `Dusk2Dawn::update` maps 4 January and 1 March of the
  same year to the same byte (`Dusk2Dawn.DateHashCollision`). Consecutive days never collide
  (`Dusk2Dawn.DateHashChangesDaily`). A stale cache therefore needs a date jump, such as setting
  the clock from 4 January to 1 March.
- **Year field.** The set-time screen lets the year go down to 1, not 2000.
- **Weekday after start-up.** `begin` computes the day of the week while the summer-time flag is
  still off, so it is the weekday of the raw date (`Rtc.RtcControl.constructor`). If the flag then
  goes on in the last hour of the day, `getDay` reports the next date, but the stored weekday stays
  until the next `updateNow`.

## Model

| member | source | states |
|---|---|---|
| Ints.ToU8 | dusk2dawn.cpp:34 | storing an `int` in a `uint8_t` keeps it modulo 256, and leaves a value 0..255 unchanged |
| Ints.ToU16 | timer.cpp:128-129 | storing a value in a `uint16_t` keeps it modulo 65536, and leaves a value 0..65535 unchanged |
| Ints.ToI16 | timer.cpp:104 | returning a value as `int16_t` gives the value in -32768..32767 congruent to it modulo 65536, and leaves a value already in range unchanged |
| Ints.I16U16RoundTrip | timer.cpp:128-129 | converting an `int16_t` to `uint16_t` and back is the identity, and so is the reverse on the `uint16_t` image |
| Ints.CDiv | dusk2dawn.cpp:212-213 | C's integer `/` truncates toward zero: the quotient times the divisor lies within one divisor of the dividend, on the side of zero |
| Ints.CRem | rtccontrol.h:30 | C's `%`: the dividend is the quotient times the divisor plus the remainder, and the remainder has the dividend's sign and is smaller than the divisor |
| Rtc.Hours | rtccontrol.h:29 | `hours(m)` is `m / 60` for `0 <= m < 15360` (where the quotient fits a byte) and below 24 within a day |
| Rtc.Minutes | rtccontrol.h:30 | `minutes(m)` is `m % 60` for non-negative `m`; a negative `m` gives the truncated C remainder wrapped into a byte: 256 plus the remainder, or 0 when 60 divides `m` |
| Rtc.HoursMinutesJoin | rtccontrol.h:29-30 | `hours(m) * 60 + minutes(m) == m` for every minute of the day |
| Rtc.DaysPerMonth | rtccontrol.cpp:41-48 | 28..31 days; February has 29 exactly when the year is divisible by 4; April, June, September and November have 30 |
| Rtc.DayOfTheWeek | rtccontrol.cpp:114-121 | the congruence gives a day 0..6 |
| Rtc.FirstDayOfCentury | rtccontrol.cpp:114-121 | 1 January 2000 is day 6 (Saturday, with Sunday as 0) |
| Rtc.WeekKeyAdvances | rtccontrol.cpp:114-121 | the congruence's key grows by 1 modulo 7 from each date of 2000..2099 to the next |
| Rtc.DayOfTheWeekAdvances | rtccontrol.cpp:114-121 | the day of the week of the next calendar date is the current one plus 1 modulo 7 |
| Rtc.Bin2Bcd | rtccontrol.cpp:159 | values 0..99 become two BCD digits |
| Rtc.Bcd2Bin | rtccontrol.cpp:158 | two BCD digits become their decimal value |
| Rtc.BcdRoundTrip | rtccontrol.cpp:158-159 | decoding an encoded value 0..99 gives it back |
| Rtc.LocalMinutes | rtccontrol.cpp:77-84 | under summer time the local minute is the raw minute plus 60, modulo 1440; otherwise the raw minute |
| Rtc.CrossesMidnight | rtccontrol.cpp:60-61 | the test shared by `getMonth` and `getDay`: the flag is on and the raw minute plus 60 reaches the next day; `Rtc.LocalDateIsNextDate` proves it holds exactly from raw 23:00 under summer time |
| Rtc.LocalDay | rtccontrol.cpp:68-76 | `getDay`: the raw day, or the next day of the month (1 after the last day) when the summer-time hour crosses midnight; `Rtc.LocalDateIsNextDate` proves this is the next calendar date's day |
| Rtc.LocalMonth | rtccontrol.cpp:58-67 | `getMonth`: the raw month, or the month plus 1 when that crossing happens on the month's last day; `Rtc.LocalDateIsNextDate` proves this is the next calendar date's month, and 13 on 31 December |
| Rtc.LocalDateIsNextDate | rtccontrol.cpp:58-76 | the local day and month are the raw ones unless summer time pushes past midnight; then they are the next calendar date; on 31 December the month becomes 13 |
| Rtc.DstAfterUpdate | rtccontrol.cpp:91-112 | the flag `updateNow` leaves: cleared on an October Sunday from the 25th at local 03:xx, set on a March Sunday from the 25th at local 02:xx, otherwise kept; `Rtc.DstFlipsOnlyAtBoundaries` and `Rtc.DstTracksSummerTime` state what this means for EU summer time |
| Rtc.DstFlipsOnlyAtBoundaries | rtccontrol.cpp:91-112 | `updateNow` changes the summer-time flag exactly during raw 02:xx (01:xx UTC) on the last Sunday of October (turning it off) or of March (turning it on), and at no other reading |
| Rtc.DstUpdateStable | rtccontrol.cpp:91-112 | a second update on the same reading leaves the flag as the first one set it |
| Rtc.SummerTimeStep | rtccontrol.cpp:91-112 | EU summer time changes from one minute to the next only at raw 02:00 on the last Sunday of March (to summer) or of October (to winter) |
| Rtc.DstTracksSummerTime | rtccontrol.cpp:91-112 | if the flag is EU summer time at one minute, `updateNow` on the next minute's reading leaves it EU summer time, so a clock read every minute keeps the flag right |
| Rtc.DstFromDateAsWritten | rtccontrol.cpp:130-153 | `checkDayLightSaving` as written, with the previous Sunday `day - (dayOfTheWeek + 1)` held in a `uint8_t`; `Rtc.DstFromDateAsWrittenCounterexample` shows two dates it gets wrong |
| Rtc.DstFromDateAsWrittenCounterexample | rtccontrol.cpp:143-151 | the start-up rule as written is wrong on 2018-03-26 (summer time, reported winter) and 2018-03-03 (winter, reported summer) |
| Rtc.SundayOnOrBefore | rtccontrol.cpp:143 | `day - dayOfTheWeek >= 25` holds exactly when the last Sunday of a 31-day month has been reached |
| Rtc.DstFromDate | rtccontrol.cpp:130-153 | (corrected, see Findings) the start-up rule with the Sunday on or before the date as `day - dayOfTheWeek`; `Rtc.DstFromDateIsEuSummerTime` proves it is EU summer time on every date |
| Rtc.DstFromReading | rtccontrol.cpp:130-153 | (corrected, see Findings) the same rule applied to the local date of a clock reading; `Rtc.DstFromReadingIsEuSummerTime` relates it to EU summer time |
| Rtc.DstFromDateIsEuSummerTime | rtccontrol.cpp:130-153 | the corrected start-up rule agrees with European summer time (last Sunday of March to last Sunday of October) on every date |
| Rtc.DstFromReadingIsEuSummerTime | rtccontrol.cpp:130-153 | the same, stated on a clock reading that does not cross midnight |
| Rtc.RawMinutesAsWritten | rtccontrol.cpp:125 | the raw minute as written: an hour earlier only when the flag is on and the minute is above 60; `Rtc.RawMinutesAsWrittenCounterexample` shows 01:00 reading back as 02:00 |
| Rtc.RawMinutesAsWrittenCounterexample | rtccontrol.cpp:125 | setting 01:00 under summer time writes raw 01:00, which reads back as 02:00 |
| Rtc.RawMinutes | rtccontrol.cpp:125 | the raw minute written is never later than the local minute given |
| Rtc.RawMinutesRoundTrip | rtccontrol.cpp:125 | (corrected, see Findings) the corrected raw minute reads back, under the same flag, as the local minute given and does not cross midnight, when the flag is off or the time is 01:00 or later |
| Rtc.PrevDate | rtccontrol.cpp:123-128 | the date before a date of 2000..2099 other than 1 January 2000 is a valid date whose next date is the given one |
| Rtc.SetDateTimeAsWritten | rtccontrol.cpp:123-128 | `setDateTime` as written: the raw minute chosen with the old flag, then `updateNow`, then the as-written start-up rule; `Rtc.SetDateTimeAsWrittenCounterexample` shows it reading back an hour off |
| Rtc.SetDateTimeAsWrittenCounterexample | rtccontrol.cpp:123-128 | as written, 12:00 on 15 January 2018 set during summer time reads back as 11:00, and 12:00 on 15 July 2018 set during winter time reads back as 13:00 |
| Rtc.DstOnDate | rtccontrol.cpp:130-153 | (corrected, see Findings) the start-up rule applied to a date; `Rtc.SetDateTimeRoundTrip` proves it is EU summer time of that date |
| Rtc.SetDateTimeReading | rtccontrol.cpp:123-128 | (corrected, see Findings) the raw reading the corrected `setDateTime` writes is a valid reading; `Rtc.SetDateTimeRoundTrip` proves it reads back as the date and time set |
| Rtc.SetDateTimeRoundTrip | rtccontrol.cpp:123-128 | (corrected, see Findings) with the flag taken from the date set, the clock reads back exactly the year, month, day and local minute set; `updateNow` keeps that flag, `checkDayLightSaving` re-derives it, and it is EU summer time of the date |
| Rtc.RtcControl.Month | rtccontrol.cpp:58-67 | `getMonth` on the object: `Rtc.LocalMonth` of the stored reading and flag |
| Rtc.RtcControl.Day | rtccontrol.cpp:68-76 | `getDay` on the object: `Rtc.LocalDay` of the stored reading and flag |
| Rtc.RtcControl.MinutesSinceMidnight | rtccontrol.cpp:77-84 | the local minute is below 1440 |
| Rtc.RtcControl.constructor | rtccontrol.cpp:13-28 | after lost power the clock is set to 2018-01-01 00:00; the day of the week is that of the raw date; the flag is updated, then initialised by the corrected start-up rule (see Findings), and is EU summer time of the date read |
| Rtc.RtcControl.UpdateNow | rtccontrol.cpp:91-112 | the new reading is stored, the day of the week is taken from the local date, and the flag follows the boundary rule |
| Rtc.RtcControl.CheckDayLightSaving | rtccontrol.cpp:130-153 | (corrected, see Findings) the flag is set from the local date by the start-up rule with `day - dayOfTheWeek >= 25` |
| Rtc.RtcControl.SetDateTime | rtccontrol.cpp:123-128 | (corrected, see Findings) the flag is taken from the date set; afterwards the clock reads back the year, month, day and local minute set, the day of the week is that of the date, and the flag is EU summer time of the date |
| Persist.Stored16 | persist.cpp:67-71 | `write16` puts the low byte at the address and the high byte after it, and changes nothing else |
| Persist.Load16 | persist.cpp:73-80 | `read16` gives the two's complement reading of the two bytes, low byte first; the top bit of the high byte is the sign |
| Persist.Load16Stored16 | persist.cpp:67-80 | every `int16_t` survives `write16` then `read16` |
| Persist.StoreTimer | persist.cpp:38-58 | storing a timer block changes only that block's six bytes |
| Persist.LoadTimer | persist.cpp:45-65 | a timer block's two type bytes and two 16-bit times read from the image; `Persist.LoadStoreTimer` proves it returns what `StoreTimer` wrote |
| Persist.LoadStoreTimer | persist.cpp:38-65 | reading a block back returns the four stored values |
| Persist.LayoutDisjoint | persist.cpp:10-20 | the weekday block, the weekend block and the timeout byte do not overlap and fit in the EEPROM |
| Persist.StoreTimerIndependent | persist.cpp:38-65 | storing one block leaves the other block and the timeout as they read before |
| Persist.ClearedReadsZero | persist.cpp:22-65 | after `clearmem` the timeout reads 0 and both blocks read TIME 0 / TIME 0 |
| Persist.Eeprom.ClearMem | persist.cpp:22-27 | every byte becomes 0 |
| Persist.Eeprom.SetScreenBlankTimeout | persist.cpp:29-32 | only byte 1 changes, to the timeout |
| Persist.Eeprom.GetScreenBlankTimeout | persist.cpp:33-36 | returns byte 1 |
| Persist.Eeprom.Write16 | persist.cpp:67-71 | the array becomes `Stored16` of its old contents |
| Persist.Eeprom.Read16 | persist.cpp:73-80 | shifting the high byte left by 8 in a 16-bit `int` and adding the low byte gives exactly `Load16` of the two bytes |
| Persist.Eeprom.SetTimer | persist.cpp:38-58 | the array becomes `StoreTimer` of its old contents for the block at the given base |
| Persist.Eeprom.GetTimer | persist.cpp:45-65 | returns `LoadTimer` of the array for the block at the given base |
| Persist.Eeprom.SetWeekTimer | persist.cpp:38-44 | the weekday block at 10..12 and 20..22 is stored |
| Persist.Eeprom.GetWeekTimer | persist.cpp:45-51 | returns the weekday block as stored |
| Persist.Eeprom.SetWeekendTimer | persist.cpp:52-58 | the weekend block at 30..32 and 40..42 is stored |
| Persist.Eeprom.GetWeekendTimer | persist.cpp:59-65 | returns the weekend block as stored |
| Dusk2Dawn.DateHash | dusk2dawn.cpp:34 | the one-byte date hash, truncated to `uint8_t`; `Dusk2Dawn.DateHashExact`, `Dusk2Dawn.DateHashCollision` and `Dusk2Dawn.DateHashChangesDaily` state which dates it tells apart |
| Dusk2Dawn.DateHashExact | dusk2dawn.cpp:34 | for dates of 2000..2099 the byte hash does not wrap and is never 0 (the cleared cache value) |
| Dusk2Dawn.DateHashCollision | dusk2dawn.cpp:34-35 | 4 January and 1 March of a year have the same hash |
| Dusk2Dawn.DateHashChangesDaily | dusk2dawn.cpp:34-40 | the hash of each date differs from the next date's and from its own with the DST flag flipped, so the daily recompute always happens |
| Dusk2Dawn.FractionOfCentury | dusk2dawn.cpp:224-226 | the Julian day is 2451545 plus the result times 36525 |
| Dusk2Dawn.JDay | dusk2dawn.cpp:206-216 | `jDay` in exact arithmetic, January and February counted as months 13 and 14 of the previous year; `Dusk2Dawn.JDayEpoch`, `Dusk2Dawn.JDayByMonth` and `Dusk2Dawn.JDayAdvances` fix it to the Julian day |
| Dusk2Dawn.JDayEpoch | dusk2dawn.cpp:206-216 | 1 January 2000 is Julian day 2451544.5 |
| Dusk2Dawn.MonthTerm | dusk2dawn.cpp:214 | `floor(30.6001 * (month + 1))` in exact arithmetic; `Dusk2Dawn.MonthTermTable` gives its values |
| Dusk2Dawn.MonthTermTable | dusk2dawn.cpp:214 | the `floor(30.6001 * (month + 1))` table for months 3..14 |
| Dusk2Dawn.YearTerm | dusk2dawn.cpp:214 | `floor(365.25 * (year + 4716))` in exact arithmetic; `Dusk2Dawn.YearTermExact` and `Dusk2Dawn.YearTermStep` give it in integers |
| Dusk2Dawn.YearTermExact | dusk2dawn.cpp:214 | `floor(365.25 * (year + 4716))` is `1461 * (year + 4716) / 4` |
| Dusk2Dawn.YearTermStep | dusk2dawn.cpp:214 | the year term grows by 366 into a year divisible by 4, by 365 otherwise |
| Dusk2Dawn.CenturyTerm | dusk2dawn.cpp:212-213 | `B = 2 - A + A / 4` with `A = year / 100` in C division; `Dusk2Dawn.CenturyTermConstant` proves it is -13 on the clock's years |
| Dusk2Dawn.CenturyTermConstant | dusk2dawn.cpp:212-213 | the Gregorian correction `B` is -13 for every year 1999..2099 |
| Dusk2Dawn.JDayByMonth | dusk2dawn.cpp:206-216 | closed form of `jDay` with January and February counted in the previous year |
| Dusk2Dawn.JDayAdvances | dusk2dawn.cpp:206-216 | the Julian day of the next calendar date is one more, for every date of 2000..2099 |
| Dusk2Dawn.Round | dusk2dawn.cpp:63 | `round` gives the nearest integer, halves away from zero |
| Dusk2Dawn.RoundProperties | dusk2dawn.cpp:63 | rounding is odd and fixes integers |
| Dusk2Dawn.SunriseSet | dusk2dawn.cpp:47-71 | `sunriseSet`: two passes of the solar formulas (a parameter), the rounded local time plus the summer-time hour, or -1 without an event; `Dusk2Dawn.SunriseSetNearest` and `Dusk2Dawn.SunriseSetDstShift` state the result |
| Dusk2Dawn.RefinedUtc | dusk2dawn.cpp:54-60 | the UTC time of the second pass, when both passes find an event; `Dusk2Dawn.SunriseSetNearest` measures `sunriseSet` against it |
| Dusk2Dawn.SunriseSetNearest | dusk2dawn.cpp:47-71 | no event gives -1; otherwise the result is within half a minute of the refined UTC time plus the time zone plus the DST hour |
| Dusk2Dawn.SunriseSetDstShift | dusk2dawn.cpp:62-64 | summer time moves an existing event exactly 60 minutes later |
| Dusk2Dawn.AfterUpdate | dusk2dawn.cpp:32-42 | with the same date hash the cache is unchanged; otherwise it holds the new hash |
| Dusk2Dawn.AfterUpdateIdempotent | dusk2dawn.cpp:32-42 | a second update for the same date changes nothing |
| Dusk2Dawn.AfterUpdateFresh | dusk2dawn.cpp:32-42 | on a new date both times are recomputed, and a missing event is stored as 65535 |
| Dusk2Dawn.Dusk2Dawn.constructor | dusk2dawn.h:21-24 | the hash, sunrise and sunset fields start at 0 (static storage), so the first update always computes (`Dusk2Dawn.DateHashExact`) |
| Dusk2Dawn.Dusk2Dawn.Update | dusk2dawn.cpp:32-42 | the object's fields become `AfterUpdate` of the old fields |
| SwitchTimer.TimeAction | timer.h:25 | a time action is type TIME with that minute |
| SwitchTimer.TypeAction | timer.h:23 | a type-only action has offset 0 |
| SwitchTimer.IsWeekDay | timer.h:54 | `isWeekDay`; `SwitchTimer.WeekDaysAreMondayToThursday` proves it holds exactly for days 1..4 |
| SwitchTimer.WeekDaysAreMondayToThursday | timer.h:54 | days 1..4 are the weekday class, all others the weekend class |
| SwitchTimer.TimerTime | timer.cpp:98-115 | TIME gives the minute; SUNUP and SUNDOWN give sunrise or sunset plus the offset, modulo 2^16, exactly when no wrap occurs |
| SwitchTimer.TimerTimeWithoutSunrise | timer.cpp:102-105 | with no sunrise (65535) a sunrise rule resolves to its offset minus one |
| SwitchTimer.Resolve | timer.cpp:117-124 | the four rules resolved by `getTimerTime`, as `getNextWeekDaySwitch` and `getNextWeekendSwitch` pass them on; each field is `SwitchTimer.TimerTime` of its rule |
| SwitchTimer.StepToday | timer.cpp:126-146 | the day settles exactly when an event lies ahead; the next switch is the earliest event after now; the relay is on exactly between on and off (wrapping midnight when on is later) |
| SwitchTimer.MidnightStep | timer.cpp:137-151 | at midnight a day is skipped exactly when both its events are at 0 |
| SwitchTimer.BothZeroNeverSettles | timer.cpp:147-151 | with both classes at 0/0 every day is skipped, so the C recursion never ends |
| SwitchTimer.NextSwitch | timer.cpp:126-153 | `getNextSwitch`: today's step, or else the recursion on day index `dayOfTheWeek + 1` truncated to `uint8_t`, with the rule chosen by `isWeekDay(dayOfTheWeek + 1)`; `SwitchTimer.NextSwitchIsEvent` and `SwitchTimer.DayIndexHarmless` state its result |
| SwitchTimer.NextWeekDaySwitch | timer.cpp:117-120 | `getNextSwitch` on the weekday pair; `SwitchTimer.NextSwitchIsEvent` states its result |
| SwitchTimer.NextWeekendSwitch | timer.cpp:121-124 | `getNextSwitch` on the weekend pair; `SwitchTimer.NextSwitchIsEvent` states its result |
| SwitchTimer.NextSwitchIsEvent | timer.cpp:117-153 | the next switch is one of the six resolved event minutes; today's answer when one lies ahead, later than now; otherwise a later day's event after midnight |
| SwitchTimer.WeekendChain | timer.cpp:150-151 | from any weekend-class day index, the recursion gives the same answer as from index 0 |
| SwitchTimer.DayIndexHarmless | timer.cpp:150-151 | the switch found with `dayOfTheWeek + 1` equals the one found with `(dayOfTheWeek + 1) % 7` |
| SwitchTimer.Scheduled | timer.cpp:44-47 | the switch `update` computes: `getNextWeekDaySwitch` on a weekday, `getNextWeekendSwitch` otherwise; `SwitchTimer.AfterUpdateFollowsSchedule` ties `update` to it |
| SwitchTimer.AfterUpdate | timer.cpp:36-59 | nothing changes within the same minute of the hour; otherwise the minute cache is the new minute; the pin changes only with the on/off state |
| SwitchTimer.AfterUpdateKeepsPin | timer.cpp:54-57 | the pin stays the inverse of the on/off state (active low) |
| SwitchTimer.AfterUpdateFollowsSchedule | timer.cpp:36-59 | without an override the state and the next switch time are those of the schedule |
| SwitchTimer.ManualToggle | timer.cpp:66-72 | a press arms the override at the next switch time, or disarms it; with next time 65535 it cannot be armed |
| SwitchTimer.ManualToggleTwice | timer.cpp:66-72 | two presses restore the disarmed state |
| SwitchTimer.OverrideLastsUntilNextSwitch | timer.cpp:42-53 | in the armed minute the override is cleared and the schedule rules; before it, while the next switch is the armed minute, the schedule's state is inverted |
| SwitchTimer.ScheduleFrom | timer.cpp:32-33 | the rules `begin` loads from an EEPROM image; `SwitchTimer.WeekTimerSurvivesRestart` and `SwitchTimer.WeekendTimerSurvivesRestart` prove the setters' bytes load back as the rules set |
| SwitchTimer.WeekTimerSurvivesRestart | timer.cpp:79-87 | rules stored by `setWeekTimer` are the weekday rules read at the next start |
| SwitchTimer.WeekendTimerSurvivesRestart | timer.cpp:88-96 | the same for the weekend rules |
| SwitchTimer.WriteFactoryRules | timer.cpp:24-29 | after the first-time initialisation the EEPROM loads as the factory rules: sunset + 15 to 22:15 on weekdays, sunset + 15 to 22:45 at weekends |
| SwitchTimer.LoadRules | timer.cpp:32-33 | the rules read are `ScheduleFrom` of the EEPROM contents |
| SwitchTimer.Timer.constructor | timer.cpp:17-34 | state off, cache 0, next 0, no override, pin high; rules are read from the EEPROM, after writing the factory rules when initialisation is asked |
| SwitchTimer.Timer.Update | timer.cpp:36-59 | the state becomes `AfterUpdate` of the old state for the clock's minute and day and the cached sunrise and sunset |
| SwitchTimer.Timer.ManualSwitch | timer.cpp:66-72 | the override is toggled and the minute cache cleared; the timer's invariant holds afterwards exactly when it held before |
| SwitchTimer.Timer.IsSwitchedManual | timer.h:40 | `isSwitchedManual`: an override is armed exactly when the armed minute is not -1; `SwitchTimer.ManualToggle` and `SwitchTimer.ManualToggleTwice` state when a press arms it |
| SwitchTimer.Timer.SetWeekTimer | timer.cpp:79-87 | the weekday rules are replaced and stored, and the minute cache is cleared |
| SwitchTimer.Timer.SetWeekendTimer | timer.cpp:88-96 | the weekend rules are replaced and stored, and the minute cache is cleared |
| Menu.TwoDigitString | oledcontrol.cpp:432-436 | `twoDigitString`: a "0" before every value strictly between -10 and 10; `Menu.TwoDigitStringRoundTrip` and `Menu.TwoDigitStringNegative` state what it shows |
| Menu.TwoDigitStringRoundTrip | oledcontrol.cpp:432-436 | values 0..99 show as two digits that read back as the value |
| Menu.TwoDigitStringNegative | oledcontrol.cpp:434 | -5 prints as "0-5" |
| Menu.HourMinuteString | oledcontrol.cpp:438-441 | `timeString(hour, minute)`: two two-digit strings joined by ":"; `Menu.TimeStringRoundTrip` reads it back |
| Menu.TimeString | oledcontrol.cpp:443-446 | `timeString(minutesSinceMidnight)`: the argument's hours and minutes, passed as a 16-bit `int`; `Menu.TimeStringRoundTrip` and `Menu.TimeStringWithoutEvent` state what it shows |
| Menu.TimeStringRoundTrip | oledcontrol.cpp:438-446 | a minute of the day prints as "hh:mm" and reads back as that minute |
| Menu.TimeStringWithoutEvent | oledcontrol.cpp:443-446 | a missing sunrise or sunset (65535) prints as "00:255" |
| Menu.SplitTimerTime | oledcontrol.cpp:454-465 | `timerTime(type, time, data1, data2)`: a clock time split into hours and minutes, an offset copied to the first field; `Menu.JoinSplitTimerTime` and `Menu.SplitJoinTimerTime` prove it inverse to `JoinTimerTime` |
| Menu.JoinTimerTime | oledcontrol.cpp:467-477 | `timerTime(type, data1, data2)`: hours and minutes joined for a clock time, the first field for an offset; the same two lemmas prove it inverse to `SplitTimerTime` |
| Menu.JoinSplitTimerTime | oledcontrol.cpp:454-477 | splitting a rule's time into fields and joining them gives it back, for offsets and clock times of the day; for an offset the minute field is untouched |
| Menu.SplitJoinTimerTime | oledcontrol.cpp:454-477 | joining an hour 0..23 and a minute 0..59 and splitting gives them back |
| Menu.BlankDue | oledcontrol.cpp:143-148 | the default screen's blank test in the AVR's 16-bit unsigned arithmetic; `Menu.BlankDueMeaning` states it as minutes elapsed round midnight |
| Menu.BlankDueMeaning | oledcontrol.cpp:143-148 | the screen blanks exactly when a timeout is set and at least that many minutes, counted round midnight, have passed since the last event |
| Menu.NotMaxValue | oledcontrol.cpp:420-430 | `notMaxValue`: the selected set-time field is below 2070, 12, the days of the month, 23 or 59; `Menu.EditSetTimeInRange` proves that right turns guarded by it keep every field in range |
| Menu.CanDecreaseTimeField | oledcontrol.cpp:228 | the left-turn guard of the set-time screen: above 1 for year, month and day, above 0 for hour and minute; `Menu.EditSetTimeInRange` proves left turns keep every field in range |
| Menu.EditSetTime | oledcontrol.cpp:228-235 | a turn on the set-time screen changes only the selected field |
| Menu.EditSetTimeInRange | oledcontrol.cpp:228-235 | turns keep year 1..2070, month 1..12, day within its month, hour 0..23 and minute 0..59, one step at a time |
| Menu.CanDecreaseTimerField | oledcontrol.cpp:317-320 | the left-turn guard of the set-timer screen; `Menu.EditSetTimerInRange` proves left turns keep every field in range |
| Menu.CanIncreaseTimerField | oledcontrol.cpp:328-331 | the right-turn guard of the set-timer screen; `Menu.EditSetTimerInRange` proves right turns keep every field in range |
| Menu.EditSetTimer | oledcontrol.cpp:315-335 | a turn on the set-timer screen changes only the selected field |
| Menu.EditSetTimerInRange | oledcontrol.cpp:315-335 | turns keep types 0..2, offsets -59..59, hours 0..23 and minutes 0..59, one step at a time |
| Menu.PressAsWritten | oledcontrol.cpp:284-300 | a press on the set-timer screen as written, with the skip test at selections 2 and 4; `Menu.PressAsWrittenSkipsOffTime` shows it skipping the off time |
| Menu.PressAsWrittenSkipsOffTime | oledcontrol.cpp:284-296 | as written, a press on the off type with on-minutes 15 commits without offering the off hour and minutes |
| Menu.Press | oledcontrol.cpp:284-300 | (corrected, see Findings) a press with the skip test at selections 2 and 5; `Menu.PressGoesToNextRelevant` proves it moves to the next field that applies |
| Menu.PressGoesToNextRelevant | oledcontrol.cpp:284-300 | with the corrected skip test a press moves to the next field that applies, and commits exactly when none is left |
| Menu.SetTimeFields | oledcontrol.cpp:209-217 | the set-time fields loaded on entry: the local year, month and day and the time's hours and minutes; `Menu.SetTimeUnedited` proves committing them sets the clock to what it showed |
| Menu.SetTimeCommit | oledcontrol.cpp:224 | the `setDateTime` call made from the fields; `Menu.SetTimeUnedited` relates it to `SetTimeFields` |
| Menu.SetTimeUnedited | oledcontrol.cpp:209-226 | opening the set-time screen and pressing through sets the clock to the date and time it showed |
| Menu.EditedRules | oledcontrol.cpp:269-282 | the weekday rules for the weekday option, the weekend rules otherwise |
| Menu.SetTimerFields | oledcontrol.cpp:266-282 | the set-timer fields loaded on entry; `Menu.SetTimerUnedited` proves committing them stores the rules unchanged |
| Menu.SetTimerCommit | oledcontrol.cpp:301-311 | the `setWeekTimer` or `setWeekendTimer` call made from the fields; `Menu.SetTimerUnedited` relates it to `SetTimerFields` |
| Menu.SetTimerUnedited | oledcontrol.cpp:266-311 | opening the set-timer screen and pressing through stores the rules unchanged |
| Menu.DefaultAfter | oledcontrol.cpp:85-164 | the default screen's case; `Menu.DefaultScreenRules` states when it blanks, opens the menu or switches the relay |
| Menu.MenuScreenAfter | oledcontrol.cpp:165-206 | the menu screen's case; `Menu.MenuPressOpensEntry` states which screen a press opens |
| Menu.SetTimeAfter | oledcontrol.cpp:207-235 | the set-time screen's case; `Menu.SetTimeCommitReturnsToMenu` and `Menu.TurnEditsField` state its press and turn rules |
| Menu.SetTimerAfter | oledcontrol.cpp:264-335 | (corrected, see Findings) the set-timer screen's case; `Menu.SetTimerPressFollowsPress` and `Menu.TurnEditsField` state its press and turn rules |
| Menu.OptionsAfter | oledcontrol.cpp:379-397 | the options screen's case; `Menu.OptionsRules` states its press and turn rules |
| Menu.DispatchAfter | oledcontrol.cpp:69-410 | one pass keeps six menu fields and the current screen, and asks for no screen or one of the six |
| Menu.UpdateMenuAfter | oledcontrol.cpp:66-418 | `updateMenu`: one pass, the event consumed, and the entry pass on a screen change; `Menu.UpdateMenuKeepsValid`, `Menu.LongPressGoesHome` and `Menu.BlankScreenWakes` state its rules |
| Menu.EntryPassIsQuiet | oledcontrol.cpp:412-417 | entering a screen with no event makes no call and asks for no other screen, so the recursive `updateMenu(true)` stops after one level |
| Menu.BlankScreenWakes | oledcontrol.cpp:79-84 | the blank screen stays blank without an event and wakes to the default screen, with the timeout restarted, on any event |
| Menu.DefaultScreenRules | oledcontrol.cpp:85-164 | the default screen blanks exactly when no event came, a timeout is set and that many minutes, counted round midnight, have passed since the last event; a long press opens the menu; a press requests the manual switch; every other event restarts the timeout |
| Menu.MenuPressOpensEntry | oledcontrol.cpp:165-206 | a press on the menu opens the selected entry with its fields loaded: the clock and timeout, the local date and time, the weekday or weekend program, or the stored timeout |
| Menu.SetTimeCommitReturnsToMenu | oledcontrol.cpp:207-235 | a press on the minute field requests the date and time shown and returns to the menu with its first entry selected |
| Menu.TurnEditsField | oledcontrol.cpp:207-335 | a turn on the set-time or set-timer screen changes only the selected field, by that screen's edit rule, and stays on the screen |
| Menu.SetTimerPressFollowsPress | oledcontrol.cpp:264-312 | (corrected, see Findings) a press moves to the next field that applies; when none is left it stores the program shown and returns to the menu |
| Menu.OptionsRules | oledcontrol.cpp:379-397 | a press stores the timeout shown and returns to the menu; a turn moves the timeout by at most one minute and keeps it within 0..30 |
| Menu.LongPressGoesHome | oledcontrol.cpp:71-74 | a long press on any screen but the default one returns to it with the timeout restarted and makes no call |
| Menu.UpdateMenuKeepsValid | oledcontrol.cpp:66-418 | after `updateMenu` the event is consumed, the selection fits the screen, at most one call is made, every call but the manual switch ends on the menu screen, and a long press away from the default screen returns to it |
| Menu.OledControl.constructor | oledcontrol.cpp:32-37 | the default screen, no event, option 0, selection 0, menu data zero |
| Menu.OledControl.UserEvent | oledcontrol.cpp:46-49 | the event is stored for the next update; nothing else changes |
| Menu.OledControl.UpdateMenu | oledcontrol.cpp:66-418 | the new screen, event, option, fields and selection and the calls made are `UpdateMenuAfter` of the old state (one pass, the event consumed, and on a screen change the entry pass with `forceUpdate`); the state stays valid |
| Menu.OledControl.Dispatch | oledcontrol.cpp:69-410 | the new state, the screen asked for and the calls made are `DispatchAfter` of the old state |
| Menu.OledControl.DefaultStep | oledcontrol.cpp:85-164 | the new fields, the screen asked for and the call are `DefaultAfter` of the old state |
| Menu.OledControl.MenuStep | oledcontrol.cpp:165-206 | the new selection, event and option and the screen asked for are `MenuScreenAfter` of the old state |
| Menu.OledControl.SetTimeStep | oledcontrol.cpp:207-235 | the new fields and selection, the screen asked for and the call are `SetTimeAfter` of the old state |
| Menu.OledControl.SetTimerStep | oledcontrol.cpp:264-335 | (corrected, see Findings) the new fields and selection, the screen asked for and the call are `SetTimerAfter` of the old state |
| Menu.OledControl.OptionsStep | oledcontrol.cpp:379-397 | the new selection, the screen asked for and the call are `OptionsAfter` of the old state |

## Left out

- The solar position formulas (dusk2dawn.cpp:74-201: equation of time, declination, hour angle) and the float helpers `radToDeg`/`degToRad` use floating point and trigonometry. The refined UTC time is a parameter (`SolarEvent`). The Julian day is computed in exact rationals, not in the device's single-precision floats.
- The I2C transfers of `RTC_DS3231::adjust`, `now` and `lostPower` are not modelled. The clock reading and the lost-power bit are parameters. The BCD conversions they use are modelled on their own.
- `RtcControl::update` (rtccontrol.cpp:30-39) depends on `millis()`. It is modelled only through `UpdateNow`, which is called with a reading.
- `pinMode` and `digitalWrite` are not modelled. The relay pin is the boolean field `pinHigh`.
- `INITIALIZE_EEPROM_MEMORY` is a compile-time constant. It is the `initializeEeprom` parameter of the `Timer` constructor.
- The getters `getNextSwitchTime`, `isSwitchedOn` and `getWeek…Type/Time` are not separate members. They are read as fields or as `Rules()`. `isSwitchedManual` is `SwitchTimer.Timer.IsSwitchedManual`.
- All drawing is left out, because the display is output only: `mOled`, `printSelectable`, `printTimerType`, `printTimerTime1/2`, and the DEFAULT, SET_TIME and SET_TIMER rendering.
- `OledControl::begin` initialises the display and then calls `updateMenu(true)`. That call is `UpdateMenu(true, …)` on a fresh object.
- Menu.OledControl.UpdateMenu: the clock, timer and EEPROM reads are an `Inputs` value, and the calls it makes are returned as `Effect`s. The model does not apply those calls to `RtcControl`, `Timer` or `Eeprom`.
- Menu.OledControl.UpdateMenu: the recursive `updateMenu(true)` is one re-entry pass. `EntryPassIsQuiet` proves that pass cannot change the screen again.
- Menu.NotMaxValue: a selection above 4, or a month outside 1..12 on the day field, is undefined behaviour in C (falling off the end, reading outside the month table). It is a precondition. A summer-time reading on 31 December shows month 13, so `UpdateMenu` requires the month to be 1..12 before a right turn on the day field.
- SwitchTimer.TimerTime: a switch type other than 0..2 falls off the end of `getTimerTime` (undefined behaviour). It is a precondition. The timer's `Valid` requires stored types 0..2.
- SwitchTimer.NextSwitch terminates only when some event lies ahead. When both classes resolve to 0/0, the C recursion never ends (`BothZeroNeverSettles`), so that case is a precondition.
- Rtc.RtcControl.SetDateTime requires a valid date of 2000..2099. The model does not say what the DS3231 does with an invalid date, such as the 31 April or the year 1999 the set-time screen can produce.
- Rtc.EuSummerTime: the start-up rule and the corrected `setDateTime` set the flag by date, not by instant. On the last Sunday of March, times before raw 02:00 read as summer time; on the last Sunday of October the whole day reads as winter time. For up to two hours after start-up or `setDateTime` on those days, the flag can differ from the instant-level `Rtc.SummerTimeAt`, until the next switch instant. `Rtc.DstTracksSummerTime` covers only the minute-by-minute updates from a flag that already agrees.
- Rtc.RawMinutesRoundTrip: local times 00:00-00:59 under summer time are not covered by this lemma. They need the previous raw day, which the corrected `setDateTime` writes (`Rtc.SetDateTimeRoundTrip`).
- Dusk2Dawn.AfterUpdateFresh requires a year below 32768, so that the year reaches `sunriseSet` as a 16-bit `int` unchanged.
- The rotary encoder driver (`rotaryencoder.cpp`) is not modelled. It only produces the events.

## Findings

| source | as written | input that shows it | evidently intended | confidence | as-written member | corrected member |
|---|---|---|---|---|---|---|
| rtccontrol.cpp:143-151 | the previous Sunday is computed as `day - (dayOfTheWeek + 1)` in a `uint8_t` | 26 March 2018, a Monday: 26 - 2 = 24 < 25 reports winter time, though summer time began on the 25th. 3 March 2018, a Saturday: 3 - 7 wraps to 252 >= 25 and reports summer time | `day - dayOfTheWeek >= 25`: the last Sunday on or before today falls on the 25th or later | not executed | Rtc.DstFromDateAsWrittenCounterexample | Rtc.DstFromDateIsEuSummerTime |
| oledcontrol.cpp:290-291 | after the step to the next field, that field is skipped when the selection is 2 or 4 and `mMenuData[mSelection - 2]` is not TIME | a program ON at 22:15 and OFF at 06:00, both clock times: the press on the off type moves to field 4, and since field 2 holds 15 it skips to 5 and stores the rule, so the off time cannot be edited | skip the minute field 5 when the off type in field 3 is not TIME, i.e. `mSelection == 5` in place of `mSelection == 4` | not executed | Menu.PressAsWrittenSkipsOffTime | Menu.PressGoesToNextRelevant |
| rtccontrol.cpp:125 | the hour is removed only when `minutesSinceMidnight > 60` | setting 01:00 under summer time writes raw 01:00, which reads back as 02:00 | `minutesSinceMidnight >= 60` | not executed | Rtc.RawMinutesAsWrittenCounterexample | Rtc.RawMinutesRoundTrip |
| rtccontrol.cpp:123-128 | the raw minute is chosen with the summer-time flag the clock held before the call; the flag is derived from the new date only afterwards | with summer time on, setting 12:00 on 15 January 2018 writes raw 11:00, the flag then goes off and the clock reads 11:00; with summer time off, setting 12:00 on 15 July 2018 reads back as 13:00 | take the flag from the date being set before converting, and write a summer-time local time before 01:00 on the previous raw day | not executed | Rtc.SetDateTimeAsWrittenCounterexample | Rtc.SetDateTimeRoundTrip |
