/** The switch scheduler: a weekday and a weekend on/off rule, each event a clock
    time or an offset from sunrise/sunset, resolved to a minute of the day; the
    next switch and the current on/off state follow from the minute of the day,
    with a one-shot manual override and an active-low relay output. */
module SwitchTimer {
  import opened Ints
  import Rtc
  import Dusk2Dawn
  import Persist

  // ---------------------------------------------------------------- switch actions

  /** Switch types; the values are stored in the EEPROM. */
  const Time: uint8 := 0
  const SunUp: uint8 := 1
  const SunDown: uint8 := 2

  datatype SwitchAction = SwitchAction(switchType: uint8, time: int16)

  /** SwitchAction(int16_t time): a fixed clock time. */
  function TimeAction(time: int16): (a: SwitchAction)
    ensures a.switchType == Time && a.time == time
  {
    SwitchAction(Time, time)
  }

  /** SwitchAction(uint8_t type): an event with offset 0. */
  function TypeAction(switchType: uint8): (a: SwitchAction)
    ensures a.switchType == switchType && a.time == 0
  {
    SwitchAction(switchType, 0)
  }

  /** Monday to Thursday use the weekday rule; Friday to Sunday, and every value from 7
      up, use the weekend rule. */
  predicate IsWeekDay(dayOfTheWeek: uint8)
  {
    dayOfTheWeek > 0 && dayOfTheWeek < 5
  }

  lemma WeekDaysAreMondayToThursday(d: uint8)
    ensures IsWeekDay(d) <==> d in {1, 2, 3, 4}
  {
  }

  /** getTimerTime: the minute of the event; a sunrise/sunset offset is added in 16-bit
      unsigned arithmetic and read back as int16. Other types fall off the end of the
      C function (undefined), so they are excluded. */
  function TimerTime(a: SwitchAction, sunrise: uint16, sunset: uint16): (r: int16)
    requires a.switchType <= SunDown
    ensures a.switchType == Time ==> r == a.time
    ensures a.switchType == SunUp ==> (r - (sunrise + a.time)) % 0x1_0000 == 0
    ensures a.switchType == SunDown ==> (r - (sunset + a.time)) % 0x1_0000 == 0
    ensures a.switchType == SunUp && 0 <= sunrise + a.time < 0x8000 ==> r == sunrise + a.time
    ensures a.switchType == SunDown && 0 <= sunset + a.time < 0x8000 ==> r == sunset + a.time
  {
    match a.switchType
    case 1 => ToI16(sunrise + a.time)
    case 2 => ToI16(sunset + a.time)
    case 0 => a.time
  }

  /** Without a sunrise (stored as 65535) the event falls one minute before the offset. */
  lemma TimerTimeWithoutSunrise(offset: int16, sunset: uint16)
    requires offset > -0x8000
    ensures TimerTime(SwitchAction(SunUp, offset), 0xFFFF, sunset) == offset - 1
  {
  }

  /** The four rules of the timer. */
  datatype Schedule = Schedule(weekDayOn: SwitchAction, weekDayOff: SwitchAction,
                               weekendOn: SwitchAction, weekendOff: SwitchAction)

  predicate ValidTypes(s: Schedule)
  {
    s.weekDayOn.switchType <= SunDown && s.weekDayOff.switchType <= SunDown &&
    s.weekendOn.switchType <= SunDown && s.weekendOff.switchType <= SunDown
  }

  /** The four rules resolved to minutes of the day (as int16, before the uint16 view). */
  datatype DayTimes = DayTimes(weekOn: int16, weekOff: int16, weekendOn: int16, weekendOff: int16)

  function Resolve(s: Schedule, sunrise: uint16, sunset: uint16): DayTimes
    requires ValidTypes(s)
  {
    DayTimes(TimerTime(s.weekDayOn, sunrise, sunset), TimerTime(s.weekDayOff, sunrise, sunset),
             TimerTime(s.weekendOn, sunrise, sunset), TimerTime(s.weekendOff, sunrise, sunset))
  }

  // ---------------------------------------------------------------- getNextSwitch

  datatype Switch = Switch(next: uint16, on: bool)

  /** The outcome of looking at one day: a switch still ahead today, or none. */
  datatype Step = Done(sw: Switch) | NextDay

  /** The on-state while a switch is still ahead today: on from the on event to the off
      event; when the on event is not earlier than the off event, the relay is on from
      the start of the day until the off event. */
  predicate OnAt(now: int, on: int, off: int)
  {
    if on < off then on <= now else now < off
  }

  /** The body of getNextSwitch for one day: order the two events (as uint16) and compare
      the minute of the day with them. */
  function StepToday(now: uint16, on: int16, off: int16): (r: Step)
    ensures r.Done? <==> now < ToU16(on) || now < ToU16(off)
    ensures r.Done? ==> r.sw.next in {ToU16(on), ToU16(off)} && r.sw.next > now
    ensures r.Done? ==> (ToU16(on) > now ==> r.sw.next <= ToU16(on)) && (ToU16(off) > now ==> r.sw.next <= ToU16(off))
    ensures r.Done? ==> (r.sw.on <==> OnAt(now, ToU16(on), ToU16(off)))
  {
    var switch1, switch2 := ToU16(on), ToU16(off);
    var swap := switch1 < switch2;
    var (s1, s2) := if swap then (switch2, switch1) else (switch1, switch2);
    if now < s2 then Done(Switch(s2, !swap))
    else if now < s1 then Done(Switch(s1, swap))
    else NextDay
  }

  /** The pair of resolved times that governs a day. */
  function PairFor(day: uint8, t: DayTimes): (int16, int16)
  {
    if IsWeekDay(day) then (t.weekOn, t.weekOff) else (t.weekendOn, t.weekendOff)
  }

  predicate PairZero(p: (int16, int16))
  {
    p.0 == 0 && p.1 == 0
  }

  /** Both rules put both events at minute 0: getNextSwitch never returns. */
  predicate BothZero(t: DayTimes)
  {
    PairZero((t.weekOn, t.weekOff)) && PairZero((t.weekendOn, t.weekendOff))
  }

  /** At minute 0 a day has a switch ahead unless both its events are at minute 0. */
  lemma MidnightStep(on: int16, off: int16)
    ensures StepToday(0, on, off).NextDay? <==> PairZero((on, off))
  {
  }

  /** With both rules at 0/0, every day passes on to the next one, for ever. */
  lemma BothZeroNeverSettles(t: DayTimes, day: uint8)
    requires BothZero(t)
    ensures StepToday(0, PairFor(day, t).0, PairFor(day, t).1).NextDay?
  {
    MidnightStep(PairFor(day, t).0, PairFor(day, t).1);
  }

  /** How many more days getNextSwitch looks at, starting at minute 0 of `day`. */
  function Hops(day: uint8, t: DayTimes): nat
    requires !BothZero(t)
  {
    if !PairZero(PairFor(day, t)) then 0
    else if IsWeekDay(day) then 5 - day
    else if day == 0 then 1
    else 257 - day
  }

  lemma HopsStep(day: uint8, t: DayTimes)
    requires !BothZero(t) && PairZero(PairFor(day, t))
    ensures Hops(day, t) == 1 + Hops(ToU8(day + 1), t)
  {
  }

  /** getNextSwitch. When both events have passed it looks at the first switch of the next
      day, whose rule is chosen by `isWeekDay(dayOfTheWeek + 1 % 7)`; as `%` binds
      tighter than `+`, the day is never reduced modulo 7, only truncated to uint8. */
  function NextSwitch(day: uint8, now: uint16, on: int16, off: int16, t: DayTimes): Switch
    requires StepToday(now, on, off).Done? || !BothZero(t)
    decreases if StepToday(now, on, off).NextDay? then 1 + Hops(ToU8(day + 1), t) else 0
  {
    match StepToday(now, on, off)
    case Done(sw) => sw
    case NextDay =>
      var next := ToU8(day + 1);
      if IsWeekDay(ToU8(day + 1 % 7)) then NextSwitch(next, 0, t.weekOn, t.weekOff, t)
      else NextSwitch(next, 0, t.weekendOn, t.weekendOff, t)
  }

  function NextWeekDaySwitch(day: uint8, now: uint16, t: DayTimes): Switch
    requires StepToday(now, t.weekOn, t.weekOff).Done? || !BothZero(t)
  {
    NextSwitch(day, now, t.weekOn, t.weekOff, t)
  }

  function NextWeekendSwitch(day: uint8, now: uint16, t: DayTimes): Switch
    requires StepToday(now, t.weekendOn, t.weekendOff).Done? || !BothZero(t)
  {
    NextSwitch(day, now, t.weekendOn, t.weekendOff, t)
  }

  /** The next switch is one of the resolved event minutes; today's is later than now, and
      one found on a later day is later than midnight. */
  lemma {:induction false} NextSwitchIsEvent(day: uint8, now: uint16, on: int16, off: int16, t: DayTimes)
    requires StepToday(now, on, off).Done? || !BothZero(t)
    ensures var r := NextSwitch(day, now, on, off, t);
      r.next in {ToU16(on), ToU16(off), ToU16(t.weekOn), ToU16(t.weekOff), ToU16(t.weekendOn), ToU16(t.weekendOff)} &&
      (StepToday(now, on, off).Done? ==> r == StepToday(now, on, off).sw && r.next > now) &&
      (StepToday(now, on, off).NextDay? ==> r.next > 0)
    decreases if StepToday(now, on, off).NextDay? then 1 + Hops(ToU8(day + 1), t) else 0
  {
    if StepToday(now, on, off).NextDay? {
      var next := ToU8(day + 1);
      var (on', off') := PairFor(next, t);
      MidnightStep(on', off');
      if PairZero((on', off')) {
        HopsStep(next, t);
      }
      NextSwitchIsEvent(next, 0, on', off', t);
    }
  }

  // ---------------------------------------------------------------- the modulo-7 reading

  function Hops7(day: uint8, t: DayTimes): nat
    requires day < 7 && !BothZero(t)
  {
    if !PairZero(PairFor(day, t)) then 0
    else if IsWeekDay(day) then 5 - day
    else if day == 0 then 1
    else 8 - day
  }

  lemma Hops7Step(day: uint8, t: DayTimes)
    requires day < 7 && !BothZero(t) && PairZero(PairFor(day, t))
    ensures Hops7(day, t) == 1 + Hops7((day + 1) % 7, t)
  {
  }

  /** Reference: getNextSwitch as evidently meant, with the weekday taken modulo 7. */
  function NextSwitchMod7(day: uint8, now: uint16, on: int16, off: int16, t: DayTimes): Switch
    requires day < 7
    requires StepToday(now, on, off).Done? || !BothZero(t)
    decreases if StepToday(now, on, off).NextDay? then 1 + Hops7((day + 1) % 7, t) else 0
  {
    match StepToday(now, on, off)
    case Done(sw) => sw
    case NextDay =>
      var next: uint8 := (day + 1) % 7;
      if IsWeekDay(next) then NextSwitchMod7(next, 0, t.weekOn, t.weekOff, t)
      else NextSwitchMod7(next, 0, t.weekendOn, t.weekendOff, t)
  }

  /** From any weekend day, minute 0, the result is the one found from Sunday. */
  lemma {:induction false} WeekendChain(day: uint8, t: DayTimes)
    requires !IsWeekDay(day) && !BothZero(t)
    ensures NextSwitch(day, 0, t.weekendOn, t.weekendOff, t) == NextSwitch(0, 0, t.weekendOn, t.weekendOff, t)
    decreases 256 - day
  {
    MidnightStep(t.weekendOn, t.weekendOff);
    if day != 0 && PairZero((t.weekendOn, t.weekendOff)) {
      var next := ToU8(day + 1);
      assert !IsWeekDay(next);
      if next != 0 {
        WeekendChain(next, t);
      }
    }
  }

  /** The missing parentheses in `dayOfTheWeek + 1 %7` are harmless: for every weekday
      0..6, getNextSwitch gives what the modulo-7 reading gives. */
  lemma {:induction false} DayIndexHarmless(day: uint8, now: uint16, on: int16, off: int16, t: DayTimes)
    requires day < 7
    requires StepToday(now, on, off).Done? || !BothZero(t)
    ensures NextSwitch(day, now, on, off, t) == NextSwitchMod7(day, now, on, off, t)
    decreases if StepToday(now, on, off).NextDay? then 1 + Hops7((day + 1) % 7, t) else 0
  {
    if StepToday(now, on, off).NextDay? {
      var next: uint8 := (day + 1) % 7;
      var (on', off') := PairFor(next, t);
      MidnightStep(on', off');
      if PairZero((on', off')) {
        Hops7Step(next, t);
      }
      DayIndexHarmless(next, 0, on', off', t);
      if day == 6 {
        WeekendChain(7, t);
      }
    }
  }

  // ---------------------------------------------------------------- update and the override

  /** The mutable part of a Timer; `pinHigh` is the level of the relay output. */
  datatype TimerState = TimerState(switchedOn: bool, minuteCache: uint8, nextSwitchTime: uint16,
                                   manualSwitchTime: int16, pinHigh: bool)

  /** The relay is driven active-low. */
  predicate PinFollows(s: TimerState)
  {
    s.pinHigh == !s.switchedOn
  }

  /** update may only be called where getNextSwitch returns. */
  predicate UpdateDefined(s: TimerState, sched: Schedule, now: uint16, dow: uint8, sunrise: uint16, sunset: uint16)
  {
    ValidTypes(sched) &&
    (s.minuteCache != Rtc.Minutes(ToI16(now)) ==>
      var t := Resolve(sched, sunrise, sunset);
      StepToday(now, PairFor(dow, t).0, PairFor(dow, t).1).Done? || !BothZero(t))
  }

  /** The scheduled switch for the minute `now` of day `dow`. */
  function Scheduled(sched: Schedule, now: uint16, dow: uint8, sunrise: uint16, sunset: uint16): Switch
    requires ValidTypes(sched)
    requires var t := Resolve(sched, sunrise, sunset);
      StepToday(now, PairFor(dow, t).0, PairFor(dow, t).1).Done? || !BothZero(t)
  {
    var t := Resolve(sched, sunrise, sunset);
    if IsWeekDay(dow) then NextWeekDaySwitch(dow, now, t) else NextWeekendSwitch(dow, now, t)
  }

  /** update: act only when the minute of the hour differs from the cached one; clear an
      override that has come due, recompute the schedule, invert it while an override for
      the next switch is armed, and write the pin only when the state changed. */
  function AfterUpdate(s: TimerState, sched: Schedule, now: uint16, dow: uint8, sunrise: uint16, sunset: uint16): (r: TimerState)
    requires UpdateDefined(s, sched, now, dow, sunrise, sunset)
    ensures s.minuteCache == Rtc.Minutes(ToI16(now)) ==> r == s
    ensures s.minuteCache != Rtc.Minutes(ToI16(now)) && now < 0x8000 ==> r.minuteCache == now % 60
    ensures r.pinHigh != s.pinHigh ==> r.switchedOn != s.switchedOn
  {
    var minute := Rtc.Minutes(ToI16(now));
    if s.minuteCache == minute then s
    else
      var manual: int16 := if now == ToU16(s.manualSwitchTime) then -1 else s.manualSwitchTime;
      var sw := Scheduled(sched, now, dow, sunrise, sunset);
      var on := if manual != -1 && ToU16(manual) == sw.next then !sw.on else sw.on;
      TimerState(on, minute, sw.next, manual, if on != s.switchedOn then !on else s.pinHigh)
  }

  /** update keeps the output pin at the inverse of the switched-on state. */
  lemma AfterUpdateKeepsPin(s: TimerState, sched: Schedule, now: uint16, dow: uint8, sunrise: uint16, sunset: uint16)
    requires UpdateDefined(s, sched, now, dow, sunrise, sunset) && PinFollows(s)
    ensures PinFollows(AfterUpdate(s, sched, now, dow, sunrise, sunset))
  {
  }

  /** Without an armed override the relay follows the schedule. */
  lemma AfterUpdateFollowsSchedule(s: TimerState, sched: Schedule, now: uint16, dow: uint8, sunrise: uint16, sunset: uint16)
    requires UpdateDefined(s, sched, now, dow, sunrise, sunset)
    requires s.minuteCache != Rtc.Minutes(ToI16(now)) && s.manualSwitchTime == -1
    ensures var r := AfterUpdate(s, sched, now, dow, sunrise, sunset);
      r.switchedOn == Scheduled(sched, now, dow, sunrise, sunset).on &&
      r.nextSwitchTime == Scheduled(sched, now, dow, sunrise, sunset).next &&
      r.manualSwitchTime == -1
  {
  }

  /** manualSwitch on the override: arm it at the next switch time if disarmed, else
      disarm it. A next switch time of 65535 reads as -1 and cannot be armed. */
  function ManualToggle(manual: int16, next: uint16): (r: int16)
    ensures r == -1 <==> manual != -1 || next == 0xFFFF
    ensures r != -1 ==> ToU16(r) == next
  {
    if manual == -1 then ToI16(next) else -1
  }

  /** Two presses from disarmed leave the override disarmed. */
  lemma ManualToggleTwice(next: uint16)
    ensures ManualToggle(ManualToggle(-1, next), next) == -1
  {
  }

  /** An override armed at the next switch inverts the relay until that minute, and is
      cleared when the minute comes, the relay returning to the schedule. */
  lemma {:induction false} OverrideLastsUntilNextSwitch(s: TimerState, sched: Schedule, now: uint16, dow: uint8, sunrise: uint16, sunset: uint16)
    requires UpdateDefined(s, sched, now, dow, sunrise, sunset)
    requires s.minuteCache != Rtc.Minutes(ToI16(now))
    requires s.manualSwitchTime != -1
    ensures var r := AfterUpdate(s, sched, now, dow, sunrise, sunset);
      var sw := Scheduled(sched, now, dow, sunrise, sunset);
      (now == ToU16(s.manualSwitchTime) ==> r.manualSwitchTime == -1 && r.switchedOn == sw.on) &&
      (now != ToU16(s.manualSwitchTime) && sw.next == ToU16(s.manualSwitchTime) ==>
         r.manualSwitchTime == s.manualSwitchTime && r.switchedOn == !sw.on)
  {
  }

  // ---------------------------------------------------------------- begin and persistence

  /** The rules as begin() loads them from the EEPROM. */
  function ScheduleFrom(m: seq<uint8>): Schedule
    requires |m| == Persist.EepromSize
  {
    var w := Persist.LoadTimer(m, Persist.WeekTimerBase);
    var e := Persist.LoadTimer(m, Persist.WeekendTimerBase);
    Schedule(SwitchAction(w.startType, w.startTime), SwitchAction(w.stopType, w.stopTime),
             SwitchAction(e.startType, e.startTime), SwitchAction(e.stopType, e.stopTime))
  }

  function Setting(on: SwitchAction, off: SwitchAction): Persist.TimerSetting
  {
    Persist.TimerSetting(on.switchType, on.time, off.switchType, off.time)
  }

  /** What setWeekTimer persists is what the next begin() loads, and the weekend rule is
      untouched. */
  lemma {:induction false} WeekTimerSurvivesRestart(m: seq<uint8>, on: SwitchAction, off: SwitchAction)
    requires |m| == Persist.EepromSize
    ensures var m' := Persist.StoreTimer(m, Persist.WeekTimerBase, Setting(on, off));
      ScheduleFrom(m') == ScheduleFrom(m).(weekDayOn := on, weekDayOff := off)
  {
    Persist.LoadStoreTimer(m, Persist.WeekTimerBase, Setting(on, off));
    Persist.StoreTimerIndependent(m, Persist.WeekTimerBase, Persist.WeekendTimerBase, Setting(on, off));
  }

  /** What setWeekendTimer persists is what the next begin() loads, and the weekday rule is
      untouched. */
  lemma {:induction false} WeekendTimerSurvivesRestart(m: seq<uint8>, on: SwitchAction, off: SwitchAction)
    requires |m| == Persist.EepromSize
    ensures var m' := Persist.StoreTimer(m, Persist.WeekendTimerBase, Setting(on, off));
      ScheduleFrom(m') == ScheduleFrom(m).(weekendOn := on, weekendOff := off)
  {
    Persist.LoadStoreTimer(m, Persist.WeekendTimerBase, Setting(on, off));
    Persist.StoreTimerIndependent(m, Persist.WeekendTimerBase, Persist.WeekTimerBase, Setting(on, off));
  }

  /** The rules written by the first-time EEPROM initialisation. */
  const FactorySchedule := Schedule(TypeAction(SunDown).(time := 15), TimeAction(22 * 60 + 15),
                                    TypeAction(SunDown).(time := 15), TimeAction(22 * 60 + 45))

  /** The first-time programming step of begin(): clear the EEPROM and write the factory
      rules, which the following loads then read back. */
  method WriteFactoryRules(store: Persist.Eeprom)
    requires store.Valid()
    modifies store.mem
    ensures ScheduleFrom(store.mem[..]) == FactorySchedule
  {
    store.ClearMem();
    ghost var cleared := store.mem[..];
    store.SetWeekTimer(SunDown, 15, Time, 22 * 60 + 15);
    WeekTimerSurvivesRestart(cleared, FactorySchedule.weekDayOn, FactorySchedule.weekDayOff);
    ghost var half := store.mem[..];
    store.SetWeekendTimer(SunDown, 15, Time, 22 * 60 + 45);
    WeekendTimerSurvivesRestart(half, FactorySchedule.weekendOn, FactorySchedule.weekendOff);
  }

  /** The loading step of begin(): both timer blocks read from the EEPROM. */
  method LoadRules(store: Persist.Eeprom) returns (rules: Schedule)
    requires store.Valid()
    ensures rules == ScheduleFrom(store.mem[..])
  {
    var onType, onTime, offType, offTime := store.GetWeekTimer();
    var weekDayOn, weekDayOff := SwitchAction(onType, onTime), SwitchAction(offType, offTime);
    onType, onTime, offType, offTime := store.GetWeekendTimer();
    rules := Schedule(weekDayOn, weekDayOff, SwitchAction(onType, onTime), SwitchAction(offType, offTime));
  }

  // ---------------------------------------------------------------- the Timer object

  class Timer {
    const rtc: Rtc.RtcControl
    const d2d: Dusk2Dawn.Dusk2Dawn
    const store: Persist.Eeprom
    var weekDayOn: SwitchAction
    var weekDayOff: SwitchAction
    var weekendOn: SwitchAction
    var weekendOff: SwitchAction
    var switchedOn: bool
    var minuteCache: uint8
    var nextSwitchTime: uint16
    var manualSwitchTime: int16
    var pinHigh: bool

    function Rules(): Schedule
      reads this
    {
      Schedule(weekDayOn, weekDayOff, weekendOn, weekendOff)
    }

    function State(): TimerState
      reads this
    {
      TimerState(switchedOn, minuteCache, nextSwitchTime, manualSwitchTime, pinHigh)
    }

    ghost predicate Valid()
      reads this, store
    {
      store.Valid() && ValidTypes(Rules()) && PinFollows(State())
    }

    /** isSwitchedManual. */
    predicate IsSwitchedManual()
      reads this
    {
      manualSwitchTime != -1
    }

    /** The constructor followed by begin(). With `initializeEeprom` (a build-time switch
        for first-time programming) the EEPROM is cleared and the factory rules written. */
    constructor (rtc: Rtc.RtcControl, d2d: Dusk2Dawn.Dusk2Dawn, store: Persist.Eeprom, initializeEeprom: bool)
      requires store.Valid()
      requires !initializeEeprom ==> ValidTypes(ScheduleFrom(store.mem[..]))
      modifies store.mem
      ensures Valid() && this.rtc == rtc && this.d2d == d2d && this.store == store
      ensures State() == TimerState(false, 0, 0, -1, true)
      ensures Rules() == ScheduleFrom(store.mem[..])
      ensures initializeEeprom ==> Rules() == FactorySchedule
      ensures !initializeEeprom ==> store.mem[..] == old(store.mem[..])
    {
      this.rtc, this.d2d, this.store := rtc, d2d, store;
      switchedOn, minuteCache, nextSwitchTime, manualSwitchTime := false, 0, 0, -1;
      new;
      if initializeEeprom {
        WriteFactoryRules(store);
      }
      pinHigh := true;
      var rules := LoadRules(store);
      weekDayOn, weekDayOff, weekendOn, weekendOff := rules.weekDayOn, rules.weekDayOff, rules.weekendOn, rules.weekendOff;
    }

    /** update, reading the clock and the sunrise cache. */
    method Update()
      requires Valid() && rtc.Valid()
      requires UpdateDefined(State(), Rules(), rtc.MinutesSinceMidnight(), rtc.dayOfTheWeek, d2d.sunrise, d2d.sunset)
      modifies this
      ensures Valid() && Rules() == old(Rules())
      ensures State() == AfterUpdate(old(State()), Rules(), rtc.MinutesSinceMidnight(), rtc.dayOfTheWeek, d2d.sunrise, d2d.sunset)
    {
      var now := rtc.MinutesSinceMidnight();
      var dayOfTheWeek := rtc.dayOfTheWeek;
      var sunrise, sunset := d2d.sunrise, d2d.sunset;
      ghost var target := AfterUpdate(State(), Rules(), now, dayOfTheWeek, sunrise, sunset);
      if minuteCache != Rtc.Minutes(ToI16(now)) {
        var t := Resolve(Rules(), sunrise, sunset);
        var sw: Switch;
        if IsWeekDay(dayOfTheWeek) {
          sw := NextWeekDaySwitch(dayOfTheWeek, now, t);
        } else {
          sw := NextWeekendSwitch(dayOfTheWeek, now, t);
        }
        assert sw == Scheduled(Rules(), now, dayOfTheWeek, sunrise, sunset);
        minuteCache := Rtc.Minutes(ToI16(now));
        if now == ToU16(manualSwitchTime) {
          manualSwitchTime := -1;
        }
        var currentOnOff := switchedOn;
        nextSwitchTime, switchedOn := sw.next, sw.on;
        if manualSwitchTime != -1 && ToU16(manualSwitchTime) == nextSwitchTime {
          switchedOn := !switchedOn;
        }
        if currentOnOff != switchedOn {
          pinHigh := !switchedOn;
        }
      }
      assert State() == target;
    }

    /** manualSwitch: toggle the override and force a recomputation at the next update. */
    method ManualSwitch()
      modifies this`manualSwitchTime, this`minuteCache
      ensures manualSwitchTime == ManualToggle(old(manualSwitchTime), nextSwitchTime)
      ensures minuteCache == 0
      ensures Valid() <==> old(Valid())
    {
      if manualSwitchTime == -1 {
        manualSwitchTime := ToI16(nextSwitchTime);
      } else {
        manualSwitchTime := -1;
      }
      minuteCache := 0;
    }

    /** setWeekTimer: replace and persist the weekday rule, and force a recomputation. */
    method SetWeekTimer(onType: uint8, onTime: int16, offType: uint8, offTime: int16)
      requires Valid() && onType <= SunDown && offType <= SunDown
      modifies this, store.mem
      ensures Valid()
      ensures Rules() == old(Rules()).(weekDayOn := SwitchAction(onType, onTime), weekDayOff := SwitchAction(offType, offTime))
      ensures State() == old(State()).(minuteCache := 0)
      ensures store.mem[..] == Persist.StoreTimer(old(store.mem[..]), Persist.WeekTimerBase,
                                                  Persist.TimerSetting(onType, onTime, offType, offTime))
    {
      weekDayOn := SwitchAction(onType, onTime);
      weekDayOff := SwitchAction(offType, offTime);
      store.SetWeekTimer(weekDayOn.switchType, weekDayOn.time, weekDayOff.switchType, weekDayOff.time);
      minuteCache := 0;
    }

    /** setWeekendTimer: replace and persist the weekend rule, and force a recomputation. */
    method SetWeekendTimer(onType: uint8, onTime: int16, offType: uint8, offTime: int16)
      requires Valid() && onType <= SunDown && offType <= SunDown
      modifies this, store.mem
      ensures Valid()
      ensures Rules() == old(Rules()).(weekendOn := SwitchAction(onType, onTime), weekendOff := SwitchAction(offType, offTime))
      ensures State() == old(State()).(minuteCache := 0)
      ensures store.mem[..] == Persist.StoreTimer(old(store.mem[..]), Persist.WeekendTimerBase,
                                                  Persist.TimerSetting(onType, onTime, offType, offTime))
    {
      weekendOn := SwitchAction(onType, onTime);
      weekendOff := SwitchAction(offType, offTime);
      store.SetWeekendTimer(weekendOn.switchType, weekendOn.time, weekendOff.switchType, weekendOff.time);
      minuteCache := 0;
    }
  }
}
