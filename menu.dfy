/** The menu logic of the OLED front panel: the screens and their transitions, the
    edit rules of the set-time, set-timer and options screens over the six-element
    menu data array, the splitting of timer values into hours and minutes, the
    two-digit time strings, and the screen-blank rule. Drawing on the display is
    not modelled; what the menu reads from the clock, the timer and the EEPROM is
    an `Inputs` value, and what it asks of them is returned as `Effect`s. */
module Menu {
  import opened Ints
  import Rtc
  import SwitchTimer

  // ---------------------------------------------------------------- constants

  const NoneScreen: uint8 := 0
  const BlankScreen: uint8 := 1
  const DefaultScreen: uint8 := 2
  const MenuScreen: uint8 := 3
  const SetTimeScreen: uint8 := 4
  const SetTimerScreen: uint8 := 5
  const SetOptions: uint8 := 6

  const MenuOptionWeekTimer: uint8 := 1
  const MenuOptionWeekendTimer: uint8 := 2

  /** Rotary encoder events. */
  const EvNone: uint8 := 0
  const EvPress: uint8 := 1
  const EvLongPress: uint8 := 2
  const EvLeft: uint8 := 3
  const EvRight: uint8 := 4

  const Time: int16 := SwitchTimer.Time as int16

  // ---------------------------------------------------------------- strings

  function DigitChar(d: int): char
    requires 0 <= d < 10
  {
    ('0' as int + d) as char
  }

  predicate IsDigit(c: char)
  {
    '0' <= c <= '9'
  }

  /** The decimal digits of a natural number. */
  function NatString(n: nat): (s: string)
    ensures |s| >= 1 && forall i :: 0 <= i < |s| ==> IsDigit(s[i])
  {
    if n < 10 then [DigitChar(n)] else NatString(n / 10) + [DigitChar(n % 10)]
  }

  /** Arduino's String(int): a minus sign before the digits of a negative value. */
  function DecimalString(v: int): string
  {
    if v < 0 then "-" + NatString(-v) else NatString(v)
  }

  /** The value of a string of decimal digits. */
  function ParseDigits(s: string): nat
    requires forall i :: 0 <= i < |s| ==> IsDigit(s[i])
  {
    if |s| == 0 then 0
    else
      assert IsDigit(s[|s| - 1]);
      ParseDigits(s[..|s| - 1]) * 10 + (s[|s| - 1] as int - '0' as int)
  }

  /** Reading the digits back gives the number. */
  lemma {:induction false} ParseNatString(n: nat)
    ensures ParseDigits(NatString(n)) == n
    decreases n
  {
    if n >= 10 {
      var s := NatString(n);
      assert s[..|s| - 1] == NatString(n / 10);
      ParseNatString(n / 10);
    }
  }

  /** twoDigitString: a leading "0" for every value strictly between -10 and 10. */
  function TwoDigitString(value: int16): string
  {
    if value < 10 && value > -10 then "0" + DecimalString(value) else DecimalString(value)
  }

  /** Values 0..99 show as exactly two digits that read back as the value. */
  lemma TwoDigitStringRoundTrip(value: int16)
    requires 0 <= value <= 99
    ensures var s := TwoDigitString(value);
      |s| == 2 && IsDigit(s[0]) && IsDigit(s[1]) && ParseDigits(s) == value
  {
    var s := TwoDigitString(value);
    if value >= 10 {
      assert NatString(value / 10) == [DigitChar(value / 10)];
    }
    assert s[..1][..0] == [];
    ParseNatString(value);
    if value >= 10 {
      assert s == NatString(value);
    } else {
      assert s[..1] == "0";
      assert ParseDigits(s[..1]) == 0;
    }
  }

  /** A small negative value gets the "0" in front of its minus sign. */
  lemma TwoDigitStringNegative()
    ensures TwoDigitString(-5) == "0-5"
  {
  }

  /** timeString(hour, minute). */
  function HourMinuteString(hour: uint16, minute: uint16): string
  {
    TwoDigitString(ToI16(hour)) + ":" + TwoDigitString(ToI16(minute))
  }

  /** timeString(minutesSinceMidnight): the argument reaches hours()/minutes() as a 16-bit
      int. */
  function TimeString(minutesSinceMidnight: uint16): string
  {
    var m := ToI16(minutesSinceMidnight);
    HourMinuteString(Rtc.Hours(m), Rtc.Minutes(m))
  }

  /** A time string of the day reads back as the minute it shows. */
  lemma TimeStringRoundTrip(m: uint16)
    requires m < Rtc.MinutesPerDay
    ensures var s := TimeString(m);
      |s| == 5 && s[2] == ':' && (forall i :: 0 <= i < 5 && i != 2 ==> IsDigit(s[i])) &&
      ParseDigits(s[..2]) * 60 + ParseDigits(s[3..]) == m
  {
    var h, mm := Rtc.Hours(m), Rtc.Minutes(m);
    Rtc.HoursMinutesJoin(m);
    TwoDigitStringRoundTrip(h);
    TwoDigitStringRoundTrip(mm);
    var s := TimeString(m);
    assert s[..2] == TwoDigitString(h);
    assert s[3..] == TwoDigitString(mm);
  }

  /** Without a sunrise or sunset (stored as 65535) the event shows as "00:255". */
  lemma TimeStringWithoutEvent()
    ensures TimeString(0xFFFF) == "00:255"
  {
    assert ToI16(0xFFFF) == -1;
    assert Rtc.Hours(-1) == 0;
    assert Rtc.Minutes(-1) == 255;
    assert TwoDigitString(0) == "00";
    assert NatString(2) == "2";
    assert NatString(25) == "25";
    assert NatString(255) == "255";
    assert TwoDigitString(255) == "255";
  }

  // ---------------------------------------------------------------- timer values

  /** timerTime(type, time, data1, data2): a clock time is split into hours and minutes;
      an offset goes to data1 and data2 is left as it was. */
  function SplitTimerTime(switchType: int16, time: int16, data2: int16): (int16, int16)
  {
    if switchType != Time then (time, data2) else (Rtc.Hours(time) as int16, Rtc.Minutes(time) as int16)
  }

  /** timerTime(type, data1, data2): the inverse. */
  function JoinTimerTime(switchType: int16, data1: int16, data2: int16): int16
  {
    if switchType != Time then data1 else ToI16(data1 * Rtc.MinutesPerHour + data2)
  }

  /** Splitting then joining gives back every offset and every clock time of the day. */
  lemma JoinSplitTimerTime(switchType: int16, time: int16, data2: int16)
    requires switchType != Time || 0 <= time < Rtc.MinutesPerDay
    ensures var (d1, d2) := SplitTimerTime(switchType, time, data2);
      JoinTimerTime(switchType, d1, d2) == time && (switchType != Time ==> d2 == data2)
  {
    if switchType == Time {
      Rtc.HoursMinutesJoin(time);
    }
  }

  /** Joining hours and minutes then splitting gives them back. */
  lemma SplitJoinTimerTime(hours: int16, minutes: int16, data2: int16)
    requires 0 <= hours < 24 && 0 <= minutes < 60
    ensures SplitTimerTime(Time, JoinTimerTime(Time, hours, minutes), data2) == (hours, minutes)
  {
  }

  // ---------------------------------------------------------------- the screen-blank rule

  /** The blank test on the default screen: `last` is the minute of the last user event,
      compared with the current minute in the AVR's 16-bit unsigned arithmetic. */
  predicate BlankDue(last: int16, now: uint16, timeout: int16)
  {
    timeout != 0 &&
    ((ToU16(last) < now && ToU16(now - last) >= ToU16(timeout)) ||
     (ToU16(last) > now && ToU16(Rtc.MinutesPerDay - last + now) >= ToU16(timeout)))
  }

  /** The screen blanks exactly when a timeout is set and at least that many minutes,
      counted round the clock, have passed since the last event; never in the same
      minute. */
  lemma BlankDueMeaning(last: int16, now: uint16, timeout: int16)
    requires 0 <= last < Rtc.MinutesPerDay && now < Rtc.MinutesPerDay && 0 <= timeout < 0x100
    ensures BlankDue(last, now, timeout) <==>
      timeout != 0 && last != now && (now - last) % Rtc.MinutesPerDay >= timeout
  {
  }

  // ---------------------------------------------------------------- set-time edits

  /** notMaxValue; the day bound reads the month table, so the month must be 1..12. */
  predicate NotMaxValue(selection: uint8, data: seq<int16>)
    requires |data| == 6 && selection <= 4
    requires selection == 2 ==> 1 <= data[1] <= 12
  {
    if selection == 0 then data[0] < 2070
    else if selection == 1 then data[1] < 12
    else if selection == 2 then data[2] < Rtc.DaysPerMonth(data[1], ToU16(data[0]))
    else if selection == 3 then data[3] < 23
    else data[4] < Rtc.MinutesPerHour - 1
  }

  predicate CanDecreaseTimeField(selection: uint8, data: seq<int16>)
    requires |data| == 6 && selection <= 4
  {
    data[selection] > (if selection < 3 then 1 else 0)
  }

  /** A left or right turn on the set-time screen. */
  function EditSetTime(event: uint8, selection: uint8, data: seq<int16>): (r: seq<int16>)
    requires |data| == 6 && selection <= 4
    requires event == EvRight && selection == 2 ==> 1 <= data[1] <= 12
    ensures |r| == 6 && forall i :: 0 <= i < 6 && i != selection ==> r[i] == data[i]
  {
    if event == EvLeft && CanDecreaseTimeField(selection, data) then data[selection := data[selection] - 1]
    else if event == EvRight && NotMaxValue(selection, data) then data[selection := data[selection] + 1]
    else data
  }

  /** The range of each set-time field: year 1..2070, month 1..12, day 1..days of that
      month, hour 0..23, minute 0..59. */
  predicate TimeFieldInRange(selection: uint8, data: seq<int16>)
    requires |data| == 6 && selection <= 4
  {
    if selection == 0 then 1 <= data[0] <= 2070
    else if selection == 1 then 1 <= data[1] <= 12
    else if selection == 2 then 1 <= data[1] <= 12 && 1 <= data[2] <= Rtc.DaysPerMonth(data[1], ToU16(data[0]))
    else if selection == 3 then 0 <= data[3] <= 23
    else 0 <= data[4] <= 59
  }

  /** Edits keep the selected field in its range and change it by one at most. */
  lemma EditSetTimeInRange(event: uint8, selection: uint8, data: seq<int16>)
    requires |data| == 6 && selection <= 4 && TimeFieldInRange(selection, data)
    ensures TimeFieldInRange(selection, EditSetTime(event, selection, data))
    ensures -1 <= EditSetTime(event, selection, data)[selection] - data[selection] <= 1
  {
  }

  // ---------------------------------------------------------------- set-timer edits

  predicate CanDecreaseTimerField(selection: uint8, data: seq<int16>)
    requires |data| == 6 && selection <= 5
  {
    ((selection == 0 || selection == 3) && data[selection] > 0) ||
    ((selection == 1 || selection == 4) && data[selection - 1] != Time && data[selection] > -59) ||
    ((selection == 1 || selection == 4) && data[selection - 1] == Time && data[selection] > 0) ||
    ((selection == 2 || selection == 5) && data[selection] > 0)
  }

  predicate CanIncreaseTimerField(selection: uint8, data: seq<int16>)
    requires |data| == 6 && selection <= 5
  {
    ((selection == 0 || selection == 3) && data[selection] < 2) ||
    ((selection == 1 || selection == 4) && data[selection - 1] != Time && data[selection] < 59) ||
    ((selection == 1 || selection == 4) && data[selection - 1] == Time && data[selection] < 23) ||
    ((selection == 2 || selection == 5) && data[selection] < 59)
  }

  /** A left or right turn on the set-timer screen. */
  function EditSetTimer(event: uint8, selection: uint8, data: seq<int16>): (r: seq<int16>)
    requires |data| == 6 && selection <= 5
    ensures |r| == 6 && forall i :: 0 <= i < 6 && i != selection ==> r[i] == data[i]
  {
    if event == EvLeft && CanDecreaseTimerField(selection, data) then data[selection := data[selection] - 1]
    else if event == EvRight && CanIncreaseTimerField(selection, data) then data[selection := data[selection] + 1]
    else data
  }

  /** The range of each set-timer field: a type 0..2; an offset -59..59 or a clock hour
      0..23, by the type before it; minutes 0..59. */
  predicate TimerFieldInRange(selection: uint8, data: seq<int16>)
    requires |data| == 6 && selection <= 5
  {
    if selection == 0 || selection == 3 then 0 <= data[selection] <= 2
    else if (selection == 1 || selection == 4) && data[selection - 1] != Time then -59 <= data[selection] <= 59
    else if selection == 1 || selection == 4 then 0 <= data[selection] <= 23
    else 0 <= data[selection] <= 59
  }

  lemma EditSetTimerInRange(event: uint8, selection: uint8, data: seq<int16>)
    requires |data| == 6 && selection <= 5 && TimerFieldInRange(selection, data)
    ensures TimerFieldInRange(selection, EditSetTimer(event, selection, data))
    ensures -1 <= EditSetTimer(event, selection, data)[selection] - data[selection] <= 1
  {
  }

  // ---------------------------------------------------------------- set-timer selection

  /** Fields 0 (on type), 1 (on hour or offset), 3 (off type) and 4 (off hour or offset)
      are always edited; the minute fields 2 and 5 only for a clock time. */
  predicate Relevant(field: int, data: seq<int16>)
    requires |data| == 6
  {
    field == 0 || field == 1 || field == 3 || field == 4 ||
    (field == 2 && data[0] == Time) || (field == 5 && data[3] == Time)
  }

  /** A press on the set-timer screen as written: the skip test for the off minutes reads
      field 2 at selection 4. Returns the new selection and whether to commit. */
  function PressAsWritten(selection: uint8, data: seq<int16>): (uint8, bool)
    requires |data| == 6 && selection <= 5
  {
    if selection < 5 then
      var s := selection + 1;
      if (s == 2 || s == 4) && data[s - 2] != Time then (s + 1, s + 1 >= 5) else (s, false)
    else (selection, true)
  }

  /** At the off type, with on minutes other than 0, a press commits without ever
      offering the off time. */
  lemma PressAsWrittenSkipsOffTime()
    ensures var data: seq<int16> := [Time, 22, 15, Time, 6, 0];
      PressAsWritten(3, data) == (5, true) && Relevant(4, data) && Relevant(5, data)
  {
  }

  /** A press on the set-timer screen, with the skip test at the off minutes (selection 5,
      governed by the off type in field 3). */
  function Press(selection: uint8, data: seq<int16>): (uint8, bool)
    requires |data| == 6 && selection <= 5
  {
    if selection < 5 then
      var s := selection + 1;
      if (s == 2 || s == 5) && data[s - 2] != Time then (s + 1, s + 1 >= 5) else (s, false)
    else (selection, true)
  }

  /** A press moves to the next field that is edited, and commits exactly when none is
      left. */
  lemma PressGoesToNextRelevant(selection: uint8, data: seq<int16>)
    requires |data| == 6 && selection <= 5
    ensures var (s, done) := Press(selection, data);
      (done <==> forall f :: selection < f <= 5 ==> !Relevant(f, data)) &&
      (!done ==> selection < s <= 5 && Relevant(s, data) && forall f :: selection < f < s ==> !Relevant(f, data))
  {
    var (s, done) := Press(selection, data);
    if !done {
      assert Relevant(s, data);
    } else if selection < 5 {
      assert selection == 4 && !Relevant(5, data);
    }
  }

  // ---------------------------------------------------------------- the menu object

  /** What updateMenu reads from the clock, the timer and the EEPROM. */
  datatype Inputs = Inputs(minutesSinceMidnight: uint16, year: uint16, month: uint8, day: uint8,
                           rules: SwitchTimer.Schedule, screenBlankTimeout: uint8)

  /** What updateMenu asks of the clock, the timer and the EEPROM. */
  datatype Effect =
    | ManualSwitch
    | SetDateTime(year: uint16, month: uint8, day: uint8, minutes: uint16)
    | SetWeekTimer(onType: uint8, onTime: int16, offType: uint8, offTime: int16)
    | SetWeekendTimer(onType: uint8, onTime: int16, offType: uint8, offTime: int16)
    | SetScreenBlankTimeout(timeout: uint8)

  /** The set-time fields as the screen opens: the local date and the time split into
      hours and minutes. */
  function SetTimeFields(inputs: Inputs, data: seq<int16>): (r: seq<int16>)
    requires |data| == 6
    ensures |r| == 6
  {
    var m := ToI16(inputs.minutesSinceMidnight);
    data[0 := ToI16(inputs.year)][1 := inputs.month][2 := inputs.day]
        [3 := Rtc.Hours(m) as int16][4 := Rtc.Minutes(m) as int16]
  }

  /** The date and time a commit on the set-time screen asks the clock to set. */
  function SetTimeCommit(data: seq<int16>): Effect
    requires |data| == 6
  {
    SetDateTime(ToU16(data[0]), ToU8(data[1]), ToU8(data[2]), ToU16(data[3] * Rtc.MinutesPerHour + data[4]))
  }

  /** Opening the set-time screen and committing at once sets the clock to what it reads. */
  lemma SetTimeUnedited(inputs: Inputs, data: seq<int16>)
    requires |data| == 6 && inputs.minutesSinceMidnight < Rtc.MinutesPerDay && inputs.year < 0x8000
    ensures SetTimeCommit(SetTimeFields(inputs, data)) ==
      SetDateTime(inputs.year, inputs.month, inputs.day, inputs.minutesSinceMidnight)
  {
    Rtc.HoursMinutesJoin(inputs.minutesSinceMidnight);
  }

  /** The rule pair the set-timer screen edits. */
  function EditedRules(menuOption: uint8, rules: SwitchTimer.Schedule): (SwitchTimer.SwitchAction, SwitchTimer.SwitchAction)
  {
    if menuOption == MenuOptionWeekTimer then (rules.weekDayOn, rules.weekDayOff)
    else (rules.weekendOn, rules.weekendOff)
  }

  /** The set-timer fields as the screen opens. */
  function SetTimerFields(on: SwitchTimer.SwitchAction, off: SwitchTimer.SwitchAction, data: seq<int16>): (r: seq<int16>)
    requires |data| == 6
    ensures |r| == 6
  {
    var (d1, d2) := SplitTimerTime(on.switchType as int16, on.time, data[2]);
    var (d4, d5) := SplitTimerTime(off.switchType as int16, off.time, data[5]);
    data[0 := on.switchType as int16][1 := d1][2 := d2][3 := off.switchType as int16][4 := d4][5 := d5]
  }

  /** The rule a commit on the set-timer screen asks the timer to store. */
  function SetTimerCommit(menuOption: uint8, data: seq<int16>): Effect
    requires |data| == 6
  {
    var onType, offType := ToU8(data[0]), ToU8(data[3]);
    var onTime, offTime := JoinTimerTime(data[0], data[1], data[2]), JoinTimerTime(data[3], data[4], data[5]);
    if menuOption == MenuOptionWeekTimer then SetWeekTimer(onType, onTime, offType, offTime)
    else SetWeekendTimer(onType, onTime, offType, offTime)
  }

  /** Opening the set-timer screen and committing at once stores the rule unchanged,
      for offsets and for clock times of the day. */
  lemma {:induction false} SetTimerUnedited(menuOption: uint8, on: SwitchTimer.SwitchAction, off: SwitchTimer.SwitchAction, data: seq<int16>)
    requires |data| == 6
    requires on.switchType <= 2 && (on.switchType == 0 ==> 0 <= on.time < Rtc.MinutesPerDay)
    requires off.switchType <= 2 && (off.switchType == 0 ==> 0 <= off.time < Rtc.MinutesPerDay)
    ensures var commit := SetTimerCommit(menuOption, SetTimerFields(on, off, data));
      commit.onType == on.switchType && commit.onTime == on.time &&
      commit.offType == off.switchType && commit.offTime == off.time
  {
    JoinSplitTimerTime(on.switchType as int16, on.time, data[2]);
    JoinSplitTimerTime(off.switchType as int16, off.time, data[5]);
  }

  // ---------------------------------------------------------------- updateMenu on values

  /** The fields of an OledControl that updateMenu reads and writes. */
  datatype MenuState = MenuState(currentScreen: uint8, event: uint8, menuOption: uint8,
                                 data: seq<int16>, selection: uint8)

  /** A state after a pass, the screen the pass switches to (NoneScreen for none) and the
      calls it makes. */
  datatype Outcome = Outcome(state: MenuState, newScreen: uint8, effects: seq<Effect>)

  predicate Shown(st: MenuState)
  {
    |st.data| == 6 && BlankScreen <= st.currentScreen <= SetOptions
  }

  /** The selection is a field of the screen being edited. */
  predicate ValidState(st: MenuState)
  {
    Shown(st) &&
    (st.currentScreen == SetTimeScreen ==> st.selection <= 4) &&
    (st.currentScreen == SetTimerScreen ==> st.selection <= 5)
  }

  /** What the next pass may read: a right turn on the day field reads the month table. */
  predicate ReadyState(st: MenuState)
  {
    ValidState(st) &&
    (st.currentScreen == SetTimeScreen && st.event == EvRight && st.selection == 2 ==> 1 <= st.data[1] <= 12)
  }

  /** The DEFAULT_SCREEN case. */
  function DefaultAfter(st: MenuState, forceUpdate: bool, inputs: Inputs): Outcome
    requires |st.data| == 6
  {
    var now := inputs.minutesSinceMidnight;
    var data := if forceUpdate then st.data[0 := ToI16(now)][1 := inputs.screenBlankTimeout as int16] else st.data;
    if st.event == EvNone then
      Outcome(st.(data := data), if BlankDue(data[0], now, data[1]) then BlankScreen else NoneScreen, [])
    else if st.event == EvLongPress then Outcome(st.(data := data), MenuScreen, [])
    else Outcome(st.(data := data[0 := ToI16(now)]), NoneScreen, if st.event == EvPress then [ManualSwitch] else [])
  }

  /** The MENU_SCREEN case: entering it clears the selection and the event. */
  function MenuScreenAfter(st: MenuState, forceUpdate: bool): Outcome
  {
    var event := if forceUpdate then EvNone else st.event;
    var s := if forceUpdate then 0 else st.selection;
    var st1 := st.(event := event, selection := s);
    if event == EvPress then
      if s == 0 then Outcome(st1, DefaultScreen, [])
      else if s == 1 then Outcome(st1, SetTimeScreen, [])
      else if s == 2 then Outcome(st1.(menuOption := MenuOptionWeekTimer), SetTimerScreen, [])
      else if s == 3 then Outcome(st1.(menuOption := MenuOptionWeekendTimer), SetTimerScreen, [])
      else if s == 4 then Outcome(st1, SetOptions, [])
      else Outcome(st1, NoneScreen, [])
    else if event == EvLeft && s > 0 then Outcome(st1.(selection := s - 1), NoneScreen, [])
    else if event == EvRight && s < 4 then Outcome(st1.(selection := s + 1), NoneScreen, [])
    else Outcome(st1, NoneScreen, [])
  }

  /** The SET_TIME case: entering it loads the local date and time into the fields. */
  function SetTimeAfter(st: MenuState, forceUpdate: bool, inputs: Inputs): Outcome
    requires |st.data| == 6 && (!forceUpdate ==> st.selection <= 4)
    requires !forceUpdate && st.event == EvRight && st.selection == 2 ==> 1 <= st.data[1] <= 12
  {
    var s := if forceUpdate then 0 else st.selection;
    var data := if forceUpdate then SetTimeFields(inputs, st.data) else st.data;
    var st1 := st.(selection := s, data := data);
    if st.event == EvPress then
      if s < 4 then Outcome(st1.(selection := s + 1), NoneScreen, [])
      else Outcome(st1, MenuScreen, [SetTimeCommit(data)])
    else Outcome(st1.(data := EditSetTime(st.event, s, data)), NoneScreen, [])
  }

  /** The SET_TIMER case: entering it loads the edited program into the fields. */
  function SetTimerAfter(st: MenuState, forceUpdate: bool, inputs: Inputs): Outcome
    requires |st.data| == 6 && (!forceUpdate ==> st.selection <= 5)
  {
    var s := if forceUpdate then 0 else st.selection;
    var (on, off) := EditedRules(st.menuOption, inputs.rules);
    var data := if forceUpdate then SetTimerFields(on, off, st.data) else st.data;
    var st1 := st.(selection := s, data := data);
    if st.event == EvPress then
      var (next, done) := Press(s, data);
      if done then Outcome(st1.(selection := next), MenuScreen, [SetTimerCommit(st.menuOption, data)])
      else Outcome(st1.(selection := next), NoneScreen, [])
    else Outcome(st1.(data := EditSetTimer(st.event, s, data)), NoneScreen, [])
  }

  /** The SET_OPTIONS case: entering it loads the stored timeout into the selection. */
  function OptionsAfter(st: MenuState, forceUpdate: bool, inputs: Inputs): Outcome
  {
    var s := if forceUpdate then inputs.screenBlankTimeout else st.selection;
    var st1 := st.(selection := s);
    if st.event == EvPress then Outcome(st1, MenuScreen, [SetScreenBlankTimeout(s)])
    else if st.event == EvLeft && s > 0 then Outcome(st1.(selection := s - 1), NoneScreen, [])
    else if st.event == EvRight && s < 30 then Outcome(st1.(selection := s + 1), NoneScreen, [])
    else Outcome(st1, NoneScreen, [])
  }

  /** One pass of updateMenu: a long press leaves every screen but the default one, a
      blank screen wakes on any event, and otherwise the current screen's case runs. */
  function DispatchAfter(st: MenuState, forceUpdate: bool, inputs: Inputs): (o: Outcome)
    requires Shown(st) && (forceUpdate || ReadyState(st))
    ensures |o.state.data| == 6 && o.state.currentScreen == st.currentScreen
    ensures o.newScreen == NoneScreen || BlankScreen <= o.newScreen <= SetOptions
  {
    if st.currentScreen != DefaultScreen && st.event == EvLongPress then Outcome(st, DefaultScreen, [])
    else if st.currentScreen == BlankScreen then
      Outcome(st, if st.event != EvNone then DefaultScreen else NoneScreen, [])
    else if st.currentScreen == DefaultScreen then DefaultAfter(st, forceUpdate, inputs)
    else if st.currentScreen == MenuScreen then MenuScreenAfter(st, forceUpdate)
    else if st.currentScreen == SetTimeScreen then SetTimeAfter(st, forceUpdate, inputs)
    else if st.currentScreen == SetTimerScreen then SetTimerAfter(st, forceUpdate, inputs)
    else OptionsAfter(st, forceUpdate, inputs)
  }

  /** updateMenu: one pass, the event consumed, and on a screen change the pass that
      enters the new screen with forceUpdate set. */
  function UpdateMenuAfter(st: MenuState, forceUpdate: bool, inputs: Inputs): Outcome
    requires Shown(st) && (forceUpdate || ReadyState(st))
  {
    var o := DispatchAfter(st, forceUpdate, inputs);
    var st1 := o.state.(event := EvNone);
    if o.newScreen == NoneScreen then Outcome(st1, NoneScreen, o.effects)
    else
      var entry := DispatchAfter(st1.(currentScreen := o.newScreen), true, inputs);
      Outcome(entry.state.(event := EvNone), o.newScreen, o.effects + entry.effects)
  }

  /** Entering a screen (forceUpdate, no event) never switches the screen again and makes
      no call, so the C recursion stops after one level. */
  lemma EntryPassIsQuiet(st: MenuState, inputs: Inputs)
    requires Shown(st) && st.event == EvNone
    ensures var o := DispatchAfter(st, true, inputs);
      o.newScreen == NoneScreen && o.effects == [] && ValidState(o.state)
  {
    if st.currentScreen == DefaultScreen {
      var now := inputs.minutesSinceMidnight;
      var data := st.data[0 := ToI16(now)][1 := inputs.screenBlankTimeout as int16];
      assert ToU16(data[0]) == now;
    }
  }

  /** The blank rule of the default screen, and which events restart its timeout. Its two
      fields only ever hold a minute of the day and the stored timeout byte. */
  lemma DefaultScreenRules(st: MenuState, forceUpdate: bool, inputs: Inputs)
    requires |st.data| == 6 && inputs.minutesSinceMidnight < Rtc.MinutesPerDay
    requires !forceUpdate ==> 0 <= st.data[0] < Rtc.MinutesPerDay && 0 <= st.data[1] < 0x100
    ensures var o := DefaultAfter(st, forceUpdate, inputs);
      var now := inputs.minutesSinceMidnight;
      var last := if forceUpdate then ToI16(now) else st.data[0];
      var timeout := if forceUpdate then inputs.screenBlankTimeout as int16 else st.data[1];
      (o.newScreen == BlankScreen <==>
         (st.event == EvNone && timeout != 0 && last != now && (now - last) % Rtc.MinutesPerDay >= timeout)) &&
      (o.newScreen == MenuScreen <==> st.event == EvLongPress) &&
      (o.effects == [ManualSwitch] <==> st.event == EvPress) && |o.effects| <= 1 &&
      o.state.data[1] == timeout &&
      o.state.data[0] == (if st.event == EvNone || st.event == EvLongPress then last else ToI16(now))
  {
    var now := inputs.minutesSinceMidnight;
    var last := if forceUpdate then ToI16(now) else st.data[0];
    var timeout := if forceUpdate then inputs.screenBlankTimeout as int16 else st.data[1];
    BlankDueMeaning(last, now, timeout);
  }

  /** After updateMenu the event is consumed, the selection fits the screen, at most one
      call is made, every call but the manual switch ends on the menu screen, and a long
      press away from the default screen returns to it. */
  lemma UpdateMenuKeepsValid(st: MenuState, forceUpdate: bool, inputs: Inputs)
    requires Shown(st) && (forceUpdate || ReadyState(st))
    ensures var r := UpdateMenuAfter(st, forceUpdate, inputs);
      ValidState(r.state) && r.state.event == EvNone && |r.effects| <= 1 &&
      (r.effects != [] && !r.effects[0].ManualSwitch? ==> r.state.currentScreen == MenuScreen) &&
      (st.currentScreen != DefaultScreen && st.event == EvLongPress ==> r.state.currentScreen == DefaultScreen)
  {
    var o := DispatchAfter(st, forceUpdate, inputs);
    var st1 := o.state.(event := EvNone);
    if o.newScreen == NoneScreen {
      if st.currentScreen == SetTimerScreen && st.event == EvPress {
        PressGoesToNextRelevant(if forceUpdate then 0 else st.selection, o.state.data);
      }
    } else {
      EntryPassIsQuiet(st1.(currentScreen := o.newScreen), inputs);
    }
  }

  /** A press on the menu opens the selected entry with its fields loaded: the default
      screen with the clock and the stored timeout, the set-time screen with the local date
      and time, the set-timer screen with the weekday or weekend program, the options
      screen with the stored timeout. */
  lemma MenuPressOpensEntry(st: MenuState, inputs: Inputs)
    requires ReadyState(st) && st.currentScreen == MenuScreen && st.event == EvPress && st.selection <= 4
    ensures var r := UpdateMenuAfter(st, false, inputs);
      var option := if st.selection == 2 then MenuOptionWeekTimer
                    else if st.selection == 3 then MenuOptionWeekendTimer else st.menuOption;
      var (on, off) := EditedRules(option, inputs.rules);
      r.effects == [] && r.state.event == EvNone && r.state.menuOption == option &&
      r.state.currentScreen == [DefaultScreen, SetTimeScreen, SetTimerScreen, SetTimerScreen, SetOptions][st.selection] &&
      (st.selection == 0 ==> r.state.data == st.data[0 := ToI16(inputs.minutesSinceMidnight)][1 := inputs.screenBlankTimeout as int16]) &&
      (st.selection == 1 ==> r.state.selection == 0 && r.state.data == SetTimeFields(inputs, st.data)) &&
      (st.selection in {2, 3} ==> r.state.selection == 0 && r.state.data == SetTimerFields(on, off, st.data)) &&
      (st.selection == 4 ==> r.state.selection == inputs.screenBlankTimeout)
  {
    var o := DispatchAfter(st, false, inputs);
    EntryPassIsQuiet(o.state.(event := EvNone).(currentScreen := o.newScreen), inputs);
  }

  /** A press on the last field of the set-time screen asks the clock to take the date
      and time shown and goes back to the menu, whose first entry is selected. */
  lemma SetTimeCommitReturnsToMenu(st: MenuState, inputs: Inputs)
    requires ReadyState(st) && st.currentScreen == SetTimeScreen && st.event == EvPress && st.selection == 4
    ensures var r := UpdateMenuAfter(st, false, inputs);
      r.effects == [SetTimeCommit(st.data)] && r.state.currentScreen == MenuScreen &&
      r.state.selection == 0 && r.state.data == st.data
  {
  }

  /** A long press anywhere but the default screen goes back to it with the blank timeout
      restarted from the clock and reloaded from the EEPROM, and makes no call. */
  lemma LongPressGoesHome(st: MenuState, inputs: Inputs)
    requires ReadyState(st) && st.currentScreen != DefaultScreen && st.event == EvLongPress
    ensures var r := UpdateMenuAfter(st, false, inputs);
      r.effects == [] && r.state.currentScreen == DefaultScreen &&
      r.state.data == st.data[0 := ToI16(inputs.minutesSinceMidnight)][1 := inputs.screenBlankTimeout as int16]
  {
    var o := DispatchAfter(st, false, inputs);
    EntryPassIsQuiet(o.state.(event := EvNone).(currentScreen := o.newScreen), inputs);
  }

  /** The blank screen wakes to the default screen on any event, with the timeout
      restarted, and stays blank otherwise. */
  lemma BlankScreenWakes(st: MenuState, inputs: Inputs)
    requires ReadyState(st) && st.currentScreen == BlankScreen
    ensures var r := UpdateMenuAfter(st, false, inputs);
      r.effects == [] &&
      (st.event == EvNone ==> r.state == st) &&
      (st.event != EvNone ==>
         (r.state.currentScreen == DefaultScreen &&
          r.state.data == st.data[0 := ToI16(inputs.minutesSinceMidnight)][1 := inputs.screenBlankTimeout as int16]))
  {
    var o := DispatchAfter(st, false, inputs);
    if o.newScreen != NoneScreen {
      EntryPassIsQuiet(o.state.(event := EvNone).(currentScreen := o.newScreen), inputs);
    }
  }

  /** A turn on an edit screen changes only the selected field, by the screen's edit rule,
      and stays on the screen. */
  lemma TurnEditsField(st: MenuState, inputs: Inputs)
    requires ReadyState(st) && (st.event == EvLeft || st.event == EvRight)
    requires st.currentScreen == SetTimeScreen || st.currentScreen == SetTimerScreen
    ensures var r := UpdateMenuAfter(st, false, inputs);
      r.effects == [] &&
      r.state == st.(event := EvNone, data := if st.currentScreen == SetTimeScreen
                                               then EditSetTime(st.event, st.selection, st.data)
                                               else EditSetTimer(st.event, st.selection, st.data))
  {
  }

  /** A press on the set-timer screen moves to the next field that applies (Press); when
      none is left it stores the program shown and returns to the menu. */
  lemma SetTimerPressFollowsPress(st: MenuState, inputs: Inputs)
    requires ReadyState(st) && st.currentScreen == SetTimerScreen && st.event == EvPress
    ensures var r := UpdateMenuAfter(st, false, inputs);
      var (next, done) := Press(st.selection, st.data);
      (done ==> r.effects == [SetTimerCommit(st.menuOption, st.data)] &&
                r.state.currentScreen == MenuScreen && r.state.selection == 0 && r.state.data == st.data) &&
      (!done ==> r.effects == [] && r.state == st.(event := EvNone, selection := next))
  {
  }

  /** The options screen: a press stores the timeout shown and returns to the menu; a turn
      moves the timeout by one minute within 0..30. */
  lemma OptionsRules(st: MenuState, inputs: Inputs)
    requires ReadyState(st) && st.currentScreen == SetOptions && st.event != EvLongPress
    ensures var r := UpdateMenuAfter(st, false, inputs);
      (st.event == EvPress ==> r.effects == [SetScreenBlankTimeout(st.selection)] &&
                               r.state.currentScreen == MenuScreen && r.state.selection == 0) &&
      (st.event != EvPress ==> r.effects == [] && r.state.currentScreen == SetOptions &&
                               (st.selection <= 30 ==> r.state.selection <= 30) &&
                               -1 <= r.state.selection - st.selection <= 1) &&
      (st.event == EvLeft ==> r.state.selection == if st.selection == 0 then 0 else st.selection - 1)
  {
  }

  class OledControl {
    var currentScreen: uint8
    var event: uint8
    var menuOption: uint8
    const menuData: array<int16>
    var selection: uint8

    function State(): MenuState
      reads this, menuData
    {
      MenuState(currentScreen, event, menuOption, menuData[..], selection)
    }

    ghost predicate Valid()
      reads this, menuData
    {
      menuData.Length == 6 && ValidState(State())
    }

    /** What the next updateMenu may read (see ReadyState). */
    ghost predicate Ready()
      reads this, menuData
    {
      menuData.Length == 6 && ReadyState(State())
    }

    /** The object has static storage (zeroed); the constructor opens the default screen. */
    constructor ()
      ensures Valid() && fresh(menuData)
      ensures State() == MenuState(DefaultScreen, EvNone, 0, [0, 0, 0, 0, 0, 0], 0)
    {
      currentScreen := DefaultScreen;
      event := EvNone;
      menuOption := 0;
      selection := 0;
      menuData := new int16[6](_ => 0);
    }

    /** userEvent: remember the encoder event for the next updateMenu. */
    method UserEvent(e: uint8)
      modifies this`event
      ensures State() == old(State()).(event := e)
    {
      event := e;
    }

    /** updateMenu: handle the event on the current screen; when that changes the screen,
        enter the new one with forceUpdate set. The C function does so by calling itself;
        the entry pass has no event, so it never changes the screen again (EntryPassIsQuiet),
        and the model runs it once. */
    method UpdateMenu(forceUpdate: bool, inputs: Inputs) returns (effects: seq<Effect>)
      requires menuData.Length == 6 && Shown(State()) && (forceUpdate || Ready())
      modifies this, menuData
      ensures var r := UpdateMenuAfter(old(State()), forceUpdate, inputs);
        State() == r.state && effects == r.effects
      ensures Valid()
    {
      ghost var st := State();
      var newScreen;
      newScreen, effects := Dispatch(forceUpdate, inputs);
      event := EvNone;
      if newScreen != NoneScreen {
        currentScreen := newScreen;
        var again, more := Dispatch(true, inputs);
        EntryPassIsQuiet(DispatchAfter(st, forceUpdate, inputs).state.(event := EvNone).(currentScreen := newScreen), inputs);
        assert again == NoneScreen && more == [];
        effects := effects + more;
        event := EvNone;
      }
      UpdateMenuKeepsValid(st, forceUpdate, inputs);
    }

    /** One pass of updateMenu without the re-entry. */
    method Dispatch(forceUpdate: bool, inputs: Inputs) returns (newScreen: uint8, effects: seq<Effect>)
      requires menuData.Length == 6 && Shown(State()) && (forceUpdate || Ready())
      modifies this, menuData
      ensures Outcome(State(), newScreen, effects) == DispatchAfter(old(State()), forceUpdate, inputs)
    {
      if currentScreen != DefaultScreen && event == EvLongPress {
        newScreen, effects := DefaultScreen, [];
      } else if currentScreen == BlankScreen {
        newScreen := if event != EvNone then DefaultScreen else NoneScreen;
        effects := [];
      } else if currentScreen == DefaultScreen {
        newScreen, effects := DefaultStep(forceUpdate, inputs);
      } else if currentScreen == MenuScreen {
        newScreen := MenuStep(forceUpdate);
        effects := [];
      } else if currentScreen == SetTimeScreen {
        newScreen, effects := SetTimeStep(forceUpdate, inputs);
      } else if currentScreen == SetTimerScreen {
        newScreen, effects := SetTimerStep(forceUpdate, inputs);
      } else {
        newScreen, effects := OptionsStep(forceUpdate, inputs);
      }
    }

    /** The default screen: blank after the timeout, open the menu on a long press, toggle
        the manual override on a press; any other event restarts the timeout. */
    method DefaultStep(forceUpdate: bool, inputs: Inputs) returns (newScreen: uint8, effects: seq<Effect>)
      requires menuData.Length == 6
      modifies menuData
      ensures Outcome(State(), newScreen, effects) == DefaultAfter(old(State()), forceUpdate, inputs)
    {
      var now := inputs.minutesSinceMidnight;
      if forceUpdate {
        menuData[0] := ToI16(now);
        menuData[1] := inputs.screenBlankTimeout as int16;
      }
      newScreen, effects := NoneScreen, [];
      if event == EvNone {
        if BlankDue(menuData[0], now, menuData[1]) {
          newScreen := BlankScreen;
        }
      } else if event == EvLongPress {
        newScreen := MenuScreen;
      } else if event == EvPress {
        effects := [ManualSwitch];
        menuData[0] := ToI16(now);
      } else {
        menuData[0] := ToI16(now);
      }
    }

    /** The menu: five entries, a press opens the selected one. */
    method MenuStep(forceUpdate: bool) returns (newScreen: uint8)
      modifies this`selection, this`event, this`menuOption
      ensures Outcome(State(), newScreen, []) == MenuScreenAfter(old(State()), forceUpdate)
    {
      if forceUpdate {
        selection := 0;
        event := EvNone;
      }
      newScreen := NoneScreen;
      if event == EvPress {
        if selection == 0 {
          newScreen := DefaultScreen;
        } else if selection == 1 {
          newScreen := SetTimeScreen;
        } else if selection == 2 {
          menuOption := MenuOptionWeekTimer;
          newScreen := SetTimerScreen;
        } else if selection == 3 {
          menuOption := MenuOptionWeekendTimer;
          newScreen := SetTimerScreen;
        } else if selection == 4 {
          newScreen := SetOptions;
        }
      } else if event == EvLeft && selection > 0 {
        selection := selection - 1;
      } else if event == EvRight && selection < 4 {
        selection := selection + 1;
      }
    }

    /** The set-time screen: year, month, day, hour, minute in turn; a press after the
        minute sets the clock and returns to the menu. */
    method SetTimeStep(forceUpdate: bool, inputs: Inputs) returns (newScreen: uint8, effects: seq<Effect>)
      requires menuData.Length == 6
      requires !forceUpdate ==> selection <= 4
      requires !forceUpdate && event == EvRight && selection == 2 ==> 1 <= menuData[1] <= 12
      modifies this`selection, menuData
      ensures Outcome(State(), newScreen, effects) == SetTimeAfter(old(State()), forceUpdate, inputs)
    {
      if forceUpdate {
        selection := 0;
        var m := ToI16(inputs.minutesSinceMidnight);
        menuData[0] := ToI16(inputs.year);
        menuData[1] := inputs.month;
        menuData[2] := inputs.day;
        menuData[3] := Rtc.Hours(m) as int16;
        menuData[4] := Rtc.Minutes(m) as int16;
        assert menuData[..] == SetTimeFields(inputs, old(menuData[..]));
      }
      newScreen, effects := NoneScreen, [];
      if event == EvPress {
        if selection < 4 {
          selection := selection + 1;
        } else {
          effects := [SetTimeCommit(menuData[..])];
          newScreen := MenuScreen;
        }
      } else if event == EvLeft && CanDecreaseTimeField(selection, menuData[..]) {
        menuData[selection] := menuData[selection] - 1;
      } else if event == EvRight && NotMaxValue(selection, menuData[..]) {
        menuData[selection] := menuData[selection] + 1;
      }
    }

    /** The set-timer screen: on type, on time, off type, off time; a press after the last
        field that applies stores the rule and returns to the menu. The skip test is the
        corrected one (Press). */
    method SetTimerStep(forceUpdate: bool, inputs: Inputs) returns (newScreen: uint8, effects: seq<Effect>)
      requires menuData.Length == 6
      requires !forceUpdate ==> selection <= 5
      modifies this`selection, menuData
      ensures Outcome(State(), newScreen, effects) == SetTimerAfter(old(State()), forceUpdate, inputs)
    {
      if forceUpdate {
        selection := 0;
        var (on, off) := EditedRules(menuOption, inputs.rules);
        menuData[0] := on.switchType as int16;
        var (d1, d2) := SplitTimerTime(menuData[0], on.time, menuData[2]);
        menuData[1], menuData[2] := d1, d2;
        menuData[3] := off.switchType as int16;
        var (d4, d5) := SplitTimerTime(menuData[3], off.time, menuData[5]);
        menuData[4], menuData[5] := d4, d5;
        assert menuData[..] == SetTimerFields(on, off, old(menuData[..]));
      }
      newScreen, effects := NoneScreen, [];
      if event == EvPress {
        var done := false;
        if selection < 5 {
          selection := selection + 1;
          if (selection == 2 || selection == 5) && menuData[selection - 2] != Time {
            selection := selection + 1;
            done := selection >= 5;
          }
        } else {
          done := true;
        }
        if done {
          effects := [SetTimerCommit(menuOption, menuData[..])];
          newScreen := MenuScreen;
        }
      } else if event == EvLeft && CanDecreaseTimerField(selection, menuData[..]) {
        menuData[selection] := menuData[selection] - 1;
      } else if event == EvRight && CanIncreaseTimerField(selection, menuData[..]) {
        menuData[selection] := menuData[selection] + 1;
      }
    }

    /** The options screen: the screen-blank timeout, 0 (never) to 30 minutes. */
    method OptionsStep(forceUpdate: bool, inputs: Inputs) returns (newScreen: uint8, effects: seq<Effect>)
      modifies this`selection
      ensures Outcome(State(), newScreen, effects) == OptionsAfter(old(State()), forceUpdate, inputs)
    {
      if forceUpdate {
        selection := inputs.screenBlankTimeout;
      }
      newScreen, effects := NoneScreen, [];
      if event == EvPress {
        effects := [SetScreenBlankTimeout(selection)];
        newScreen := MenuScreen;
      } else if event == EvLeft && selection > 0 {
        selection := selection - 1;
      } else if event == EvRight && selection < 30 {
        selection := selection + 1;
      }
    }
  }
}
