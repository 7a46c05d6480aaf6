/** The EEPROM persistence layer: the screen-blank timeout and the weekday and
    weekend timer settings at fixed byte addresses, 16-bit times little-endian.
    The EEPROM is an array of bytes updated in place. */
module Persist {
  import opened Ints

  /** EEPROM.length() of the ATmega328P. */
  const EepromSize := 1024

  const ScreenBlankTimeoutAddress := 1
  /** Base address of each timer block: start type at base, start time at base + 1..base + 2,
      stop type at base + 10, stop time at base + 11..base + 12. */
  const WeekTimerBase := 10
  const WeekendTimerBase := 30

  /** The four values of one timer block, as the EEPROM holds them. */
  datatype TimerSetting = TimerSetting(startType: uint8, startTime: int16, stopType: uint8, stopTime: int16)

  /** write16 on a snapshot of the EEPROM: low byte at `a`, high byte at `a + 1`. */
  function Stored16(m: seq<uint8>, a: nat, v: int16): (r: seq<uint8>)
    requires a + 1 < |m|
    ensures |r| == |m|
    ensures r[a] as int + 256 * (r[a + 1] as int) == ToU16(v)
    ensures forall i :: 0 <= i < |m| && i != a && i != a + 1 ==> r[i] == m[i]
  {
    m[a := ToU16(v) % 256][a + 1 := ToU16(v) / 256]
  }

  /** read16: the two's complement reading of the high byte at `a + 1` and the low byte
      at `a`; the top bit of the high byte is the sign. */
  function Load16(m: seq<uint8>, a: nat): (v: int16)
    requires a + 1 < |m|
    ensures v == m[a] as int + 256 * (m[a + 1] as int) || v == m[a] as int + 256 * (m[a + 1] as int) - 0x1_0000
    ensures v < 0 <==> m[a + 1] >= 0x80
  {
    var u := m[a] as int + 256 * (m[a + 1] as int);
    if u < 0x8000 then u else u - 0x1_0000
  }

  /** Every int16 survives a write16 / read16 round trip. */
  lemma {:induction false} Load16Stored16(m: seq<uint8>, a: nat, v: int16)
    requires a + 1 < |m|
    ensures Load16(Stored16(m, a, v), a) == v
  {
    var r := Stored16(m, a, v);
    assert ToU16(Load16(r, a)) == ToU16(v);
    I16U16RoundTrip(v);
    I16U16RoundTrip(Load16(r, a));
  }

  /** The bytes of one timer block. */
  function TimerBytes(base: nat): set<nat>
  {
    {base, base + 1, base + 2, base + 10, base + 11, base + 12}
  }

  /** setWeekTimer / setWeekendTimer on a snapshot: only the block's six bytes change. */
  function StoreTimer(m: seq<uint8>, base: nat, t: TimerSetting): (r: seq<uint8>)
    requires base + 12 < |m|
    ensures |r| == |m|
    ensures forall i :: 0 <= i < |m| && i !in TimerBytes(base) ==> r[i] == m[i]
  {
    var m1 := m[base := t.startType];
    var m2 := Stored16(m1, base + 1, t.startTime);
    var m3 := m2[base + 10 := t.stopType];
    Stored16(m3, base + 11, t.stopTime)
  }

  /** getWeekTimer / getWeekendTimer on a snapshot. */
  function LoadTimer(m: seq<uint8>, base: nat): TimerSetting
    requires base + 12 < |m|
  {
    TimerSetting(m[base], Load16(m, base + 1), m[base + 10], Load16(m, base + 11))
  }

  /** Reading a block back returns exactly the four values stored. */
  lemma {:induction false} LoadStoreTimer(m: seq<uint8>, base: nat, t: TimerSetting)
    requires base + 12 < |m|
    ensures LoadTimer(StoreTimer(m, base, t), base) == t
  {
    var m1 := m[base := t.startType];
    var m2 := Stored16(m1, base + 1, t.startTime);
    var m3 := m2[base + 10 := t.stopType];
    var m4 := Stored16(m3, base + 11, t.stopTime);
    Load16Stored16(m1, base + 1, t.startTime);
    Load16Stored16(m3, base + 11, t.stopTime);
    assert m4[base + 1] == m3[base + 1] == m2[base + 1];
    assert m4[base + 2] == m3[base + 2] == m2[base + 2];
    assert Load16(m4, base + 1) == Load16(m2, base + 1);
  }

  /** The weekday block, the weekend block and the timeout byte do not overlap. */
  lemma LayoutDisjoint()
    ensures TimerBytes(WeekTimerBase) !! TimerBytes(WeekendTimerBase)
    ensures ScreenBlankTimeoutAddress !in TimerBytes(WeekTimerBase) + TimerBytes(WeekendTimerBase)
    ensures WeekendTimerBase + 12 < EepromSize
  {
  }

  /** Storing one block leaves the other block and the timeout readable as before. */
  lemma {:induction false} StoreTimerIndependent(m: seq<uint8>, base: nat, other: nat, t: TimerSetting)
    requires |m| == EepromSize
    requires base in {WeekTimerBase, WeekendTimerBase} && other in {WeekTimerBase, WeekendTimerBase} && base != other
    ensures LoadTimer(StoreTimer(m, base, t), other) == LoadTimer(m, other)
    ensures StoreTimer(m, base, t)[ScreenBlankTimeoutAddress] == m[ScreenBlankTimeoutAddress]
  {
    var r := StoreTimer(m, base, t);
    LayoutDisjoint();
    assert forall i :: i in TimerBytes(other) ==> r[i] == m[i];
    assert r[other + 1] == m[other + 1] && r[other + 2] == m[other + 2];
    assert r[other + 11] == m[other + 11] && r[other + 12] == m[other + 12];
  }

  /** A cleared EEPROM reads as timeout 0 and TIME/0 pairs in both blocks. */
  lemma ClearedReadsZero(m: seq<uint8>, base: nat)
    requires base + 12 < |m| && ScreenBlankTimeoutAddress < |m|
    requires forall i :: 0 <= i < |m| ==> m[i] == 0
    ensures m[ScreenBlankTimeoutAddress] == 0
    ensures LoadTimer(m, base) == TimerSetting(0, 0, 0, 0)
  {
  }

  /** The EEPROM, as the Persist class reaches it through the EEPROM library. */
  class Eeprom {
    const mem: array<uint8>

    ghost predicate Valid()
      reads this
    {
      mem.Length == EepromSize
    }

    /** The EEPROM keeps its contents across power cycles: it starts with whatever it held. */
    constructor (contents: seq<uint8>)
      requires |contents| == EepromSize
      ensures Valid() && fresh(mem) && mem[..] == contents
    {
      mem := new uint8[EepromSize](i requires 0 <= i < EepromSize => contents[i]);
    }

    /** clearmem: zero every byte. */
    method ClearMem()
      requires Valid()
      modifies mem
      ensures forall i :: 0 <= i < mem.Length ==> mem[i] == 0
    {
      var i := 0;
      while i < mem.Length
        invariant 0 <= i <= mem.Length
        invariant forall j :: 0 <= j < i ==> mem[j] == 0
      {
        mem[i] := 0;
        i := i + 1;
      }
    }

    method SetScreenBlankTimeout(timeout: uint8)
      requires Valid()
      modifies mem
      ensures mem[..] == old(mem[..])[ScreenBlankTimeoutAddress := timeout]
    {
      mem[ScreenBlankTimeoutAddress] := timeout;
    }

    method GetScreenBlankTimeout() returns (timeout: uint8)
      requires Valid()
      ensures timeout == mem[ScreenBlankTimeoutAddress]
    {
      timeout := mem[ScreenBlankTimeoutAddress];
    }

    method Write16(a: nat, v: int16)
      requires a + 1 < mem.Length
      modifies mem
      ensures mem[..] == Stored16(old(mem[..]), a, v)
    {
      var u := ToU16(v);
      mem[a] := u % 256;
      mem[a + 1] := u / 256;
    }

    /** The high byte is shifted left by 8 within a 16-bit int, then the low byte added. */
    method Read16(a: nat) returns (v: int16)
      requires a + 1 < mem.Length
      ensures v == Load16(mem[..], a)
    {
      var result: int16 := mem[a + 1];
      result := ToI16((result as int) * 256);
      if mem[a + 1] >= 0x80 {
        assert result == mem[a + 1] as int * 256 - 0x1_0000;
      }
      result := ToI16(result + mem[a]);
      v := result;
    }

    method SetTimer(base: nat, startType: uint8, startTime: int16, stopType: uint8, stopTime: int16)
      requires base + 12 < mem.Length
      modifies mem
      ensures mem[..] == StoreTimer(old(mem[..]), base, TimerSetting(startType, startTime, stopType, stopTime))
    {
      mem[base] := startType;
      Write16(base + 1, startTime);
      mem[base + 10] := stopType;
      Write16(base + 11, stopTime);
    }

    method GetTimer(base: nat) returns (startType: uint8, startTime: int16, stopType: uint8, stopTime: int16)
      requires base + 12 < mem.Length
      ensures TimerSetting(startType, startTime, stopType, stopTime) == LoadTimer(mem[..], base)
    {
      startType := mem[base];
      startTime := Read16(base + 1);
      stopType := mem[base + 10];
      stopTime := Read16(base + 11);
    }

    method SetWeekTimer(startType: uint8, startTime: int16, stopType: uint8, stopTime: int16)
      requires Valid()
      modifies mem
      ensures mem[..] == StoreTimer(old(mem[..]), WeekTimerBase, TimerSetting(startType, startTime, stopType, stopTime))
    {
      SetTimer(WeekTimerBase, startType, startTime, stopType, stopTime);
    }

    method GetWeekTimer() returns (startType: uint8, startTime: int16, stopType: uint8, stopTime: int16)
      requires Valid()
      ensures TimerSetting(startType, startTime, stopType, stopTime) == LoadTimer(mem[..], WeekTimerBase)
    {
      startType, startTime, stopType, stopTime := GetTimer(WeekTimerBase);
    }

    method SetWeekendTimer(startType: uint8, startTime: int16, stopType: uint8, stopTime: int16)
      requires Valid()
      modifies mem
      ensures mem[..] == StoreTimer(old(mem[..]), WeekendTimerBase, TimerSetting(startType, startTime, stopType, stopTime))
    {
      SetTimer(WeekendTimerBase, startType, startTime, stopType, stopTime);
    }

    method GetWeekendTimer() returns (startType: uint8, startTime: int16, stopType: uint8, stopTime: int16)
      requires Valid()
      ensures TimerSetting(startType, startTime, stopType, stopTime) == LoadTimer(mem[..], WeekendTimerBase)
    {
      startType, startTime, stopType, stopTime := GetTimer(WeekendTimerBase);
    }
  }
}
