/**
 * The base station's two DS18B20 thermometers: the table of last readings
 * m_temperature, filled water heater first, and the three-character text the
 * display shows for a reading in whole degrees.
 */
module Ds1820 {
  import opened Common

  /** TempSensor_t: the index of each sensor in m_temperature. */
  const T_WATER_HEATER: nat := 0
  const T_BOILER: nat := 1

  const MINUS: u8 := 45
  const PLUS: u8 := 43
  const ZERO: u8 := 48

  /** Conversion of an `int` to `int16_t`, modulo 2^16 as GCC does. */
  function Int16(x: int): (r: i16)
    ensures -0x8000 <= x < 0x8000 ==> r == x
    ensures (r - x) % 0x1_0000 == 0
  {
    (x + 0x8000) % 0x1_0000 - 0x8000
  }

  /** Conversion of an `int` to `uint16_t`. */
  function Uint16(x: int): (r: u16)
    ensures 0 <= x < 0x1_0000 ==> r == x
    ensures (r - x) % 0x1_0000 == 0
  {
    x % 0x1_0000
  }

  /**
   * The three characters GetTemperatureString writes for `t`: a sign, or
   * the hundreds digit of a non-negative reading of 100 or more (stored in
   * a `char`, so modulo 256), then the tens and units of the magnitude.
   */
  function TemperatureText(t: i16): (s: seq<u8>)
    ensures |s| == 3
    ensures t < 1000 ==> (s[0] == MINUS <==> t < 0)
    ensures t < 1000 ==> (s[0] == PLUS <==> 0 <= t < 100)
    ensures IsDigit(s[1]) && IsDigit(s[2])
  {
    var m: int := if t < 0 then -(t as int) else t;
    var lead := if t < 0 then MINUS else if t / 100 != 0 then (t / 100 + 48) % 0x100 else PLUS;
    [lead, (m / 10) % 10 + 48, m % 10 + 48]
  }

  predicate IsDigit(c: u8)
  {
    ZERO <= c < ZERO + 10
  }

  /** How a reader of the display takes three characters back to a number. */
  function Reading(s: seq<u8>): Option<int>
  {
    if |s| != 3 || !IsDigit(s[1]) || !IsDigit(s[2]) then None
    else
      var low := 10 * (s[1] - ZERO) + (s[2] - ZERO);
      if s[0] == MINUS then Some(-low)
      else if s[0] == PLUS then Some(low)
      else if IsDigit(s[0]) then Some(100 * (s[0] - ZERO) + low)
      else None
  }

  lemma Digits(m: nat)
    ensures 10 * ((m / 10) % 10) + m % 10 == m % 100
    ensures 100 * (m / 100) + m % 100 == m
  {
  }

  /** Every reading from -99 to 999 degrees is shown exactly; distinct readings show distinct texts. */
  lemma TextRoundTrip(t: i16)
    requires -99 <= t <= 999
    ensures Reading(TemperatureText(t)) == Some(t as int)
  {
    var m: nat := if t < 0 then -(t as int) else t;
    LowDigits(t, m);
    if t >= 100 {
      Digits(m);
    }
  }

  /** The tens and units characters of the text of `t` spell the last two digits of its magnitude `m`. */
  lemma LowDigits(t: i16, m: nat)
    requires m == if t < 0 then -(t as int) else t as int
    ensures var s := TemperatureText(t); 10 * (s[1] - ZERO) + (s[2] - ZERO) == m % 100
  {
    Digits(m);
  }

  /** A negative reading below -99 loses its hundreds: -123 is shown as "-23". */
  lemma TextDropsHundreds(t: i16)
    requires t <= -100
    ensures Reading(TemperatureText(t)) == Some(-((-(t as int)) % 100))
  {
    Digits(-(t as int));
  }

  lemma MinusOneTwentyThree()
    ensures TemperatureText(-123) == [MINUS, ZERO + 2, ZERO + 3]
  {
  }

  /**
   * From 1000 degrees on, the hundreds character leaves the digits; the
   * `char` wrap brings it back to a digit from 25600, and to '+' and '-'
   * for 25100..25199 and 25300..25399.
   */
  lemma TextAboveRange(t: i16)
    requires t >= 1000
    ensures Reading(TemperatureText(t)) ==
      if 25600 <= t < 26600 then Some(t - 25600)
      else if 25100 <= t < 25200 then Some(t - 25100)
      else if 25300 <= t < 25400 then Some(-(t - 25300))
      else None
  {
    Digits(t);
    var h := t / 100;
    assert (h + 48) % 0x100 == if h < 208 then h + 48 else if h < 464 then h + 48 - 0x100 else h + 48 - 0x200;
  }

  /** GetTemperatureString: writes characters 0 to 2 of `tempString` and nothing else. */
  method GetTemperatureString(temperature: i16, tempString: array<u8>)
    requires tempString.Length >= 3
    modifies tempString
    ensures tempString[..3] == TemperatureText(temperature)
    ensures tempString[3..] == old(tempString[3..])
  {
    var t: i16 := temperature;
    if t < 0 {
      tempString[0] := MINUS;
      t := Int16(t * -1);
    } else {
      if t / 100 != 0 {
        tempString[0] := (Uint16(t) / 100 + 48) % 0x100;
      } else {
        tempString[0] := PLUS;
      }
    }
    tempString[1] := (Uint16(t) / 10) % 10 + 48;
    tempString[2] := Uint16(t) % 10 + 48;
  }

  /**
   * m_temperature and the sensors behind it. OW_ReadTemperature is not part
   * of this model: its result for a sensor is `reading(sensor, k)`, where k
   * counts the conversions made so far.
   */
  class Thermometers {
    const m_temperature: array<i16>
    /** The sensors converted so far, in order. */
    var conversions: seq<nat>
    const reading: (nat, nat) -> i16

    constructor (reading: (nat, nat) -> i16)
      ensures fresh(m_temperature) && m_temperature.Length == 2
      ensures this.reading == reading && conversions == []
    {
      m_temperature := new i16[2](_ => 0);
      this.reading := reading;
      conversions := [];
    }

    /** MeasureTemperature: stores a fresh reading of one sensor in its slot. */
    method MeasureTemperature(tempSensor: nat)
      requires tempSensor < m_temperature.Length
      modifies this`conversions, m_temperature
      ensures conversions == old(conversions) + [tempSensor]
      ensures m_temperature[..] == old(m_temperature[..])[tempSensor := reading(tempSensor, |old(conversions)|)]
    {
      m_temperature[tempSensor] := reading(tempSensor, |conversions|);
      conversions := conversions + [tempSensor];
    }

    /** MeasureTemperatures: the water heater first, then the boiler. */
    method MeasureTemperatures()
      requires m_temperature.Length == 2
      modifies this`conversions, m_temperature
      ensures conversions == old(conversions) + [T_WATER_HEATER, T_BOILER]
      ensures m_temperature[T_WATER_HEATER] == reading(T_WATER_HEATER, |old(conversions)|)
      ensures m_temperature[T_BOILER] == reading(T_BOILER, |old(conversions)| + 1)
    {
      MeasureTemperature(T_WATER_HEATER);
      MeasureTemperature(T_BOILER);
    }
  }
}
