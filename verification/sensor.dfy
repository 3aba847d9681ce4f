/** The sensor driver interface as the poll loop sees it, the INA3221 channel
    read sequence, and the conversion of fixed-point readings to milli-units. */
module Sensor {
  import opened Wrappers
  import opened CInt

  /** Zephyr's `struct sensor_value`: the value `val1 + val2 / 10^6`. */
  datatype SensorValue = SensorValue(val1: int32, val2: int32)

  /** The two quantities read from the INA3221 after a sample fetch. */
  datatype Quantity = Voltage | Current

  /** What one `sensor_channel_get` call returns: a code and the value it wrote. */
  datatype Sample = Sample(rc: int, value: SensorValue)

  /** One INA3221 device as a record of outcome functions. The driver keeps the
      selected channel as device state; because the poll loop reads channels
      strictly one after another, the sample fetch and the channel gets that
      follow a successful selection see exactly that selector, so `fetch` and
      `get` take the selector in effect as their first argument. */
  datatype Device = Device(
    ready: bool,
    attrSet: SensorValue -> int,
    fetch: int -> int,
    get: (int, Quantity) -> Sample)

  /** One driver call made while reading a channel, with the code it returned. */
  datatype DeviceCall =
    | AttrSet(value: SensorValue, rc: int)
    | Fetch(rc: int)
    | Get(quantity: Quantity, rc: int)

  /** Bus voltage and current, present together or not at all. */
  datatype Reading = Reading(vbus: SensorValue, icur: SensorValue)

  datatype ReadOutcome = ReadOutcome(result: Result<Reading, int>, calls: seq<DeviceCall>)

  /** The value written to the selected-channel attribute: 1-based. */
  function Selector(channel: uint8): (v: SensorValue)
    ensures v.val1 == channel + 1 && v.val2 == 0
  {
    SensorValue(channel + 1, 0)
  }

  /** Every call of the read sequence, in its fixed order, with the code the
      device gives for it: selection, sample fetch, voltage, current. */
  function Plan(dev: Device, channel: uint8): (p: seq<DeviceCall>)
    ensures |p| == 4
    ensures p[0].AttrSet? && p[1].Fetch? && p[2] == Get(Voltage, p[2].rc) && p[3] == Get(Current, p[3].rc)
  {
    var sel := channel + 1;
    [ AttrSet(Selector(channel), dev.attrSet(Selector(channel))),
      Fetch(dev.fetch(sel)),
      Get(Voltage, dev.get(sel, Voltage).rc),
      Get(Current, dev.get(sel, Current).rc) ]
  }

  /** Index of the first call that failed, or the number of calls when none did. */
  function FirstFailure(calls: seq<DeviceCall>): (k: nat)
    ensures k <= |calls|
    ensures forall i :: 0 <= i < k ==> calls[i].rc == 0
    ensures k < |calls| ==> calls[k].rc != 0
  {
    if |calls| == 0 || calls[0].rc != 0 then 0 else 1 + FirstFailure(calls[1..])
  }

  /** `ina3221_read_channel`: select the channel, fetch a sample, read the
      voltage, read the current, stopping at the first non-zero code. The calls
      made are the planned ones up to and including the first failure; the
      result is that failure's code, or both readings when every call returned 0. */
  function ReadChannel(dev: Device, channel: uint8): (o: ReadOutcome)
    ensures var plan := Plan(dev, channel);
            var k := FirstFailure(plan);
            && (k < 4 ==> o.calls == plan[..k + 1] && o.result == Failure(plan[k].rc))
            && (k == 4 ==> o.calls == plan)
            && (o.result.Success? <==> k == 4)
    ensures o.result.Failure? ==> o.result.error != 0
    ensures o.result.Success? ==>
              o.result.value == Reading(dev.get(channel + 1, Voltage).value, dev.get(channel + 1, Current).value)
    ensures 1 <= |o.calls| <= 4 && o.calls[0] == AttrSet(SensorValue(channel + 1, 0), o.calls[0].rc)
  {
    var idx := Selector(channel);
    var ret := dev.attrSet(idx);
    if ret != 0 then
      ReadOutcome(Failure(ret), [AttrSet(idx, ret)])
    else
      var ret := dev.fetch(channel + 1);
      if ret != 0 then
        ReadOutcome(Failure(ret), [AttrSet(idx, 0), Fetch(ret)])
      else
        var vbus := dev.get(channel + 1, Voltage);
        if vbus.rc != 0 then
          ReadOutcome(Failure(vbus.rc), [AttrSet(idx, 0), Fetch(0), Get(Voltage, vbus.rc)])
        else
          var icur := dev.get(channel + 1, Current);
          var calls := [AttrSet(idx, 0), Fetch(0), Get(Voltage, 0), Get(Current, icur.rc)];
          if icur.rc != 0 then ReadOutcome(Failure(icur.rc), calls)
          else ReadOutcome(Success(Reading(vbus.value, icur.value)), calls)
  }

  /** Zephyr's `sensor_value_to_milli`: `val1 * 1000 + val2 / 1000` in 64-bit
      arithmetic with C division. The result differs from the micro-unit value
      divided by 1000 by less than one milli-unit, and the dropped remainder
      has the sign of `val2`: toward zero only for a normalised reading, whose
      `val2` has the sign of `val1`. It never leaves the 64-bit range. */
  function ToMilli(v: SensorValue): (m: int64)
    ensures var micro := v.val1 * 1_000_000 + v.val2;
            && (v.val2 >= 0 ==> 0 <= micro - m * 1000 < 1000)
            && (v.val2 < 0 ==> -1000 < micro - m * 1000 <= 0)
  {
    v.val1 * 1000 + CDiv(v.val2, 1000)
  }

  /** The reading as stored in an `int32_t` local: the 64-bit milli value
      narrowed with two's-complement wrap-around. */
  function Milli32(v: SensorValue): (m: int32)
    ensures (ToMilli(v) - m) % TWO_32 == 0
    ensures INT32_MIN <= ToMilli(v) <= INT32_MAX ==> m == ToMilli(v)
  {
    Wrap32(ToMilli(v))
  }

  /** For a normalised reading (fraction below one unit, with the sign of the
      integer part) whose integer part stays within about two million units, the
      narrowing loses nothing and the result is the value in micro-units divided
      by 1000 with C truncation. */
  lemma MilliExact(v: SensorValue)
    requires -2_147_482 <= v.val1 <= 2_147_482
    requires -1_000_000 < v.val2 < 1_000_000
    requires (v.val1 >= 0 && v.val2 >= 0) || (v.val1 <= 0 && v.val2 <= 0)
    ensures Milli32(v) == ToMilli(v)
    ensures Milli32(v) == CDiv(v.val1 * 1_000_000 + v.val2, 1000)
  {
  }
}
