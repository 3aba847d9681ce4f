# INA3221 telemetry poll loop — a Dafny model

This project models one pass of the telemetry agent's poll loop in `src/main.c`.
The agent runs on a Zephyr board with one or more INA3221 three-channel power
monitors. Each pass does three things:

1. it services the MQTT client once (`app_poll_loop`);
2. it walks the channel table in order;
3. for each channel whose device is ready, it runs the read sequence
   (`ina3221_read_channel`), converts bus voltage and current to milli-units,
   renders a JSON-like record into a 256-byte stack buffer with `snprintk`,
   clamps the published length to 255 and publishes to
   `v1/sensors/ina3221/state` with QoS 1.

The pass is a pure function of the channel table and an environment:

- `Poll.Env` holds the devices' behaviour as outcome functions, the code the
  transport returns for a publish, and the prior contents of the stack buffer.
- The result is a trace of `Poll.Event`s: the service call, the warnings, every
  driver call with its return code, and the publishes.

Modules, leaves first:

- `Wrappers` (`wrappers.dfy`): `Option` and `Result`.
- `CInt` (`c_int.dfy`): the C integer types, C's truncating division
  (`CDiv`), and two's-complement narrowing to `int32_t` (`Wrap32`).
- `Text` (`text.dfy`): C strings as byte sequences.
  - The decimal output of `%u` and `%d`, and a parser that reads it back.
  - What `%s` copies: the bytes before the first NUL.
- `Sensor` (`sensor.dfy`): `struct sensor_value` and a device as a record of
  outcome functions.
  - The read sequence (`ReadChannel`) and its reference plan (`Plan`, `FirstFailure`).
  - The milli-unit conversion.
- `Telemetry` (`telemetry.dfy`): the record the format string renders.
  - `snprintk` into the 256-byte buffer and the length clamp.
  - A reader (`Unrender`) that inverts the rendering.
- `Poll` (`poll.dfy`): the channel table, one loop body (`ChannelStep`), one
  pass (`Cycle`), several passes (`Run`).
  - A reference view (`Expected`) of what each entry publishes.

The driver's selected channel is device state that is shared by every channel
of that device. The loop reads channels strictly one after another, so the
sample fetch and the gets after a successful selection always see the selector
just written. The model builds this in: a device's `fetch` and `get` take the
selector in effect as an argument.

A table entry refers to its device by `Poll.DeviceRef`. Its `id` stands for the
`const struct device *` pointer the table holds (src/main.c:26). The device's
behaviour is looked up by that reference, not by the name the log prints, so
two devices that share a name are still distinct.

## Model

| member | source | states |
|---|---|---|
| CInt.CDiv | src/main.c:51-54 | `val2 / 1000` truncates toward zero: the remainder has the dividend's sign and is smaller than the divisor |
| CInt.CDivOdd | src/main.c:51-54 | C division is symmetric around zero: `(-a)/b == -(a/b)` for every dividend and positive divisor |
| CInt.Wrap32 | src/main.c:136-137 | storing the 64-bit milli value in an `int32_t` keeps it modulo 2^32, and keeps it exactly when it is in range |
| Sensor.ToMilli | src/main.c:136-137 | the 64-bit `val1*1000 + val2/1000` differs from the micro-unit value `val1*10^6 + val2` divided by 1000 by less than one milli-unit, on the side given by the sign of `val2` (toward zero for a normalised reading), and it never overflows 64 bits |
| Sensor.Milli32 | src/main.c:136-137 | the `int32_t` milli reading agrees with the 64-bit value modulo 2^32, and equals it whenever it fits |
| Sensor.MilliExact | src/main.c:51-54 | for a normalised reading of up to about two million units, the stored milli value is exact: the micro-unit value divided by 1000 with C truncation |
| Sensor.FirstFailure | src/main.c:65-79 | the index of the first non-zero code: every earlier call returned 0 |
| Sensor.ReadChannel | src/main.c:56-80 | selector `channel + 1` first; the calls made are the plan up to and including the first non-zero code, and no later call is made; that code is returned; the result is success exactly when all four calls return 0, and then both readings are present |
| Text.NatDigitsRoundTrip | src/main.c:141-143 | the decimal digits printed for a number read back as that number |
| Text.DecimalRoundTrip | src/main.c:141-143 | a `%d` field reads back as the integer printed |
| Text.Unsigned | src/main.c:141-143 | `%u` of a value in the unsigned 32-bit range reads back as that value |
| Text.DecimalLength32 | src/main.c:141-143 | a 32-bit `%d` field is at most 11 bytes |
| Text.NatDigitsLength | src/main.c:141-143 | a number below 10^k prints with at most k digits |
| Text.CStr | src/main.c:141-143 | `%s` copies the tag's bytes up to, not including, its first NUL; the whole tag when it has none |
| Telemetry.RenderRoundTrip | src/main.c:139-143 | the rendered record reads back as the tag, the channel number and the three numeric fields, in order, for every tag without a double quote or NUL |
| Telemetry.Render | src/main.c:140-143 | the text opens with `{"tag":"` followed at once by the tag's bytes up to its first NUL, unescaped, and closes with `}`; the rest is characterised by RenderRoundTrip and RenderLength |
| Telemetry.QuotedTagNotRecovered | src/main.c:141-143 | the tag is not escaped: every record whose tag (up to its first NUL) holds a double quote is unreadable, whatever its channel and readings |
| Telemetry.RenderLength | src/main.c:138-143 | with a channel number up to 256 and 32-bit values the record is at most 92 bytes longer than the tag, so a tag of up to 163 bytes is never truncated |
| Telemetry.Snprintk | src/main.c:139-143 | at most 255 text bytes and a NUL are written, the rest of the buffer is untouched, and the full text length is returned |
| Telemetry.Publishable | src/main.c:144-149 | a negative `snprintk` code publishes nothing; otherwise the length is `min(rc, 255)` and the bytes are a prefix of the buffer |
| Telemetry.TruncationLaw | src/main.c:138-155 | the published bytes are exactly the natural record cut to `min(natural length, 255)` bytes, whatever the buffer held before |
| Poll.RecordOf | src/main.c:136-143 | the record carries the entry's tag, the 1-based channel number 1..256, two 32-bit milli readings, and the current reading again as the temperature; these are the ranges RenderLength needs |
| Poll.Emit | src/main.c:144-155 | a negative code skips the entry silently; otherwise exactly one publish on the INA3221 topic of the buffer's first `min(rc, 255)` bytes, recording the transport's return code |
| Poll.Conclude | src/main.c:129-155 | a failed read ends the entry with a warning carrying device, channel and code; a successful one ends in a publish of the natural record cut to 255 bytes |
| Poll.ReadyStep | src/main.c:126-155 | for a ready device: the driver calls are the read plan up to and including the first non-zero code, and then a warning carrying that code; when all four codes are 0, all four calls and then the outcome for both readings |
| Poll.ChannelStep | src/main.c:119-155 | the entry is exactly one not-ready warning if and only if its device is not ready; otherwise the first event writes selector `channel + 1`; there is never a service call; at most one publish, last, on the INA3221 topic, at most 255 bytes |
| Poll.ChannelStepPublishes | src/main.c:119-155 | an entry publishes exactly its reference payload: only after a ready device and four zero codes, and then the natural record cut to 255 bytes |
| Poll.ChannelStepIgnoresPublishResult | src/main.c:152-155 | the publish return code changes nothing in the entry except the recorded code |
| Poll.Steps | src/main.c:118-156 | the loop over the table yields at least one event per entry, and none only for an empty table; its contents are characterised by StepsPublishes, StepsAppend and StepsSplit |
| Poll.Cycle | src/main.c:115-156 | a pass starts with the transport service and then has at least one event per entry; CycleServicesOnce says the service is the only one |
| Poll.Run | src/main.c:115-159 | n passes yield at least n events, none exactly when n is 0, and a non-empty run starts with a service; RunRepeats characterises the contents |
| Poll.StepsAppend | src/main.c:118-156 | the loop over two tables in sequence is the loop over the first followed by the loop over the second: no entry leaves state for the next |
| Poll.StepsSplit | src/main.c:118-156 | isolation: entry i is processed the same way whatever the entries before it did, and the entries after it still follow |
| Poll.StepsPublishes | src/main.c:118-156 | the pass publishes the entries' reference payloads in table order, at most one per entry |
| Poll.CycleServicesOnce | src/main.c:115-118 | the transport is serviced exactly once per pass, first, even with an empty table; the publishes follow in table order |
| Poll.NotReadySkips | src/main.c:121-124 | a not-ready device yields one warning, no driver call and no publish, and the next entry is processed as usual |
| Poll.StepsIgnorePublishResult | src/main.c:152-155 | over a whole pass, the publish return codes change nothing but the recorded codes |
| Poll.RunRepeats | src/main.c:115-159 | over n passes the transport is serviced n times, and passes with the same readings publish the same payloads again: nothing is suppressed |
| Poll.PublishedRecord | src/main.c:136-143 | end to end, for a ready entry whose four calls return 0 and whose tag is at most 163 bytes with no double quote or NUL: the published record reads back as the tag verbatim, `channel + 1`, the milli voltage, the milli current, and the current again as `temp_c` |

## Left out

- Wi-Fi, DNS and poll-library start-up, waiting for the network, the broker address and the MQTT client set-up (src/main.c:83-113). These are network I/O in libraries that are not part of this model.
- The start-up warnings for an empty table and the channel count (src/main.c:87-90). They run once, before the loop.
- The devicetree macros that build the channel table (src/main.c:32-49). The table is an input sequence of `ChannelMeta`.
- The attribute id `SENSOR_ATTR_PRIV_START + 1` and the channel `SENSOR_CHAN_ALL` of the selection call (src/main.c:23, 62-64). They are the same on every call, so the model records only the value written.
- The internals of `app_poll_loop`, `app_mqtt_publish`, QoS 1 delivery and the `sensor_*` driver calls. These are foreign code: the service call is a trace event, and the driver and publish outcomes are functions in `Env`.
- The out-parameter values after a failed `sensor_channel_get`. The loop never reads them.
- Logging. The not-ready error and the read-failure warning become trace events; the debug print of the buffer (src/main.c:150) is dropped. A negative `snprintk` code is skipped silently (src/main.c:144-146); the `FormatFailed` event only marks that skip.
- `k_sleep` and the endless `while (1)` (src/main.c:115, 158). `Run` covers any finite number of passes; the timing is not modelled.
- Outcomes that change over time within one pass. A device's outcomes are functions of the selector, so two entries with the same device and channel get the same readings in one pass; across passes, `Run` takes one environment per pass.
- A negative `snprintk` return. Rendering this fixed format always succeeds in the model, so that branch is never taken from the loop. `Poll.Emit` and `Telemetry.Publishable` state the branch for any code.

## Notes on the code's behaviour

- The payload has a fifth field, `temp_c`, that repeats the current reading (src/main.c:142-143). The model keeps it (`Poll.RecordOf`, `Poll.PublishedRecord`).
- A not-ready device is logged at error level (src/main.c:122). In the trace it is a `NotReady` event.
- The return code of `app_mqtt_publish` is ignored, and nothing is logged for a failed publish (src/main.c:152-155).
- The published length is at most 255 bytes, and the NUL terminator is never sent (src/main.c:147-155).
- The milli-unit value is computed in 64 bits by Zephyr's `sensor_value_to_milli` and then stored in an `int32_t` (src/main.c:136-137). The model makes that narrowing explicit as two's-complement wrap-around.
- The commented-out helper at src/main.c:51-54 has the same formula in 32-bit arithmetic. There, `val1 * 1000` overflows `int` when `val1` is above 2,147,483 in magnitude; the 64-bit helper does not overflow.
