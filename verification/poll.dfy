/** One pass of the INA3221 poll loop: service the transport, then read,
    render and publish every channel of the table in order, isolating each
    channel's failures. The device, the transport and the stack buffer's prior
    contents are inputs; the pass produces a trace of what it did. */
module Poll {
  import opened Wrappers
  import opened CInt
  import opened Text
  import opened Sensor
  import opened Telemetry

  /** A device as the table refers to it. The `id` stands for the
      `const struct device *` the table holds and is what identifies the
      device; the name is only what the log prints, and two devices may share
      it (two INA3221s at the same address on different buses, say). */
  datatype DeviceRef = DeviceRef(id: nat, name: CString)

  /** `struct ina3221_channel_meta`: device, 0-based channel, display tag. */
  datatype ChannelMeta = ChannelMeta(dev: DeviceRef, channel: uint8, tag: CString)

  datatype QoS = AtMostOnce | AtLeastOnce | ExactlyOnce

  datatype Topic = Topic(name: CString, qos: QoS)

  /** The one topic every channel publishes to. */
  const InaTopic: Topic := Topic("v1/sensors/ina3221/state", AtLeastOnce)

  /** Everything outside the loop: the devices' behaviour, the code the
      transport returns for a publish, and what the stack buffer held. */
  datatype Env = Env(hw: DeviceRef -> Device, publishRc: CString -> int, scratch: Buffer)

  /** What one pass does, in order. `Service` is the call to `app_poll_loop`;
      `NotReady` and `ReadFailed` are the logged error and warning;
      `FormatFailed` marks the silent skip after a negative `snprintk` code. */
  datatype Event =
    | Service
    | NotReady(dev: DeviceRef)
    | Call(dev: DeviceRef, call: DeviceCall)
    | ReadFailed(dev: DeviceRef, channel: uint8, rc: int)
    | FormatFailed(dev: DeviceRef, channel: uint8)
    | Publish(topic: Topic, payload: CString, result: int)

  /** The driver calls of one read, attributed to their device. */
  function Calls(dev: DeviceRef, calls: seq<DeviceCall>): (es: seq<Event>)
    ensures |es| == |calls|
    ensures forall i :: 0 <= i < |es| ==> es[i] == Call(dev, calls[i])
  {
    seq(|calls|, i requires 0 <= i < |calls| => Call(dev, calls[i]))
  }

  /** The record one successful read renders: the tag, the 1-based channel,
      and the current reused as the `temp_c` field. */
  function RecordOf(meta: ChannelMeta, r: Reading): (rec: Record)
    ensures rec.tag == meta.tag && 1 <= rec.channel <= 256
    ensures INT32_MIN <= rec.vBusMv <= INT32_MAX && INT32_MIN <= rec.iBusMa <= INT32_MAX
    ensures rec.tempC == rec.iBusMa
  {
    var vBusMv := Milli32(r.vbus);
    var iBusMa := Milli32(r.icur);
    Record(meta.tag, meta.channel + 1, vBusMv, iBusMa, iBusMa)
  }

  /** After formatting: skip on a negative `snprintk` code, otherwise publish
      the clamped buffer prefix and record, but otherwise ignore, the result. */
  function Emit(env: Env, meta: ChannelMeta, buf: Buffer, rc: int): (e: Event)
    ensures e.Publish? <==> rc >= 0
    ensures e.Publish? ==> e.topic == InaTopic && |e.payload| <= MaxPayload
    ensures e.Publish? ==> e.payload == buf[..Min(rc, MaxPayload)] && e.result == env.publishRc(e.payload)
    ensures !e.Publish? ==> e == FormatFailed(meta.dev, meta.channel)
  {
    match Publishable(buf, rc)
    case None => FormatFailed(meta.dev, meta.channel)
    case Some(p) => Publish(InaTopic, p, env.publishRc(p))
  }

  /** The event that ends a ready entry: a warning for a failed read, or the
      outcome of rendering and publishing the reading. */
  function Conclude(env: Env, meta: ChannelMeta, result: Result<Reading, int>): (e: Event)
    ensures result.Failure? ==> e == ReadFailed(meta.dev, meta.channel, result.error)
    ensures result.Success? ==> e.Publish? && e.payload == Truncate(Render(RecordOf(meta, result.value)))
    ensures e.Publish? ==> e.topic == InaTopic && |e.payload| <= MaxPayload
  {
    match result
    case Failure(rc) => ReadFailed(meta.dev, meta.channel, rc)
    case Success(r) =>
      var out := Snprintk(env.scratch, Render(RecordOf(meta, r)));
      TruncationLaw(env.scratch, Render(RecordOf(meta, r)));
      Emit(env, meta, out.0, out.1)
  }

  /** The entry's events once its device is ready: the driver calls, then the
      concluding event. */
  function ReadyStep(env: Env, meta: ChannelMeta, dev: Device): (es: seq<Event>)
    ensures 2 <= |es| <= 5
    ensures es[0].Call? && es[0].dev == meta.dev && es[0].call.AttrSet?
    ensures es[0].call.value == SensorValue(meta.channel + 1, 0)
    ensures forall i :: 0 <= i < |es| - 1 ==> es[i].Call?
    ensures es[|es| - 1].Publish? ==> es[|es| - 1].topic == InaTopic && |es[|es| - 1].payload| <= MaxPayload
    ensures !es[|es| - 1].Service? && !es[|es| - 1].NotReady?
    ensures var plan := Plan(dev, meta.channel);
            var k := FirstFailure(plan);
            k < 4 ==> es == Calls(meta.dev, plan[..k + 1]) + [ReadFailed(meta.dev, meta.channel, plan[k].rc)]
    ensures var plan := Plan(dev, meta.channel);
            FirstFailure(plan) == 4 ==> es == Calls(meta.dev, plan) + [Conclude(env, meta, Success(Reading(
              dev.get(meta.channel + 1, Voltage).value, dev.get(meta.channel + 1, Current).value)))]
  {
    var o := ReadChannel(dev, meta.channel);
    var calls := Calls(meta.dev, o.calls);
    var last := Conclude(env, meta, o.result);
    var es := calls + [last];
    AppendLast(calls, last);
    var plan := Plan(dev, meta.channel);
    var k := FirstFailure(plan);
    if k < 4 then
      assert o.calls == plan[..k + 1] && last == ReadFailed(meta.dev, meta.channel, plan[k].rc);
      es
    else
      assert o.calls == plan;
      es
  }

  /** Appending one event keeps the earlier events at their positions. */
  lemma AppendLast(es: seq<Event>, e: Event)
    ensures |es + [e]| == |es| + 1 && (es + [e])[|es|] == e
    ensures forall i :: 0 <= i < |es| ==> (es + [e])[i] == es[i]
  {
  }

  /** The body of the `for` loop for one table entry. */
  function ChannelStep(env: Env, meta: ChannelMeta): (es: seq<Event>)
    ensures |es| >= 1
    ensures !env.hw(meta.dev).ready <==> es == [NotReady(meta.dev)]
    ensures env.hw(meta.dev).ready ==>
              es[0].Call? && es[0].dev == meta.dev && es[0].call.AttrSet? && es[0].call.value == SensorValue(meta.channel + 1, 0)
    ensures forall i :: 0 <= i < |es| ==> !es[i].Service?
    ensures forall i :: 0 <= i < |es| && es[i].Publish? ==>
              i == |es| - 1 && es[i].topic == InaTopic && |es[i].payload| <= MaxPayload
  {
    var dev := env.hw(meta.dev);
    if !dev.ready then [NotReady(meta.dev)] else ReadyStep(env, meta, dev)
  }

  /** The `for` loop over the table. */
  function Steps(env: Env, table: seq<ChannelMeta>): (es: seq<Event>)
    ensures |es| >= |table|
    ensures |es| == 0 <==> |table| == 0
    decreases |table|
  {
    if |table| == 0 then [] else ChannelStep(env, table[0]) + Steps(env, table[1..])
  }

  /** One iteration of `while (1)`: service the transport once, then every
      channel; the sleep that ends it is not modelled. */
  function Cycle(env: Env, table: seq<ChannelMeta>): (es: seq<Event>)
    ensures |es| >= 1 + |table| && es[0] == Service
  {
    [Service] + Steps(env, table)
  }

  /** Several iterations, one environment each. */
  function Run(envs: seq<Env>, table: seq<ChannelMeta>): (es: seq<Event>)
    ensures |es| >= |envs| && (|es| == 0 <==> |envs| == 0)
    ensures |envs| > 0 ==> es[0] == Service
    decreases |envs|
  {
    if |envs| == 0 then [] else Cycle(envs[0], table) + Run(envs[1..], table)
  }

  // ---------------------------------------------------------------------
  // Reference view of a pass: what each entry publishes, computed from the
  // device outcomes without going through the trace or the buffer.

  /** The payload an entry publishes, if any: only for a ready device whose
      four read calls all return 0, and then the natural record cut to 255
      bytes. */
  function Expected(env: Env, meta: ChannelMeta): Option<CString> {
    var dev := env.hw(meta.dev);
    var plan := Plan(dev, meta.channel);
    if !dev.ready || FirstFailure(plan) < |plan| then None
    else
      var sel := meta.channel + 1;
      var v := Milli32(dev.get(sel, Voltage).value);
      var i := Milli32(dev.get(sel, Current).value);
      Some(Truncate(Render(Record(meta.tag, sel, v, i, i))))
  }

  function OptionSeq<T>(o: Option<T>): (s: seq<T>)
    ensures |s| <= 1
  {
    match o
    case None => []
    case Some(x) => [x]
  }

  /** The payloads of the table's entries, in table order. */
  function ExpectedPayloads(env: Env, table: seq<ChannelMeta>): seq<CString>
    decreases |table|
  {
    if |table| == 0 then [] else OptionSeq(Expected(env, table[0])) + ExpectedPayloads(env, table[1..])
  }

  /** The payloads of the publishes in a trace, in trace order. */
  function Payloads(es: seq<Event>): seq<CString>
    decreases |es|
  {
    if |es| == 0 then []
    else (if es[0].Publish? then [es[0].payload] else []) + Payloads(es[1..])
  }

  function ServiceCount(es: seq<Event>): nat
    decreases |es|
  {
    if |es| == 0 then 0 else (if es[0].Service? then 1 else 0) + ServiceCount(es[1..])
  }

  function Repeat<T>(s: seq<T>, n: nat): seq<T> {
    if n == 0 then [] else s + Repeat(s, n - 1)
  }

  /** A publish result with its code forgotten. */
  function Forget(e: Event): Event {
    if e.Publish? then e.(result := 0) else e
  }

  function ForgetAll(es: seq<Event>): (fs: seq<Event>)
    ensures |fs| == |es| && forall i :: 0 <= i < |es| ==> fs[i] == Forget(es[i])
  {
    seq(|es|, i requires 0 <= i < |es| => Forget(es[i]))
  }

  // ---------------------------------------------------------------------
  // Trace algebra.

  lemma {:induction false} PayloadsAppend(a: seq<Event>, b: seq<Event>)
    ensures Payloads(a + b) == Payloads(a) + Payloads(b)
    decreases |a|
  {
    if |a| == 0 {
      assert a + b == b;
    } else {
      assert (a + b)[0] == a[0];
      assert (a + b)[1..] == a[1..] + b;
      PayloadsAppend(a[1..], b);
    }
  }

  lemma {:induction false} ServiceCountAppend(a: seq<Event>, b: seq<Event>)
    ensures ServiceCount(a + b) == ServiceCount(a) + ServiceCount(b)
    decreases |a|
  {
    if |a| == 0 {
      assert a + b == b;
    } else {
      assert (a + b)[0] == a[0];
      assert (a + b)[1..] == a[1..] + b;
      ServiceCountAppend(a[1..], b);
    }
  }

  lemma {:induction false} NoPublishNoPayloads(es: seq<Event>)
    requires forall i :: 0 <= i < |es| ==> !es[i].Publish?
    ensures Payloads(es) == []
    decreases |es|
  {
    if |es| > 0 {
      NoPublishNoPayloads(es[1..]);
    }
  }

  lemma {:induction false} NoServiceCountsZero(es: seq<Event>)
    requires forall i :: 0 <= i < |es| ==> !es[i].Service?
    ensures ServiceCount(es) == 0
    decreases |es|
  {
    if |es| > 0 {
      NoServiceCountsZero(es[1..]);
    }
  }

  // ---------------------------------------------------------------------
  // Properties of one entry.

  /** An entry publishes exactly what the reference view says: at most one
      payload, only after a ready device and four successful calls, and then
      the natural record cut to 255 bytes whatever the buffer held before. */
  lemma ChannelStepPublishes(env: Env, meta: ChannelMeta)
    ensures Payloads(ChannelStep(env, meta)) == OptionSeq(Expected(env, meta))
  {
    var dev := env.hw(meta.dev);
    var es := ChannelStep(env, meta);
    if !dev.ready {
      NoPublishNoPayloads(es);
    } else {
      var o := ReadChannel(dev, meta.channel);
      var calls := Calls(meta.dev, o.calls);
      var last := Conclude(env, meta, o.result);
      assert es == calls + [last];
      PayloadsAppend(calls, [last]);
      NoPublishNoPayloads(calls);
      assert Payloads([last]) == if last.Publish? then [last.payload] else [];
      match o.result
      case Failure(rc) =>
      case Success(r) =>
        var text := Render(RecordOf(meta, r));
        TruncationLaw(env.scratch, text);
    }
  }

  /** The code the transport returns for a publish changes nothing but that
      code in the entry's trace. */
  lemma ChannelStepIgnoresPublishResult(env: Env, meta: ChannelMeta, f: CString -> int)
    ensures ForgetAll(ChannelStep(env.(publishRc := f), meta)) == ForgetAll(ChannelStep(env, meta))
  {
  }

  lemma ForgetAllAppend(a: seq<Event>, b: seq<Event>)
    ensures ForgetAll(a + b) == ForgetAll(a) + ForgetAll(b)
  {
  }

  // ---------------------------------------------------------------------
  // Properties of a pass.

  /** The loop over two tables one after the other is the loop over each. */
  lemma {:induction false} StepsAppend(env: Env, a: seq<ChannelMeta>, b: seq<ChannelMeta>)
    ensures Steps(env, a + b) == Steps(env, a) + Steps(env, b)
    decreases |a|
  {
    if |a| == 0 {
      assert a + b == b;
    } else {
      assert (a + b)[0] == a[0];
      assert (a + b)[1..] == a[1..] + b;
      StepsAppend(env, a[1..], b);
    }
  }

  /** Isolation: entry `i` is processed the same way whatever the entries
      before it did, and the entries after it are processed in turn. */
  lemma StepsSplit(env: Env, table: seq<ChannelMeta>, i: nat)
    requires i < |table|
    ensures Steps(env, table) == Steps(env, table[..i]) + ChannelStep(env, table[i]) + Steps(env, table[i + 1..])
  {
    var one := [table[i]];
    assert table == table[..i] + (one + table[i + 1..]);
    StepsAppend(env, table[..i], one + table[i + 1..]);
    StepsAppend(env, one, table[i + 1..]);
    assert Steps(env, one) == ChannelStep(env, table[i]) by {
      assert one[1..] == [];
    }
  }

  /** The pass's publishes are the entries' reference payloads in table order,
      so there is at most one per entry. */
  lemma {:induction false} StepsPublishes(env: Env, table: seq<ChannelMeta>)
    ensures Payloads(Steps(env, table)) == ExpectedPayloads(env, table)
    ensures |ExpectedPayloads(env, table)| <= |table|
    decreases |table|
  {
    if |table| > 0 {
      ChannelStepPublishes(env, table[0]);
      PayloadsAppend(ChannelStep(env, table[0]), Steps(env, table[1..]));
      StepsPublishes(env, table[1..]);
    }
  }

  lemma {:induction false} StepsNoService(env: Env, table: seq<ChannelMeta>)
    ensures forall i :: 0 <= i < |Steps(env, table)| ==> !Steps(env, table)[i].Service?
    decreases |table|
  {
    if |table| > 0 {
      StepsNoService(env, table[1..]);
    }
  }

  /** The transport is serviced exactly once per pass, before any channel,
      even for an empty table, and every publish goes after it. */
  lemma CycleServicesOnce(env: Env, table: seq<ChannelMeta>)
    ensures Cycle(env, table)[0] == Service
    ensures forall i :: 0 < i < |Cycle(env, table)| ==> !Cycle(env, table)[i].Service?
    ensures ServiceCount(Cycle(env, table)) == 1
    ensures Payloads(Cycle(env, table)) == ExpectedPayloads(env, table)
  {
    var steps := Steps(env, table);
    StepsNoService(env, table);
    NoServiceCountsZero(steps);
    ServiceCountAppend([Service], steps);
    PayloadsAppend([Service], steps);
    StepsPublishes(env, table);
  }

  /** A not-ready device costs its entry one warning, no driver call and no
      publish, and the next entry is processed as usual. */
  lemma NotReadySkips(env: Env, meta: ChannelMeta, rest: seq<ChannelMeta>)
    requires !env.hw(meta.dev).ready
    ensures Steps(env, [meta] + rest) == [NotReady(meta.dev)] + Steps(env, rest)
    ensures Expected(env, meta) == None
  {
  }

  /** The publish results are ignored: a pass under any other transport
      behaviour differs only in the recorded results. */
  lemma {:induction false} StepsIgnorePublishResult(env: Env, table: seq<ChannelMeta>, f: CString -> int)
    ensures ForgetAll(Steps(env.(publishRc := f), table)) == ForgetAll(Steps(env, table))
    decreases |table|
  {
    if |table| > 0 {
      var env' := env.(publishRc := f);
      ChannelStepIgnoresPublishResult(env, table[0], f);
      StepsIgnorePublishResult(env, table[1..], f);
      ForgetAllAppend(ChannelStep(env', table[0]), Steps(env', table[1..]));
      ForgetAllAppend(ChannelStep(env, table[0]), Steps(env, table[1..]));
    }
  }

  /** Over several passes the transport is serviced once per pass, and passes
      that would publish the same payloads each publish them again: nothing is
      de-duplicated or suppressed. */
  lemma {:induction false} RunRepeats(envs: seq<Env>, table: seq<ChannelMeta>, ps: seq<CString>)
    requires forall k :: 0 <= k < |envs| ==> ExpectedPayloads(envs[k], table) == ps
    ensures ServiceCount(Run(envs, table)) == |envs|
    ensures Payloads(Run(envs, table)) == Repeat(ps, |envs|)
    decreases |envs|
  {
    if |envs| > 0 {
      CycleServicesOnce(envs[0], table);
      RunRepeats(envs[1..], table, ps);
      ServiceCountAppend(Cycle(envs[0], table), Run(envs[1..], table));
      PayloadsAppend(Cycle(envs[0], table), Run(envs[1..], table));
    }
  }

  /** End to end: a published record that was not cut reads back as the tag,
      the 1-based channel, the bus voltage and current in milli-units, and the
      current again as `temp_c`; a tag of up to 163 bytes is never cut. */
  lemma PublishedRecord(env: Env, meta: ChannelMeta)
    requires Expected(env, meta).Some?
    requires NUL !in meta.tag && '"' !in meta.tag && |meta.tag| <= 163
    ensures var dev := env.hw(meta.dev);
            var sel := meta.channel + 1;
            var i := Milli32(dev.get(sel, Current).value);
            Unrender(Expected(env, meta).value)
              == Some(Record(meta.tag, sel, Milli32(dev.get(sel, Voltage).value), i, i))
  {
    var dev := env.hw(meta.dev);
    var sel := meta.channel + 1;
    var i := Milli32(dev.get(sel, Current).value);
    var rec := Record(meta.tag, sel, Milli32(dev.get(sel, Voltage).value), i, i);
    assert Expected(env, meta) == Some(Truncate(Render(rec)));
    assert CStr(meta.tag) == meta.tag;
    RenderLength(rec);
    assert Truncate(Render(rec)) == Render(rec);
    RenderRoundTrip(rec);
  }
}
