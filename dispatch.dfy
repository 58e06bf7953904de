/**
 * The main event loop (src/main.rs, lines 59-95): each iteration polls the
 * event channel once and routes the event, if any, to the anemometer, the
 * rain gauge or the wind vane. The channel is a sequence of poll results;
 * what the clock and the ADC report while an `UpdateData` event is handled
 * comes with that poll.
 */
module Dispatch {
  import opened Base
  import opened Events
  import opened Payloads
  import Anemometer
  import Rain
  import Vane

  /** Clock readings and ADC reply seen while handling one poll. */
  datatype Env = Env(anemometerElapsedMs: nat, rainElapsedMs: nat, reply: seq<byte>, now: nat)

  /** One loop iteration: what `try_recv` returned and the environment at that time. */
  datatype Tick = Tick(poll: Option<EventType>, env: Env)

  /** The environment a tick can carry: non-empty windows and a reply that fits the buffer. */
  predicate Plausible(t: Tick)
  {
    t.env.anemometerElapsedMs > 0 && t.env.rainElapsedMs > 0 && |t.env.reply| <= Vane.BufferSize
  }

  /** The events received so far, extended by one poll: an empty poll adds nothing. */
  function After(evs: seq<EventType>, t: Tick): seq<EventType>
  {
    evs + (if t.poll.Some? then [t.poll.value] else [])
  }

  /** The events actually received, in order (empty polls dropped). */
  function Received(ticks: seq<Tick>): (evs: seq<EventType>)
    ensures |evs| <= |ticks|
  {
    if ticks == [] then [] else After(Received(ticks[..|ticks| - 1]), ticks[|ticks| - 1])
  }

  /**
   * A sensor counter after the events `evs`: its count event adds one,
   * `UpdateData` resets it, every other event leaves it alone.
   */
  function CounterAfter(c0: nat, evs: seq<EventType>, count: EventType): nat
  {
    if evs == [] then c0
    else Counted(CounterAfter(c0, evs[..|evs| - 1], count), evs[|evs| - 1], count)
  }

  /** A counter after one event. */
  function Counted(c: nat, e: EventType, count: EventType): nat
  {
    if e == count then c + 1 else if e == UpdateData then 0 else c
  }

  /** The position just after the last `UpdateData` in `evs`, or 0 when there is none. */
  function SinceLastUpdate(evs: seq<EventType>): (i: nat)
    ensures i <= |evs| && UpdateData !in evs[i..]
    ensures i > 0 ==> evs[i - 1] == UpdateData
  {
    if evs == [] then 0
    else if evs[|evs| - 1] == UpdateData then |evs|
    else
      var i := SinceLastUpdate(evs[..|evs| - 1]);
      assert evs[i..] == evs[..|evs| - 1][i..] + [evs[|evs| - 1]];
      i
  }

  /**
   * A counter holds exactly the number of its count events since the last
   * `UpdateData`; with no `UpdateData` yet, that number on top of where it
   * started.
   */
  lemma {:induction false} CounterAfterCountsSinceUpdate(c0: nat, evs: seq<EventType>, count: EventType)
    requires count != UpdateData
    ensures var i := SinceLastUpdate(evs);
      CounterAfter(c0, evs, count) == (if i == 0 then c0 else 0) + multiset(evs[i..])[count]
  {
    if evs != [] {
      var init, e := evs[..|evs| - 1], evs[|evs| - 1];
      assert evs == init + [e];
      CounterAfterCountsSinceUpdate(c0, init, count);
      if e != UpdateData {
        CountAppend(init, e, SinceLastUpdate(init), count);
      }
    }
  }

  /** Counting in a suffix after one more event. */
  lemma CountAppend(init: seq<EventType>, e: EventType, i: nat, count: EventType)
    requires i <= |init|
    ensures multiset((init + [e])[i..])[count] == multiset(init[i..])[count] + (if e == count then 1 else 0)
  {
    assert (init + [e])[i..] == init[i..] + [e];
  }

  /** One more event. */
  lemma CounterAfterStep(c0: nat, evs: seq<EventType>, e: EventType, count: EventType)
    ensures CounterAfter(c0, evs + [e], count) == Counted(CounterAfter(c0, evs, count), e, count)
  {
    assert (evs + [e])[..|evs|] == evs;
  }

  /** Which sensor sampled a payload: 0, 1 and 2 for anemometer, rain gauge and vane. */
  function Slot(p: Payload): nat
  {
    match p
    case AnemometerPayload(_) => 0
    case RainPayload(_) => 1
    case WindVanePayload(_) => 2
    case _ => 3
  }

  /** The payload carries a reading with a timestamp. */
  predicate Stamped(p: Payload)
  {
    match p
    case AnemometerPayload(a) => a.IsValid()
    case RainPayload(r) => r.IsValid()
    case WindVanePayload(w) => w.IsValid()
    case _ => false
  }

  /** Payload `k` of a run is a stamped reading from sensor `k % 3`. */
  predicate InSlot(p: Payload, k: nat)
  {
    Slot(p) == k % 3 && Stamped(p)
  }

  /** Every payload sits in its slot, stated one payload at a time from the end. */
  predicate InSamplingOrder(payloads: seq<Payload>)
    decreases |payloads|
  {
    payloads == [] ||
    (InSamplingOrder(payloads[..|payloads| - 1]) && InSlot(payloads[|payloads| - 1], |payloads| - 1))
  }

  /** The recursive order is the slot condition at every index. */
  lemma {:induction false} SamplingOrderMeaning(payloads: seq<Payload>)
    ensures InSamplingOrder(payloads) <==> forall k :: 0 <= k < |payloads| ==> InSlot(payloads[k], k)
    decreases |payloads|
  {
    if payloads != [] {
      var init := payloads[..|payloads| - 1];
      SamplingOrderMeaning(init);
      assert forall k :: 0 <= k < |init| ==> init[k] == payloads[k];
    }
  }

  lemma ReceivedStep(ticks: seq<Tick>, i: nat)
    requires i < |ticks|
    ensures Received(ticks[..i + 1]) == After(Received(ticks[..i]), ticks[i])
  {
    assert ticks[..i + 1][..i] == ticks[..i];
  }

  /** Payloads in sampling order can follow whole rounds of three. */
  lemma SamplingOrderAppend(a: seq<Payload>, b: seq<Payload>, rounds: nat)
    requires |a| == 3 * rounds && InSamplingOrder(a) && InSamplingOrder(b)
    ensures InSamplingOrder(a + b)
  {
    SamplingOrderMeaning(a);
    SamplingOrderMeaning(b);
    SamplingOrderMeaning(a + b);
    forall k | 0 <= k < |a + b|
      ensures InSlot((a + b)[k], k)
    {
      if k < |a| {
        assert (a + b)[k] == a[k];
      } else {
        assert (a + b)[k] == b[k - |a|];
        SlotAfterRounds(b[k - |a|], k - |a|, rounds);
      }
    }
  }

  /** Whole rounds of three do not change a payload's slot. */
  lemma SlotAfterRounds(p: Payload, j: nat, rounds: nat)
    requires InSlot(p, j)
    ensures InSlot(p, j + 3 * rounds)
  {
    assert (j + 3 * rounds) % 3 == j % 3;
  }

  /**
   * The `UpdateData` arm: sample the anemometer, then the rain gauge, then
   * the wind vane. A short ADC reply makes the vane panic after the first
   * two payloads have been sent.
   */
  method Sample(env: Env, anemometer: Anemometer.Anemometer, rain: Rain.RainMeter, vane: Vane.WindVane)
    returns (sent: seq<Payload>, panicked: bool)
    requires env.anemometerElapsedMs > 0 && env.rainElapsedMs > 0 && |env.reply| <= Vane.BufferSize
    requires vane.Valid()
    modifies anemometer, rain, vane, vane.buf
    ensures vane.Valid()
    ensures panicked <==> |env.reply| < 3
    ensures anemometer.counter == 0 && rain.counter == 0
    ensures |sent| == (if panicked then 2 else 3)
    ensures sent[0] == AnemometerPayload(Anemometer.AnemometerData(Rate(old(anemometer.counter), env.anemometerElapsedMs), Some(env.now)))
    ensures sent[1] == RainPayload(Rain.RainData(Rate(old(rain.counter), env.rainElapsedMs), Some(env.now)))
    ensures !panicked ==> sent[2] == WindVanePayload(Vane.WindVaneData(Vane.DirectionOf(env.reply[1], env.reply[2]), Some(env.now)))
    ensures InSamplingOrder(sent)
  {
    var a := anemometer.UpdateData(env.anemometerElapsedMs, env.now);
    var r := rain.UpdateData(env.rainElapsedMs, env.now);
    sent := [AnemometerPayload(a), RainPayload(r)];
    var w := vane.UpdateData(env.reply, env.now);
    if w.None? {
      panicked := true;
    } else {
      sent, panicked := sent + [WindVanePayload(w.value)], false;
    }
    forall k | 0 <= k < |sent|
      ensures InSlot(sent[k], k)
    {
      assert k == 0 || k == 1 || k == 2;
    }
    SamplingOrderMeaning(sent);
  }

  /**
   * The `match` on one received event: count events bump their sensor,
   * `UpdateData` samples all three, `Exit` ends the loop, and every other
   * event changes nothing.
   */
  method Handle(e: EventType, env: Env, anemometer: Anemometer.Anemometer, rain: Rain.RainMeter,
                vane: Vane.WindVane)
    returns (sent: seq<Payload>, exit: bool, panicked: bool)
    requires env.anemometerElapsedMs > 0 && env.rainElapsedMs > 0 && |env.reply| <= Vane.BufferSize
    requires vane.Valid()
    modifies anemometer, rain, vane, vane.buf
    ensures vane.Valid()
    ensures exit <==> e == Exit
    ensures panicked <==> e == UpdateData && |env.reply| < 3
    ensures anemometer.counter == Counted(old(anemometer.counter), e, AnemometerCount)
    ensures rain.counter == Counted(old(rain.counter), e, RainCount)
    ensures |sent| == (if e != UpdateData then 0 else if panicked then 2 else 3)
    ensures InSamplingOrder(sent)
    ensures e == UpdateData ==>
      sent[0] == AnemometerPayload(Anemometer.AnemometerData(Rate(old(anemometer.counter), env.anemometerElapsedMs), Some(env.now)))
      && sent[1] == RainPayload(Rain.RainData(Rate(old(rain.counter), env.rainElapsedMs), Some(env.now)))
    ensures e == UpdateData && !panicked ==>
      sent[2] == WindVanePayload(Vane.WindVaneData(Vane.DirectionOf(env.reply[1], env.reply[2]), Some(env.now)))
    ensures e == AnemometerCount ==>
      anemometer.spinsPerSec == old(anemometer.spinsPerSec) && anemometer.lastUpdated == old(anemometer.lastUpdated)
    ensures e == RainCount ==>
      rain.ticksPerSec == old(rain.ticksPerSec) && rain.lastUpdated == old(rain.lastUpdated)
    ensures e != UpdateData && e != AnemometerCount ==> unchanged(anemometer)
    ensures e != UpdateData && e != RainCount ==> unchanged(rain)
    ensures e != UpdateData ==> unchanged(vane) && unchanged(vane.buf)
  {
    sent, exit, panicked := [], false, false;
    match e
    case AnemometerCount =>
      anemometer.IncrementCounter();
    case RainCount =>
      rain.IncrementCounter();
    case UpdateData =>
      sent, panicked := Sample(env, anemometer, rain, vane);
    case Exit =>
      exit := true;
    case _ =>
  }

  /**
   * One iteration of the loop, with the bookkeeping that ties the sensors and
   * the payloads sent so far to the events `evs` received before it.
   */
  method Step(tick: Tick, anemometer: Anemometer.Anemometer, rain: Rain.RainMeter, vane: Vane.WindVane,
              ghost a0: nat, ghost r0: nat, ghost evs: seq<EventType>, payloads: seq<Payload>)
    returns (payloads': seq<Payload>, exit: bool, panicked: bool)
    requires Plausible(tick) && vane.Valid()
    requires anemometer.counter == CounterAfter(a0, evs, AnemometerCount)
    requires rain.counter == CounterAfter(r0, evs, RainCount)
    requires |payloads| == 3 * multiset(evs)[UpdateData] && InSamplingOrder(payloads)
    modifies anemometer, rain, vane, vane.buf
    ensures vane.Valid()
    ensures exit <==> tick.poll == Some(Exit)
    ensures panicked <==> tick.poll == Some(UpdateData) && |tick.env.reply| < 3
    ensures anemometer.counter == CounterAfter(a0, After(evs, tick), AnemometerCount)
    ensures rain.counter == CounterAfter(r0, After(evs, tick), RainCount)
    ensures |payloads'| + (if panicked then 1 else 0) == 3 * multiset(After(evs, tick))[UpdateData]
    ensures InSamplingOrder(payloads')
  {
    payloads', exit, panicked := payloads, false, false;
    if tick.poll.Some? {
      var e := tick.poll.value;
      CounterAfterStep(a0, evs, e, AnemometerCount);
      CounterAfterStep(r0, evs, e, RainCount);
      assert multiset(evs + [e])[UpdateData] == multiset(evs)[UpdateData] + (if e == UpdateData then 1 else 0);
      var sent;
      sent, exit, panicked := Handle(e, tick.env, anemometer, rain, vane);
      SamplingOrderAppend(payloads, sent, multiset(evs)[UpdateData]);
      payloads' := payloads + sent;
    } else {
      assert After(evs, tick) == evs;
    }
  }

  /**
   * Run the loop over `ticks`. It ends on `Exit`, when the wind vane panics
   * on a short ADC reply, or when the ticks run out; `consumed` is the
   * number of ticks it took, and `payloads` what it sent, in order.
   */
  method Run(ticks: seq<Tick>, anemometer: Anemometer.Anemometer, rain: Rain.RainMeter, vane: Vane.WindVane)
    returns (payloads: seq<Payload>, consumed: nat, exited: bool, panicked: bool)
    requires forall k :: 0 <= k < |ticks| ==> Plausible(ticks[k])
    requires vane.Valid()
    modifies anemometer, rain, vane, vane.buf
    ensures consumed <= |ticks| && !(exited && panicked)
    ensures exited ==> 0 < consumed <= |ticks| && Exit !in Received(ticks[..consumed - 1])
    ensures !exited ==> Exit !in Received(ticks[..consumed])
    ensures exited <==> consumed > 0 && ticks[consumed - 1].poll == Some(Exit)
    ensures panicked ==> consumed > 0 && ticks[consumed - 1].poll == Some(UpdateData)
                         && |ticks[consumed - 1].env.reply| < 3
    ensures !exited && !panicked ==> consumed == |ticks|
    ensures anemometer.counter == CounterAfter(old(anemometer.counter), Received(ticks[..consumed]), AnemometerCount)
    ensures rain.counter == CounterAfter(old(rain.counter), Received(ticks[..consumed]), RainCount)
    ensures |payloads| + (if panicked then 1 else 0) == 3 * multiset(Received(ticks[..consumed]))[UpdateData]
    ensures InSamplingOrder(payloads)
  {
    payloads := [];
    exited, panicked := false, false;
    consumed := 0;
    ghost var a0, r0 := anemometer.counter, rain.counter;
    while consumed < |ticks|
      invariant consumed <= |ticks| && vane.Valid() && !exited && !panicked
      invariant Exit !in Received(ticks[..consumed])
      invariant anemometer.counter == CounterAfter(a0, Received(ticks[..consumed]), AnemometerCount)
      invariant rain.counter == CounterAfter(r0, Received(ticks[..consumed]), RainCount)
      invariant |payloads| == 3 * multiset(Received(ticks[..consumed]))[UpdateData]
      invariant InSamplingOrder(payloads)
    {
      var i := consumed;
      var tick := ticks[i];
      assert Plausible(tick);
      ReceivedStep(ticks, i);
      payloads, exited, panicked := Step(tick, anemometer, rain, vane, a0, r0, Received(ticks[..i]), payloads);
      consumed := i + 1;
      assert ticks[consumed - 1] == tick && ticks[..consumed - 1] == ticks[..i];
      if exited || panicked {
        return;
      }
    }
  }
}
