/**
 * The payloads the sensors send (the `Payload` implementations in the
 * src/hardware directory) as one closed datatype, with the single update each
 * one performs on the station state.
 */
module Payloads {
  import opened Base
  import Dht
  import Anemometer
  import Rain
  import Vane
  import Button
  import opened Snapshot

  datatype Payload =
    | EmptyPayload
    | DhtPayload(dht: Dht.DHTData)
    | AnemometerPayload(anemometer: Anemometer.AnemometerData)
    | RainPayload(rain: Rain.RainData)
    | WindVanePayload(direction: Vane.WindVaneData)
    | IncrementalPayload(button: Button.IncrementalPayload)

  const EmptyMessage: string := "New message sent!"

  /**
   * The anemometer's update of the day's extremes: the minimum takes the
   * reading when it is unset or larger, the maximum when it is smaller.
   */
  function WindExtremes(daytime: DaytimeData, spins: real): (r: DaytimeData)
    ensures r.windMin <= spins <= r.windMax
    ensures r.windMin == daytime.windMin || r.windMin == spins
    ensures r.windMax == daytime.windMax || r.windMax == spins
    ensures daytime.windMin < 0.0 ==> r.windMin == spins
    ensures daytime.windMin >= 0.0 ==> r.windMin <= daytime.windMin
    ensures daytime.windMax <= r.windMax
  {
    var windMin := if daytime.windMin < 0.0 || daytime.windMin > spins then spins else daytime.windMin;
    var windMax := if daytime.windMax < spins then spins else daytime.windMax;
    DaytimeData(windMin, windMax)
  }

  /** `update_data_fields`: each payload writes its own slot and nothing else. */
  function Apply(p: Payload, data: DataPoint, daytime: DaytimeData): (r: (DataPoint, DaytimeData))
    ensures !p.AnemometerPayload? ==> r.0.anemometer == data.anemometer && r.1 == daytime
    ensures !p.RainPayload? ==> r.0.rain == data.rain
    ensures !p.WindVanePayload? ==> r.0.direction == data.direction
    ensures !p.DhtPayload? ==> r.0.dht == data.dht
    ensures !(p.EmptyPayload? || p.IncrementalPayload?) ==> r.0.message == data.message
    ensures p.AnemometerPayload? ==>
      r.0.anemometer == p.anemometer && r.1 == WindExtremes(daytime, p.anemometer.spinsPerSec)
    ensures p.RainPayload? ==> r.0.rain == p.rain
    ensures p.WindVanePayload? ==> r.0.direction == p.direction
    ensures p.DhtPayload? ==> r.0.dht == p.dht
    ensures p.EmptyPayload? ==> r.0.message == Text(EmptyMessage)
    ensures p.IncrementalPayload? ==> r.0.message == ButtonRate(p.button.pressesPerSec)
  {
    match p
    case EmptyPayload => (data.(message := Text(EmptyMessage)), daytime)
    case DhtPayload(d) => (data.(dht := d), daytime)
    case AnemometerPayload(a) => (data.(anemometer := a), WindExtremes(daytime, a.spinsPerSec))
    case RainPayload(d) => (data.(rain := d), daytime)
    case WindVanePayload(d) => (data.(direction := d), daytime)
    case IncrementalPayload(b) => (data.(message := ButtonRate(b.pressesPerSec)), daytime)
  }

  // ---------------------------------------------------------------------
  // The day's extremes over a run of readings
  // ---------------------------------------------------------------------

  function SeqMin(s: seq<real>): (m: real)
    requires |s| > 0
    ensures m in s && forall k :: 0 <= k < |s| ==> m <= s[k]
  {
    if |s| == 1 then s[0]
    else
      var rest := SeqMin(s[..|s| - 1]);
      if s[|s| - 1] < rest then s[|s| - 1] else rest
  }

  function SeqMax(s: seq<real>): (m: real)
    requires |s| > 0
    ensures m in s && forall k :: 0 <= k < |s| ==> s[k] <= m
  {
    if |s| == 1 then s[0]
    else
      var rest := SeqMax(s[..|s| - 1]);
      if s[|s| - 1] > rest then s[|s| - 1] else rest
  }

  /** The extremes after applying the anemometer readings `s` in order. */
  function ExtremesAfter(daytime: DaytimeData, s: seq<real>): DaytimeData
  {
    if s == [] then daytime
    else WindExtremes(ExtremesAfter(daytime, s[..|s| - 1]), s[|s| - 1])
  }

  /**
   * Starting from unset extremes, a day of non-negative readings leaves
   * exactly the smallest and the largest reading.
   */
  lemma {:induction false} ExtremesAreMinAndMax(daytime: DaytimeData, s: seq<real>)
    requires daytime.windMin < 0.0 && daytime.windMax < 0.0
    requires |s| > 0 && forall k :: 0 <= k < |s| ==> s[k] >= 0.0
    ensures ExtremesAfter(daytime, s) == DaytimeData(SeqMin(s), SeqMax(s))
  {
    if |s| > 1 {
      var init := s[..|s| - 1];
      ExtremesAreMinAndMax(daytime, init);
      assert SeqMin(s) == (if s[|s| - 1] < SeqMin(init) then s[|s| - 1] else SeqMin(init));
    }
  }
}
