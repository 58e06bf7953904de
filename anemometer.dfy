/**
 * The cup anemometer (src/hardware/anemometer.rs): every rising edge of its
 * reed switch is one `AnemometerCount` event; each sample turns the count into
 * spins per second and the spins into a wind speed.
 */
module Anemometer {
  import opened Base

  const CmToKm: real := 100000.0
  const SecToHr: real := 3600.0
  const KmToMi: real := 1.609344
  const WindAdjustment: real := 1.18
  /** `std::f32::consts::PI`. */
  const Pi: real := 3.1415927
  /** Cup-arm radius in centimetres. */
  const Radius: real := 9.0

  // ---------------------------------------------------------------------
  // Speed conversions
  // ---------------------------------------------------------------------

  /** Half a spin per switch pulse, times the cup circumference. */
  function CmPerSec(spins: real): (r: real)
    ensures r == 0.0 <==> spins == 0.0
    ensures spins > 0.0 ==> r > 0.0
  {
    (spins / 2.0) * ((2.0 * Pi) * Radius)
  }

  /** Centimetres per second to km/h, with the cup-factor adjustment. */
  function Kph(spins: real): (r: real)
    ensures r == 0.0 <==> spins == 0.0
    ensures spins > 0.0 ==> r > CmPerSec(spins) / CmToKm
  {
    (CmPerSec(spins) / CmToKm) * SecToHr * WindAdjustment
  }

  function Mph(spins: real): (r: real)
    ensures r == 0.0 <==> spins == 0.0
    ensures spins > 0.0 ==> 0.0 < r < Kph(spins)
  {
    Kph(spins) / KmToMi
  }

  /**
   * Each speed is a fixed positive multiple of the spin rate: no spins is no
   * wind, and more spins is never less wind.
   */
  lemma SpeedsProportional(spins: real)
    ensures CmPerSec(spins) == spins * Pi * Radius
    ensures Kph(spins) == CmPerSec(spins) * (SecToHr * WindAdjustment / CmToKm)
    ensures Mph(spins) * KmToMi == Kph(spins)
  {
  }

  lemma SpeedsMonotone(a: real, b: real)
    requires a <= b
    ensures CmPerSec(a) <= CmPerSec(b)
    ensures Kph(a) <= Kph(b)
    ensures Mph(a) <= Mph(b)
    ensures a == 0.0 ==> CmPerSec(a) == 0.0 && Kph(a) == 0.0 && Mph(a) == 0.0
  {
    SpeedsProportional(a);
    SpeedsProportional(b);
    assert CmPerSec(b) - CmPerSec(a) == (b - a) * Pi * Radius;
    assert Kph(b) - Kph(a) == (CmPerSec(b) - CmPerSec(a)) * (SecToHr * WindAdjustment / CmToKm);
    assert Mph(b) - Mph(a) == (Kph(b) - Kph(a)) / KmToMi;
  }

  /**
   * `convert_to_kph` as written: it returns the centimetres-per-second
   * formula, not kilometres per hour.
   */
  function ConvertToKphAsWritten(spins: real): real
  {
    CmPerSec(spins)
  }

  function ConvertToMphAsWritten(spins: real): real
  {
    ConvertToKphAsWritten(spins) / KmToMi
  }

  /** The as-written conversion disagrees with `get_kph` for one spin per second. */
  lemma ConvertToKphAsWrittenIsCmPerSec()
    ensures ConvertToKphAsWritten(1.0) != Kph(1.0)
    ensures ConvertToMphAsWritten(1.0) != Mph(1.0)
  {
    SpeedsProportional(1.0);
  }

  /** `convert_to_kph` as intended: the same speed `get_kph` reports. */
  function ConvertToKph(spins: real): real
  {
    Kph(spins)
  }

  function ConvertToMph(spins: real): real
  {
    ConvertToKph(spins) / KmToMi
  }

  /** The corrected static conversions agree with a reading's own getters. */
  lemma ConvertAgreesWithReading(d: AnemometerData)
    ensures ConvertToKph(d.spinsPerSec) == d.GetKph()
    ensures ConvertToMph(d.spinsPerSec) == d.GetMph()
    ensures ConvertToKph(d.spinsPerSec) != ConvertToKphAsWritten(d.spinsPerSec) || d.spinsPerSec == 0.0
  {
    SpeedsProportional(d.spinsPerSec);
  }

  // ---------------------------------------------------------------------
  // Readings and the sensor
  // ---------------------------------------------------------------------

  datatype AnemometerData = AnemometerData(spinsPerSec: real, lastUpdated: Option<nat>)
  {
    predicate IsValid()
    {
      lastUpdated.Some?
    }

    function GetKph(): real
    {
      Kph(spinsPerSec)
    }

    function GetMph(): real
    {
      Mph(spinsPerSec)
    }
  }

  /**
   * The sensor's counting state. Times are milliseconds on the caller's clock;
   * the pin and its interrupt are outside the model.
   */
  class Anemometer {
    var counter: nat
    var spinsPerSec: real
    var lastUpdated: nat

    /** `new`: nothing counted yet, and the sampling window starts at `now`. */
    constructor (now: nat)
      ensures counter == 0 && spinsPerSec == 0.0 && lastUpdated == now
    {
      counter, spinsPerSec, lastUpdated := 0, 0.0, now;
    }

    /** `increment_counter`: one more pulse, nothing else changes. */
    method IncrementCounter()
      modifies this
      ensures counter == old(counter) + 1
      ensures spinsPerSec == old(spinsPerSec) && lastUpdated == old(lastUpdated)
    {
      counter := counter + 1;
    }

    /**
     * `update_data`: the pulses of a window of `elapsedMs` milliseconds become
     * the spin rate, the counter starts over, the window restarts at `now`,
     * and the payload sent carries the rate and `now`.
     */
    method UpdateData(elapsedMs: nat, now: nat) returns (sent: AnemometerData)
      requires elapsedMs > 0
      modifies this
      ensures spinsPerSec == Rate(old(counter), elapsedMs)
      ensures counter == 0 && lastUpdated == now
      ensures sent == AnemometerData(spinsPerSec, Some(now)) && sent.IsValid()
    {
      spinsPerSec := counter as real / (elapsedMs as real / 1000.0);
      counter := 0;
      lastUpdated := now;
      sent := AnemometerData(spinsPerSec, Some(lastUpdated));
    }
  }
}
