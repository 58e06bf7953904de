/**
 * The tipping-bucket rain gauge (src/hardware/rain.rs): every tip is one
 * `RainCount` event; each sample turns the count into tips per second and
 * the tip rate into an amount of rain.
 */
module Rain {
  import opened Base

  /** Millimetres of rain per bucket tip. */
  const CountToMm: real := 0.2794
  const CmToMm: real := 10.0
  const CmToIn: real := 2.54

  // ---------------------------------------------------------------------
  // Amount conversions
  // ---------------------------------------------------------------------

  /**
   * `get_amount_cm` as written: the tip rate is divided by the millimetres
   * per tip instead of multiplied by it.
   */
  function AmountCmAsWritten(ticks: real): real
  {
    (ticks / CountToMm) / CmToMm
  }

  /** `get_amount_cm` as intended: tips times millimetres per tip, in centimetres. */
  function AmountCm(ticks: real): real
  {
    (ticks * CountToMm) / CmToMm
  }

  function AmountIn(ticks: real): real
  {
    AmountCm(ticks) / CmToIn
  }

  /**
   * Ten tips are 2.794 mm of rain, 0.2794 cm; the as-written formula reports
   * about 3.58 cm instead.
   */
  lemma AmountCmAsWrittenOverstates()
    ensures AmountCm(10.0) == 0.2794
    ensures AmountCmAsWritten(10.0) > 3.5
    ensures forall t: real :: t > 0.0 ==> AmountCmAsWritten(t) > AmountCm(t)
  {
    forall t: real | t > 0.0
      ensures AmountCmAsWritten(t) > AmountCm(t)
    {
      assert t / CountToMm > t > t * CountToMm;
    }
  }

  /**
   * The amounts are proportional to the tip rate: no tips is no rain, more
   * tips is never less rain, and inches are centimetres over 2.54.
   */
  lemma AmountsMonotone(a: real, b: real)
    requires a <= b
    ensures AmountCm(a) <= AmountCm(b) && AmountIn(a) <= AmountIn(b)
    ensures a == 0.0 ==> AmountCm(a) == 0.0 && AmountIn(a) == 0.0
    ensures AmountIn(b) * CmToIn == AmountCm(b)
  {
    assert AmountCm(b) - AmountCm(a) == (b - a) * CountToMm / CmToMm;
    assert AmountIn(b) - AmountIn(a) == (AmountCm(b) - AmountCm(a)) / CmToIn;
  }

  // ---------------------------------------------------------------------
  // Readings and the sensor
  // ---------------------------------------------------------------------

  datatype RainData = RainData(ticksPerSec: real, lastUpdated: Option<nat>)
  {
    predicate IsValid()
    {
      lastUpdated.Some?
    }

    function GetAmountCm(): (r: real)
      ensures r * CmToMm == ticksPerSec * CountToMm
      ensures ticksPerSec >= 0.0 ==> r >= 0.0
    {
      AmountCm(ticksPerSec)
    }

    function GetAmountIn(): (r: real)
      ensures r * CmToIn == GetAmountCm()
    {
      AmountIn(ticksPerSec)
    }
  }

  /** The gauge's counting state; times are milliseconds on the caller's clock. */
  class RainMeter {
    var counter: nat
    var ticksPerSec: real
    var lastUpdated: nat

    /** `new`: nothing counted yet, and the sampling window starts at `now`. */
    constructor (now: nat)
      ensures counter == 0 && ticksPerSec == 0.0 && lastUpdated == now
    {
      counter, ticksPerSec, lastUpdated := 0, 0.0, now;
    }

    /** `increment_counter`: one more tip, nothing else changes. */
    method IncrementCounter()
      modifies this
      ensures counter == old(counter) + 1
      ensures ticksPerSec == old(ticksPerSec) && lastUpdated == old(lastUpdated)
    {
      counter := counter + 1;
    }

    /**
     * `update_data`: the tips of a window of `elapsedMs` milliseconds become
     * the tip rate, the counter starts over (no running total is kept), the
     * window restarts at `now`, and the payload sent carries the rate and `now`.
     */
    method UpdateData(elapsedMs: nat, now: nat) returns (sent: RainData)
      requires elapsedMs > 0
      modifies this
      ensures ticksPerSec == Rate(old(counter), elapsedMs)
      ensures counter == 0 && lastUpdated == now
      ensures sent == RainData(ticksPerSec, Some(now)) && sent.IsValid()
    {
      ticksPerSec := counter as real / (elapsedMs as real / 1000.0);
      counter := 0;
      lastUpdated := now;
      sent := RainData(ticksPerSec, Some(lastUpdated));
    }
  }
}
