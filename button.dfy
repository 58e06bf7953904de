/**
 * The push button (src/hardware/button.rs): a counting sensor like the
 * anemometer, whose payload carries a press rate and a plain timestamp.
 */
module Button {
  import opened Base

  /** `IncrementalPayload`: the timestamp is always present. */
  datatype IncrementalPayload = IncrementalPayload(pressesPerSec: real, lastUpdated: nat)

  class Button {
    var counter: nat
    var pressesPerSec: real
    var lastUpdated: nat

    /** `new`: nothing counted yet, and the sampling window starts at `now`. */
    constructor (now: nat)
      ensures counter == 0 && pressesPerSec == 0.0 && lastUpdated == now
    {
      counter, pressesPerSec, lastUpdated := 0, 0.0, now;
    }

    /** `start`: the interrupt registration is commented out, so nothing happens. */
    method Start()
    {
    }

    /** `increment_counter`: one more press, nothing else changes. */
    method IncrementCounter()
      modifies this
      ensures counter == old(counter) + 1
      ensures pressesPerSec == old(pressesPerSec) && lastUpdated == old(lastUpdated)
    {
      counter := counter + 1;
    }

    /**
     * `update_data`: the presses of a window of `elapsedMs` milliseconds
     * become the press rate, the counter starts over, the window restarts at
     * `now`, and the payload carries exactly the new rate and time.
     */
    method UpdateData(elapsedMs: nat, now: nat) returns (sent: IncrementalPayload)
      requires elapsedMs > 0
      modifies this
      ensures pressesPerSec == Rate(old(counter), elapsedMs)
      ensures counter == 0 && lastUpdated == now
      ensures sent == IncrementalPayload(pressesPerSec, lastUpdated)
    {
      pressesPerSec := counter as real / (elapsedMs as real / 1000.0);
      counter := 0;
      lastUpdated := now;
      sent := IncrementalPayload(pressesPerSec, lastUpdated);
    }
  }
}
