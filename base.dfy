/**
 * Shared vocabulary of the weather-station model: optional values, bytes,
 * bit extraction and the pulse-rate formula used by every counting sensor.
 */
module Base {

  /** Rust's `Option`. */
  datatype Option<T> = None | Some(value: T)

  /** A Rust `u8`. */
  type byte = x: int | 0 <= x < 256

  function Pow2(n: nat): (r: nat)
    ensures r >= 1
  {
    if n == 0 then 1 else 2 * Pow2(n - 1)
  }

  /** Bit `i` of `x`, counted from the least significant bit: `(x >> i) & 1 == 1`. */
  function Bit(x: nat, i: nat): bool
  {
    if i == 0 then x % 2 == 1 else Bit(x / 2, i - 1)
  }

  /**
   * `counter as f32 / (elapsed_ms as f32 / 1000.0)`: pulses per second over a
   * sampling window of `elapsedMs` milliseconds. The window must be non-empty;
   * the f32 infinity/NaN of an empty window is not modelled.
   */
  function Rate(count: nat, elapsedMs: nat): (r: real)
    requires elapsedMs > 0
    ensures r >= 0.0
    ensures r == 0.0 <==> count == 0
  {
    count as real / (elapsedMs as real / 1000.0)
  }

  /** The rate times the window length (in seconds) gives back the pulse count. */
  lemma RateTimesWindow(count: nat, elapsedMs: nat)
    requires elapsedMs > 0
    ensures Rate(count, elapsedMs) * (elapsedMs as real / 1000.0) == count as real
    ensures count == 0 ==> Rate(count, elapsedMs) == 0.0
    ensures Rate(count, elapsedMs) >= 0.0
  {
    var w := elapsedMs as real / 1000.0;
    assert w > 0.0;
    assert Rate(count, elapsedMs) == count as real / w;
  }

  /** More pulses in the same window never give a lower rate. */
  lemma RateMonotone(a: nat, b: nat, elapsedMs: nat)
    requires elapsedMs > 0 && a <= b
    ensures Rate(a, elapsedMs) <= Rate(b, elapsedMs)
  {
    var w := elapsedMs as real / 1000.0;
    assert w > 0.0;
    assert Rate(b, elapsedMs) - Rate(a, elapsedMs) == (b - a) as real / w;
  }
}
