/**
 * DHT11 temperature/humidity sensor (src/hardware/dht.rs).
 *
 * The data pin is abstracted as a `Line`: the level seen by the n-th poll of
 * the pin after the wake-up handshake (true = high). Every `is_low()` or
 * `is_high()` call consumes one poll. The handshake, pin-mode changes and
 * sleeps are hardware timing and are not modelled.
 */
module Dht {
  import opened Base
  import opened Events

  const PiClock: nat := 1_500_000_000
  /** Busy-wait iterations allowed for one pulse before the read times out: 37500. */
  const MaxCount: nat := PiClock / 40000
  /** Low/high pulse pairs measured per read: the response pulse and 40 data bits. */
  const Pulses: nat := 41
  /** Number of read attempts made by the self-test loop. */
  const SelfTestAttempts: nat := 20

  // ---------------------------------------------------------------------------
  // Result codes

  datatype DHTState = Ok | ErrorChecksum | ErrorTimeout | InvalidValue

  /** The discriminant of each state (`DHTState::X as i32`). */
  function StateCode(s: DHTState): int
  {
    match s
    case Ok => 0
    case ErrorChecksum => -1
    case ErrorTimeout => -2
    case InvalidValue => -999
  }

  /** `get_state_from_code`: known codes map back to their state, anything else is `InvalidValue`. */
  function StateFromCode(code: int): (s: DHTState)
    ensures (code == 0 || code == -1 || code == -2 || code == -999) <==> StateCode(s) == code
    ensures StateCode(s) != code ==> s == InvalidValue
  {
    match code
    case 0 => Ok
    case -1 => ErrorChecksum
    case -2 => ErrorTimeout
    case -999 => InvalidValue
    case _ => InvalidValue
  }

  /** Every state's discriminant decodes back to that state. */
  lemma StateCodeRoundTrip(s: DHTState)
    ensures StateFromCode(StateCode(s)) == s
  {
  }

  /** `get_state_str`: the label printed for a failed read. */
  function StateStr(s: DHTState): (name: string)
    ensures name == "Ok" <==> s == Ok
  {
    match s
    case Ok => "Ok"
    case ErrorChecksum => "Checksum"
    case ErrorTimeout => "Timeout"
    case InvalidValue => "Invalid Value"
  }

  // ---------------------------------------------------------------------------
  // Readings

  /** A temperature/humidity reading; it is valid iff it carries a timestamp. */
  datatype DHTData = DHTData(temperature: real, humidity: real, lastUpdated: Option<nat>)
  {
    predicate IsValid()
    {
      lastUpdated.Some?
    }

    /** Degrees Fahrenheit; converting back gives the Celsius reading. */
    function TempFahrenheit(): (f: real)
      ensures (f - 32.0) * 5.0 / 9.0 == temperature
    {
      temperature * 9.0 / 5.0 + 32.0
    }
  }

  // ---------------------------------------------------------------------------
  // Pulse measurement

  type Line = nat -> bool

  /** How many consecutive polls from `p` see `level`, counting at most `limit`. */
  function Run(line: Line, p: nat, level: bool, limit: nat): (n: nat)
    ensures n <= limit
    decreases limit
  {
    if limit == 0 || line(p) != level then 0 else 1 + Run(line, p + 1, level, limit - 1)
  }

  lemma {:induction false} RunExact(line: Line, p: nat, level: bool, limit: nat, n: nat)
    requires n < limit
    requires forall k :: p <= k < p + n ==> line(k) == level
    requires line(p + n) != level
    ensures Run(line, p, level, limit) == n
    decreases n
  {
    if n > 0 {
      RunExact(line, p + 1, level, limit - 1, n - 1);
    }
  }

  lemma {:induction false} RunFull(line: Line, p: nat, level: bool, limit: nat)
    requires forall k :: p <= k < p + limit ==> line(k) == level
    ensures Run(line, p, level, limit) == limit
    decreases limit
  {
    if limit > 0 {
      RunFull(line, p + 1, level, limit - 1);
    }
  }

  function Join(prefix: seq<nat>, rest: Option<seq<nat>>): Option<seq<nat>>
  {
    if rest.None? then None else Some(prefix + rest.value)
  }

  lemma JoinJoin(a: seq<nat>, b: seq<nat>, rest: Option<seq<nat>>)
    ensures Join(a, Join(b, rest)) == Join(a + b, rest)
  {
    if rest.Some? {
      assert a + (b + rest.value) == (a + b) + rest.value;
    }
  }

  /**
   * The pulse counts of `pairs` low/high pairs starting at poll `p`, or None
   * when some pulse lasts `MaxCount` polls. A low pulse ends at the first high
   * poll, which the following high-pulse loop does not reuse (it polls again).
   */
  function Measure(line: Line, p: nat, pairs: nat): (r: Option<seq<nat>>)
    ensures r.Some? ==> |r.value| == 2 * pairs
    decreases pairs
  {
    if pairs == 0 then Some([])
    else
      var lo := Run(line, p, false, MaxCount);
      if lo == MaxCount then None
      else
        var hi := Run(line, p + lo + 1, true, MaxCount);
        if hi == MaxCount then None
        else Join([lo, hi], Measure(line, p + lo + 1 + hi + 1, pairs - 1))
  }

  /** Every count of a completed measurement is below the timeout count. */
  lemma {:induction false} MeasureBounded(line: Line, p: nat, pairs: nat)
    ensures Measure(line, p, pairs).Some? ==>
              forall k :: 0 <= k < 2 * pairs ==> Measure(line, p, pairs).value[k] < MaxCount
    decreases pairs
  {
    if pairs > 0 {
      var lo := Run(line, p, false, MaxCount);
      var hi := Run(line, p + lo + 1, true, MaxCount);
      MeasureBounded(line, p + lo + 1 + hi + 1, pairs - 1);
    }
  }

  /**
   * One busy-wait loop of `read_sensor`: count in `pulse_cnts[i]` the polls
   * from `t0` that see `level`, timing out when the count reaches `MaxCount`.
   * Returns the poll index after the one that ended the pulse.
   */
  method CountPulse(line: Line, level: bool, pulseCnts: array<nat>, i: nat, t0: nat)
    returns (timedOut: bool, t: nat)
    requires i < pulseCnts.Length && pulseCnts[i] == 0
    modifies pulseCnts
    ensures forall k :: 0 <= k < pulseCnts.Length && k != i ==> pulseCnts[k] == old(pulseCnts[k])
    ensures timedOut <==> Run(line, t0, level, MaxCount) == MaxCount
    ensures !timedOut ==> pulseCnts[i] == Run(line, t0, level, MaxCount) && t == t0 + pulseCnts[i] + 1
  {
    t := t0;
    var same := line(t) == level;
    t := t + 1;
    while same
      invariant t == t0 + pulseCnts[i] + 1 && pulseCnts[i] < MaxCount
      invariant forall k :: t0 <= k < t0 + pulseCnts[i] ==> line(k) == level
      invariant same == (line(t0 + pulseCnts[i]) == level)
      invariant forall k :: 0 <= k < pulseCnts.Length && k != i ==> pulseCnts[k] == old(pulseCnts[k])
      decreases MaxCount - pulseCnts[i]
    {
      pulseCnts[i] := pulseCnts[i] + 1;
      if pulseCnts[i] >= MaxCount {
        RunFull(line, t0, level, MaxCount);
        return true, t;
      }
      same := line(t) == level;
      t := t + 1;
    }
    RunExact(line, t0, level, MaxCount, pulseCnts[i]);
    timedOut := false;
  }

  lemma MeasureStep(line: Line, p: nat, pairs: nat, lo: nat, hi: nat)
    requires pairs > 0
    requires lo == Run(line, p, false, MaxCount) < MaxCount
    requires hi == Run(line, p + lo + 1, true, MaxCount) < MaxCount
    ensures Measure(line, p, pairs) == Join([lo, hi], Measure(line, p + lo + 1 + hi + 1, pairs - 1))
  {
  }

  lemma MeasureStops(line: Line, p: nat, pairs: nat)
    requires pairs > 0
    requires Run(line, p, false, MaxCount) == MaxCount
          || Run(line, p + Run(line, p, false, MaxCount) + 1, true, MaxCount) == MaxCount
    ensures Measure(line, p, pairs).None?
  {
  }

  /**
   * One pass of the first loop of `read_sensor`: the low pulse into
   * `pulse_cnts[i]`, then the high pulse into `pulse_cnts[i + 1]`.
   */
  method MeasurePair(line: Line, pulseCnts: array<nat>, i: nat, t0: nat, ghost pairs: nat)
    returns (timedOut: bool, t: nat)
    requires i + 1 < pulseCnts.Length && pulseCnts[i] == 0 && pulseCnts[i + 1] == 0 && pairs > 0
    modifies pulseCnts
    ensures forall k :: 0 <= k < pulseCnts.Length && k != i && k != i + 1 ==> pulseCnts[k] == old(pulseCnts[k])
    ensures timedOut ==> Measure(line, t0, pairs).None?
    ensures !timedOut ==>
              Measure(line, t0, pairs) == Join([pulseCnts[i], pulseCnts[i + 1]], Measure(line, t, pairs - 1))
  {
    var lowTimeout, t1 := CountPulse(line, false, pulseCnts, i, t0);
    if lowTimeout {
      MeasureStops(line, t0, pairs);
      return true, t1;
    }
    var highTimeout, t2 := CountPulse(line, true, pulseCnts, i + 1, t1);
    if highTimeout {
      MeasureStops(line, t0, pairs);
      return true, t2;
    }
    MeasureStep(line, t0, pairs, pulseCnts[i], pulseCnts[i + 1]);
    return false, t2;
  }

  lemma TakeTwoMore(s: seq<nat>, i: nat)
    requires i + 2 <= |s|
    ensures s[..i + 2] == s[..i] + [s[i], s[i + 1]]
  {
  }

  /** The measurements so far, followed by one more pair, still lead to the whole. */
  lemma PairExtends(whole: Option<seq<nat>>, rest: Option<seq<nat>>, next: Option<seq<nat>>, cur: seq<nat>, i: nat)
    requires i + 2 <= |cur|
    requires whole == Join(cur[..i], rest) && rest == Join([cur[i], cur[i + 1]], next)
    ensures whole == Join(cur[..i + 2], next)
  {
    JoinJoin(cur[..i], [cur[i], cur[i + 1]], next);
    TakeTwoMore(cur, i);
  }

  /**
   * One pass of the first loop of `read_sensor`, with its bookkeeping: the
   * counts so far plus this pair still lead to the whole measurement `whole`.
   */
  method MeasureNextPair(line: Line, pulseCnts: array<nat>, i: nat, t0: nat,
                         ghost left: nat, ghost whole: Option<seq<nat>>)
    returns (timedOut: bool, t: nat)
    requires i + 2 <= pulseCnts.Length && left > 0
    requires forall k :: i <= k < pulseCnts.Length ==> pulseCnts[k] == 0
    requires whole == Join(pulseCnts[..i], Measure(line, t0, left))
    modifies pulseCnts
    ensures timedOut ==> whole.None?
    ensures !timedOut ==> whole == Join(pulseCnts[..i + 2], Measure(line, t, left - 1))
    ensures forall k :: i + 2 <= k < pulseCnts.Length ==> pulseCnts[k] == 0
  {
    ghost var prefix := pulseCnts[..i];
    ghost var rest := Measure(line, t0, left);
    timedOut, t := MeasurePair(line, pulseCnts, i, t0, left);
    if timedOut {
      return;
    }
    ghost var cur := pulseCnts[..];
    assert cur[..i] == prefix;
    PairExtends(whole, rest, Measure(line, t, left - 1), cur, i);
    assert pulseCnts[..i + 2] == cur[..i + 2];
  }

  /** The first loop of `read_sensor`: fill `pulse_cnts`, or time out. */
  method MeasurePulses(line: Line) returns (timedOut: bool, pulseCnts: array<nat>)
    ensures fresh(pulseCnts) && pulseCnts.Length == 2 * Pulses
    ensures timedOut <==> Measure(line, 0, Pulses).None?
    ensures !timedOut ==> pulseCnts[..] == Measure(line, 0, Pulses).value
  {
    pulseCnts := new nat[2 * Pulses](_ => 0);
    var t: nat := 0;
    var i: nat := 0;
    ghost var whole := Measure(line, 0, Pulses);
    assert Join([], whole) == whole by {
      if whole.Some? { assert [] + whole.value == whole.value; }
    }
    ghost var left: nat := Pulses;  // pairs still to measure
    while i < 2 * Pulses
      invariant i == 2 * (Pulses - left) && left <= Pulses
      invariant whole == Join(pulseCnts[..i], Measure(line, t, left))
      invariant forall k :: i <= k < pulseCnts.Length ==> pulseCnts[k] == 0
      decreases left
    {
      var pairTimeout;
      pairTimeout, t := MeasureNextPair(line, pulseCnts, i, t, left, whole);
      if pairTimeout {
        return true, pulseCnts;
      }
      i, left := i + 2, left - 1;
    }
    assert pulseCnts[..] == pulseCnts[..i];
    timedOut := false;
  }

  /** A line held low from the first poll for `MaxCount` polls makes the read time out. */
  lemma StuckLowTimesOut(line: Line)
    requires forall k :: 0 <= k < MaxCount ==> !line(k)
    ensures Measure(line, 0, Pulses).None?
  {
    RunFull(line, 0, false, MaxCount);
  }

  // ---------------------------------------------------------------------------
  // Threshold

  /** `s[2] + s[4] + ... + s[2 * j]`. */
  function LowSum(s: seq<nat>, j: nat): nat
    requires 2 * j < |s|
  {
    if j == 0 then 0 else LowSum(s, j - 1) + s[2 * j]
  }

  /**
   * The bit threshold: the mean length of the 40 low pulses that precede the
   * data bits (indices 2, 4, ..., 80). This is the corrected definition.
   */
  function Threshold(s: seq<nat>): (t: nat)
    requires |s| == 2 * Pulses
    ensures t * (Pulses - 1) <= LowSum(s, Pulses - 1) < (t + 1) * (Pulses - 1)
  {
    LowSum(s, Pulses - 1) / (Pulses - 1)
  }

  /** The threshold as the source computes it: indices 2..40 only, divided by 40. */
  function ThresholdAsWritten(s: seq<nat>): (t: nat)
    requires |s| == 2 * Pulses
    ensures t * (Pulses - 1) <= LowSum(s, (Pulses - 1) / 2) < (t + 1) * (Pulses - 1)
  {
    LowSum(s, (Pulses - 1) / 2) / (Pulses - 1)
  }

  lemma {:induction false} LowSumBounds(s: seq<nat>, j: nat, lo: nat, hi: nat)
    requires 2 * j < |s|
    requires forall m :: 1 <= m <= j ==> lo <= s[2 * m] <= hi
    ensures lo * j <= LowSum(s, j) <= hi * j
  {
    if j > 0 {
      LowSumBounds(s, j - 1, lo, hi);
      assert lo * j == lo * (j - 1) + lo;
      assert hi * j == hi * (j - 1) + hi;
    }
  }

  /** The (corrected) threshold lies between the shortest and the longest low pulse. */
  lemma ThresholdBetween(s: seq<nat>, lo: nat, hi: nat)
    requires |s| == 2 * Pulses
    requires forall m :: 1 <= m <= Pulses - 1 ==> lo <= s[2 * m] <= hi
    ensures lo <= Threshold(s) <= hi
  {
    LowSumBounds(s, Pulses - 1, lo, hi);
  }

  /** A read in which every low pulse lasts `len` polls (a clean DHT11 frame). */
  ghost predicate UniformLows(s: seq<nat>, len: nat)
    requires |s| == 2 * Pulses
  {
    forall m :: 1 <= m <= Pulses - 1 ==> s[2 * m] == len
  }

  /** With equal low pulses, the source's threshold is half their length, the corrected one their length. */
  lemma ThresholdsOnUniformLows(s: seq<nat>, len: nat)
    requires |s| == 2 * Pulses && UniformLows(s, len)
    ensures ThresholdAsWritten(s) == len / 2
    ensures Threshold(s) == len
  {
    LowSumBounds(s, (Pulses - 1) / 2, len, len);
    LowSumBounds(s, Pulses - 1, len, len);
  }

  /** The bit the loop decodes from pulse pair `k + 1`. */
  function DataBits(s: seq<nat>, threshold: nat): (bits: seq<bool>)
    requires |s| == 2 * Pulses
  {
    seq(40, k requires 0 <= k < 40 => s[3 + 2 * k] >= threshold)
  }

  /**
   * With the corrected threshold, a bit whose high pulse is shorter than every
   * low pulse reads 0 and one at least as long as every low pulse reads 1.
   */
  lemma BitsSeparate(s: seq<nat>, lo: nat, hi: nat, k: nat)
    requires |s| == 2 * Pulses && k < 40
    requires forall m :: 1 <= m <= Pulses - 1 ==> lo <= s[2 * m] <= hi
    ensures s[3 + 2 * k] < lo ==> !DataBits(s, Threshold(s))[k]
    ensures s[3 + 2 * k] >= hi ==> DataBits(s, Threshold(s))[k]
  {
    ThresholdBetween(s, lo, hi);
  }

  /**
   * The source's threshold misreads a clean frame: with 50-poll low pulses and
   * a 27-poll high pulse (a DHT11 zero bit), the first data bit reads 1.
   */
  lemma ThresholdAsWrittenMisreadsZero()
    ensures DataBits(ZeroTrain, ThresholdAsWritten(ZeroTrain))[0]
    ensures !DataBits(ZeroTrain, Threshold(ZeroTrain))[0]
  {
    ThresholdsOnUniformLows(ZeroTrain, 50);
  }

  /** A clean DHT11 frame of zero bits: every low pulse 50 polls, every high pulse 27. */
  const ZeroTrain: seq<nat> := seq(2 * Pulses, k => if k % 2 == 0 then 50 else 27)

  /** The second loop of `read_sensor`: average the low pulses. */
  method ComputeThreshold(pulseCnts: array<nat>) returns (threshold: nat)
    requires pulseCnts.Length == 2 * Pulses
    ensures threshold == Threshold(pulseCnts[..])
  {
    threshold := 0;
    var i := 2;
    while i < 2 * Pulses
      invariant 2 <= i <= 2 * Pulses && i % 2 == 0
      invariant threshold == LowSum(pulseCnts[..], i / 2 - 1)
    {
      threshold := threshold + pulseCnts[i];
      i := i + 2;
    }
    threshold := threshold / (Pulses - 1);
  }

  // ---------------------------------------------------------------------------
  // Bit assembly

  /** MSB first: the first bit becomes the most significant one. */
  function PackBits(bits: seq<bool>): (x: nat)
    ensures x < Pow2(|bits|)
  {
    if bits == [] then 0
    else 2 * PackBits(bits[..|bits| - 1]) + (if bits[|bits| - 1] then 1 else 0)
  }

  /** The `n` low bits of `x`, most significant first. */
  function UnpackBits(x: nat, n: nat): (bits: seq<bool>)
    ensures |bits| == n
  {
    if n == 0 then [] else UnpackBits(x / 2, n - 1) + [x % 2 == 1]
  }

  lemma {:induction false} UnpackPack(bits: seq<bool>)
    ensures UnpackBits(PackBits(bits), |bits|) == bits
  {
    if bits != [] {
      var init := bits[..|bits| - 1];
      var x := PackBits(bits);
      UnpackPack(init);
      assert x / 2 == PackBits(init);
      assert (x % 2 == 1) == bits[|bits| - 1];
      assert UnpackBits(x, |bits|) == UnpackBits(PackBits(init), |init|) + [bits[|bits| - 1]];
      assert init + [bits[|bits| - 1]] == bits;
    }
  }

  lemma {:induction false} PackUnpack(x: nat, n: nat)
    requires x < Pow2(n)
    ensures PackBits(UnpackBits(x, n)) == x
  {
    if n > 0 {
      PackUnpack(x / 2, n - 1);
      var bits := UnpackBits(x, n);
      assert bits[..n - 1] == UnpackBits(x / 2, n - 1);
    }
  }

  /** Bit `j` of the sequence is bit `|bits| - 1 - j` of the packed number. */
  lemma {:induction false} PackBitsAt(bits: seq<bool>, j: nat)
    requires j < |bits|
    ensures Bit(PackBits(bits), |bits| - 1 - j) == bits[j]
  {
    var init := bits[..|bits| - 1];
    var x := PackBits(bits);
    if j < |bits| - 1 {
      PackBitsAt(init, j);
      assert x / 2 == PackBits(init);
    }
  }

  lemma Pow2Eight()
    ensures Pow2(7) == 128 && Pow2(8) == 256
  {
  }

  lemma {:induction false} Pow2Mono(a: nat, b: nat)
    requires a <= b
    ensures Pow2(a) <= Pow2(b)
    decreases b
  {
    if a < b {
      Pow2Mono(a, b - 1);
    }
  }

  /** The bytes packed from `bits`, eight bits each, MSB first. */
  function DataBytes(bits: seq<bool>): (data: seq<byte>)
    requires |bits| % 8 == 0
    ensures |data| == |bits| / 8
    decreases |bits|
  {
    if bits == [] then []
    else
      Pow2Eight();
      [PackBits(bits[..8])] + DataBytes(bits[8..])
  }

  lemma SliceOfDrop(s: seq<bool>, d: nat, a: nat, c: nat)
    requires d <= |s| && a <= c <= |s| - d
    ensures s[d..][a..c] == s[d + a .. d + c]
  {
  }

  /** Byte `b` packs bits `8b .. 8b + 7`. */
  lemma {:induction false} DataBytesAt(bits: seq<bool>, b: nat)
    requires |bits| % 8 == 0 && b < |bits| / 8
    ensures DataBytes(bits)[b] == PackBits(bits[8 * b .. 8 * b + 8])
    decreases b
  {
    if b > 0 {
      var rest := bits[8..];
      var lo := 8 * (b - 1);
      DataBytesAt(rest, b - 1);
      assert DataBytes(bits)[b] == DataBytes(rest)[b - 1];
      SliceOfDrop(bits, 8, lo, lo + 8);
    }
  }

  /** Bit `k` of the frame lands in byte `k / 8` at position `7 - k % 8`. */
  lemma DataBitPosition(bits: seq<bool>, k: nat)
    requires |bits| == 40 && k < 40
    ensures Bit(DataBytes(bits)[k / 8], 7 - k % 8) == bits[k]
  {
    var b := k / 8;
    DataBytesAt(bits, b);
    PackBitsAt(bits[8 * b .. 8 * b + 8], k % 8);
  }

  /** The bytes after the first `k` bits have been shifted in. */
  function PartialBytes(bits: seq<bool>, k: nat): (data: seq<nat>)
    requires |bits| == 40 && k <= 40
    ensures |data| == 5
  {
    seq(5, b requires 0 <= b < 5 =>
      PackBits(bits[if 8 * b < k then 8 * b else k .. if 8 * b + 8 < k then 8 * b + 8 else k]))
  }

  lemma PartialStep(bits: seq<bool>, k: nat)
    requires |bits| == 40 && k < 40
    ensures PartialBytes(bits, k)[k / 8] < 128
    ensures PartialBytes(bits, k + 1)
         == PartialBytes(bits, k)[k / 8 := 2 * PartialBytes(bits, k)[k / 8] + (if bits[k] then 1 else 0)]
  {
    var b := k / 8;
    var cur, next := PartialBytes(bits, k), PartialBytes(bits, k + 1);
    PartialByteStep(bits, k);
    forall c | 0 <= c < 5 && c != b
      ensures next[c] == cur[c]
    {
      if c > b {
        assert next[c] == PackBits([]) && cur[c] == PackBits([]);
      }
    }
  }

  /** Shifting bit `k` into the byte it belongs to. */
  lemma PartialByteStep(bits: seq<bool>, k: nat)
    requires |bits| == 40 && k < 40
    ensures PartialBytes(bits, k)[k / 8] < 128
    ensures PartialBytes(bits, k + 1)[k / 8] == 2 * PartialBytes(bits, k)[k / 8] + (if bits[k] then 1 else 0)
  {
    var b := k / 8;
    var part := bits[8 * b .. k];
    Pow2Mono(|part|, 7);
    Pow2Eight();
    var longer := bits[8 * b .. k + 1];
    assert longer[..|part|] == part && longer[|longer| - 1] == bits[k];
  }

  lemma PartialBytesStart(bits: seq<bool>)
    requires |bits| == 40
    ensures PartialBytes(bits, 0) == [0, 0, 0, 0, 0]
  {
    var z := PartialBytes(bits, 0);
    forall b | 0 <= b < 5
      ensures z[b] == 0
    {
      assert bits[0..0] == [];
    }
  }

  lemma PartialBytesEnd(bits: seq<bool>)
    requires |bits| == 40
    ensures PartialBytes(bits, 40) == DataBytes(bits)
  {
    forall b | 0 <= b < 5
      ensures PartialBytes(bits, 40)[b] == DataBytes(bits)[b]
    {
      DataBytesAt(bits, b);
    }
  }

  /** `data[idx] <<= 1`, then `data[idx] |= 1` when the bit is set. */
  method ShiftIn(data: array<byte>, idx: nat, bit: bool)
    requires idx < data.Length && data[idx] < 128
    modifies data
    ensures data[..] == old(data[..])[idx := 2 * old(data[idx]) + (if bit then 1 else 0)]
  {
    data[idx] := (data[idx] * 2) % 256;
    if bit {
      data[idx] := data[idx] + 1;  // `|= 1` on a value whose low bit was just shifted in as 0
    }
  }

  /** `ShiftIn` of bit `k` of `bits`, into the byte that holds it. */
  method ShiftInBit(data: array<byte>, idx: nat, bit: bool, ghost bits: seq<bool>, ghost k: nat)
    requires |bits| == 40 && k < 40 && idx == k / 8 && bit == bits[k]
    requires data.Length == 5 && data[..] == PartialBytes(bits, k)
    modifies data
    ensures data[..] == PartialBytes(bits, k + 1)
  {
    PartialStep(bits, k);
    ShiftIn(data, idx, bit);
  }

  /** The third loop of `read_sensor`: shift each bit into its byte. */
  method AssembleBytes(pulseCnts: array<nat>, threshold: nat) returns (data: array<byte>)
    requires pulseCnts.Length == 2 * Pulses
    ensures fresh(data) && data.Length == 5
    ensures data[..] == DataBytes(DataBits(pulseCnts[..], threshold))
  {
    data := new byte[5](_ => 0);
    ghost var bits := DataBits(pulseCnts[..], threshold);
    PartialBytesStart(bits);
    assert data[..] == PartialBytes(bits, 0);
    var i := 3;
    ghost var k := 0;  // the bit being shifted in
    while i < 2 * Pulses
      invariant i == 3 + 2 * k && k <= 40
      invariant data[..] == PartialBytes(bits, k)
    {
      assert bits[k] == (pulseCnts[i] >= threshold);
      ShiftInBit(data, (i - 3) / 16, pulseCnts[i] >= threshold, bits, k);
      i, k := i + 2, k + 1;
    }
    PartialBytesEnd(bits);
  }

  // ---------------------------------------------------------------------------
  // Checksum

  function PrefixSum(d: seq<byte>, n: nat): nat
    requires n <= |d|
  {
    if n == 0 then 0 else PrefixSum(d, n - 1) + d[n - 1]
  }

  /** The sum of the four data bytes, as an unbounded integer. */
  function Sum4(d: seq<byte>): nat
    requires |d| == 5
  {
    PrefixSum(d, 4)
  }

  lemma {:induction false} PrefixSumMono(d: seq<byte>, m: nat, n: nat)
    requires m <= n <= |d|
    ensures PrefixSum(d, m) <= PrefixSum(d, n)
    decreases n
  {
    if m < n {
      PrefixSumMono(d, m, n - 1);
    }
  }

  /**
   * The checksum loop with `u8 +=`, which panics on overflow in a debug build:
   * it overflows exactly when the four bytes sum past 255.
   */
  method SumChecksum(data: array<byte>) returns (overflow: bool, checksum: byte)
    requires data.Length == 5
    ensures overflow <==> Sum4(data[..]) > 255
    ensures !overflow ==> checksum == Sum4(data[..])
  {
    checksum := 0;
    var i := 0;
    while i < 4
      invariant 0 <= i <= 4
      invariant checksum == PrefixSum(data[..], i)
    {
      if checksum + data[i] > 255 {
        PrefixSumMono(data[..], i + 1, 4);
        return true, checksum;
      }
      checksum := checksum + data[i];
      i := i + 1;
    }
    overflow := false;
  }

  // ---------------------------------------------------------------------------
  // The whole read

  datatype Frame = TimedOut | Received(data: seq<byte>)

  /** The five bytes the pulse counts `cnts` decode to under a given bit threshold. */
  function Decoded(cnts: seq<nat>, threshold: nat): (d: seq<byte>)
    requires |cnts| == 2 * Pulses
    ensures |d| == 5
  {
    DataBytes(DataBits(cnts, threshold))
  }

  /** The bytes `read_sensor` assembles from the line, or a timeout. */
  function Receive(line: Line): (f: Frame)
    ensures f.Received? ==> |f.data| == 5
  {
    match Measure(line, 0, Pulses)
    case None => TimedOut
    case Some(cnts) => Received(Decoded(cnts, Threshold(cnts)))
  }

  /** Outcome of `read_sensor`: a code, or the panic of the overflowing `u8` checksum. */
  datatype ReadResult = Returned(code: int) | Panicked

  /** The checksum step of `read_sensor` on five received bytes. */
  function ChecksumVerdict(d: seq<byte>): ReadResult
    requires |d| == 5
  {
    if Sum4(d) > 255 then Panicked
    else if Sum4(d) != d[4] then Returned(StateCode(ErrorChecksum))
    else Returned(StateCode(Ok))
  }

  /** `read_sensor` on a line: a timeout code, or the checksum verdict on the bytes received. */
  function ReadOutcome(line: Line): (r: ReadResult)
    ensures r.Returned? ==> r.code in {StateCode(Ok), StateCode(ErrorChecksum), StateCode(ErrorTimeout)}
    ensures r == Returned(StateCode(ErrorTimeout)) <==> Receive(line).TimedOut?
  {
    match Receive(line)
    case TimedOut => Returned(StateCode(ErrorTimeout))
    case Received(d) => ChecksumVerdict(d)
  }

  /** The codes of `read_sensor` and what each one means. */
  lemma ReadOutcomeMeaning(line: Line)
    ensures ReadOutcome(line) == Returned(-2) <==> Measure(line, 0, Pulses).None?
    ensures ReadOutcome(line) == Returned(-1)
        <==> Receive(line).Received? && Sum4(Receive(line).data) <= 255
             && Sum4(Receive(line).data) != Receive(line).data[4]
    ensures ReadOutcome(line) == Returned(0)
        <==> Receive(line).Received? && Sum4(Receive(line).data) == Receive(line).data[4]
    ensures ReadOutcome(line) == Panicked
        <==> Receive(line).Received? && Sum4(Receive(line).data) > 255
    ensures ReadOutcome(line).Returned? ==> StateCode(StateFromCode(ReadOutcome(line).code)) == ReadOutcome(line).code
  {
  }

  /** A frame whose bits are all `b` packs to five equal bytes, all ones or all zeros. */
  lemma DataBytesConstant(bits: seq<bool>, b: bool)
    requires |bits| == 40
    requires forall k :: 0 <= k < 40 ==> bits[k] == b
    ensures DataBytes(bits) == seq(5, _ => if b then 255 else 0)
  {
    Pow2Eight();
    forall j | 0 <= j < 5
      ensures DataBytes(bits)[j] == if b then 255 else 0
    {
      DataBytesAt(bits, j);
      PackConstant(bits[8 * j .. 8 * j + 8], b);
    }
  }

  lemma {:induction false} PackConstant(bits: seq<bool>, b: bool)
    requires forall k :: 0 <= k < |bits| ==> bits[k] == b
    ensures PackBits(bits) == if b then Pow2(|bits|) - 1 else 0
    decreases |bits|
  {
    if bits != [] {
      PackConstant(bits[..|bits| - 1], b);
    }
  }

  /**
   * On the clean zero frame `ZeroTrain` the source's threshold (25) reads
   * every bit as 1, so the four data bytes are 255 and the `u8` checksum
   * overflows: `read_sensor` panics as written. The corrected threshold (50)
   * reads five zero bytes, whose checksum matches.
   */
  lemma ZeroTrainPanicsAsWritten()
    ensures Decoded(ZeroTrain, ThresholdAsWritten(ZeroTrain)) == [255, 255, 255, 255, 255]
    ensures ChecksumVerdict(Decoded(ZeroTrain, ThresholdAsWritten(ZeroTrain))) == Panicked
    ensures Decoded(ZeroTrain, Threshold(ZeroTrain)) == [0, 0, 0, 0, 0]
    ensures ChecksumVerdict(Decoded(ZeroTrain, Threshold(ZeroTrain))) == Returned(StateCode(Ok))
  {
    ThresholdsOnUniformLows(ZeroTrain, 50);
    DataBytesConstant(DataBits(ZeroTrain, 25), true);
    DataBytesConstant(DataBits(ZeroTrain, 50), false);
    var ones: seq<byte> := [255, 255, 255, 255, 255];
    var zeros: seq<byte> := [0, 0, 0, 0, 0];
    assert PrefixSum(ones, 2) == 510 && Sum4(ones) == 1020;
    assert PrefixSum(zeros, 2) == 0 && Sum4(zeros) == 0;
  }

  /**
   * A line that delivers the zero frame reads as a success with a zero
   * reading in the model, where the source as written panics.
   */
  lemma ZeroTrainReadsZero(line: Line)
    requires Measure(line, 0, Pulses) == Some(ZeroTrain)
    ensures ReadOutcome(line) == Returned(StateCode(Ok))
    ensures AttemptOf(line) == Success(0.0, 0.0)
  {
    ZeroTrainPanicsAsWritten();
  }

  /** Humidity: integral byte plus tenths byte. */
  function HumidityOf(d: seq<byte>): real
    requires |d| == 5
  {
    d[0] as real + d[1] as real * 0.1
  }

  /** Temperature in Celsius: integral byte plus tenths byte. */
  function TempOf(d: seq<byte>): real
    requires |d| == 5
  {
    d[2] as real + d[3] as real * 0.1
  }

  /** What `update` reports; a success carries the reading it stored. */
  datatype Attempt = Success(temp: real, humidity: real) | Failure(code: int) | Panic

  /**
   * `update` on a line: a panic stays a panic, a non-zero code is a failure
   * with that code, and code 0 stores the temperature and humidity bytes.
   */
  function AttemptOf(line: Line): (r: Attempt)
    ensures r.Panic? <==> ReadOutcome(line) == Panicked
    ensures r.Failure? ==> r.code != StateCode(Ok) && ReadOutcome(line) == Returned(r.code)
    ensures r.Success? ==> Receive(line).Received?
    ensures r.Success? ==> r == Success(TempOf(Receive(line).data), HumidityOf(Receive(line).data))
  {
    match ReadOutcome(line)
    case Panicked => Panic
    case Returned(code) =>
      if code != StateCode(Ok) then Failure(code)
      else Success(TempOf(Receive(line).data), HumidityOf(Receive(line).data))
  }

  /** A success is exactly a frame that arrived with a matching, non-overflowing checksum. */
  lemma AttemptOfMeaning(line: Line)
    ensures AttemptOf(line).Success?
        <==> Receive(line).Received? && Sum4(Receive(line).data) == Receive(line).data[4]
    ensures AttemptOf(line).Panic? <==> ReadOutcome(line) == Panicked
    ensures AttemptOf(line).Failure? ==> AttemptOf(line).code in {StateCode(ErrorChecksum), StateCode(ErrorTimeout)}
  {
    ReadOutcomeMeaning(line);
  }

  /**
   * One round of the self-test: the data line as that attempt's polls see it,
   * and the wall-clock time `SystemTime::now()` gives on success.
   */
  datatype Round = Round(line: Line, time: nat)

  /**
   * `r` is what `update` reports on `line`, i.e. `r == AttemptOf(line)`
   * (`YieldsIff`). It is phrased through a bound variable so that stating it
   * does not make the verifier evaluate the whole read.
   */
  ghost predicate Yields(line: Line, r: Attempt)
  {
    forall l :: l == line ==> AttemptOf(l) == r
  }

  lemma YieldsIff(line: Line, r: Attempt)
    ensures Yields(line, r) <==> r == AttemptOf(line)
  {
  }

  /** The number of successes among `atts`. */
  function CountSuccesses(atts: seq<Attempt>): (c: nat)
    ensures c <= |atts|
  {
    if atts == [] then 0
    else CountSuccesses(atts[..|atts| - 1]) + (if atts[|atts| - 1].Success? then 1 else 0)
  }

  function Repeat(e: EventType, n: nat): (s: seq<EventType>)
    ensures |s| == n && forall k :: 0 <= k < n ==> s[k] == e
  {
    if n == 0 then [] else Repeat(e, n - 1) + [e]
  }

  /**
   * The readings published for the attempts `atts` of the first rounds, in
   * order: one per success, stamped with its round's time.
   */
  function Readings(atts: seq<Attempt>, rounds: seq<Round>): (rs: seq<DHTData>)
    requires |atts| <= |rounds|
    ensures |rs| == CountSuccesses(atts)
  {
    if atts == [] then []
    else
      var k := |atts| - 1;
      Readings(atts[..k], rounds)
      + (if atts[k].Success? then [DHTData(atts[k].temp, atts[k].humidity, Some(rounds[k].time))] else [])
  }

  /** What one more attempt adds to the record. */
  lemma RecordStep(rounds: seq<Round>, atts: seq<Attempt>, r: Attempt)
    requires |atts| < |rounds|
    ensures CountSuccesses(atts + [r]) == CountSuccesses(atts) + (if r.Success? then 1 else 0)
    ensures Readings(atts + [r], rounds)
         == Readings(atts, rounds)
            + (if r.Success? then [DHTData(r.temp, r.humidity, Some(rounds[|atts|].time))] else [])
  {
    assert (atts + [r])[..|atts|] == atts;
  }

  /**
   * Every published reading is valid and is the reading of some successful
   * attempt, stamped with that round's time.
   */
  lemma {:induction false} ReadingsFromSuccesses(atts: seq<Attempt>, rounds: seq<Round>)
    requires |atts| <= |rounds|
    ensures forall p :: p in Readings(atts, rounds) ==>
              p.IsValid()
              && exists a :: 0 <= a < |atts| && atts[a].Success?
                             && p == DHTData(atts[a].temp, atts[a].humidity, Some(rounds[a].time))
  {
    if atts != [] {
      var k := |atts| - 1;
      var init := atts[..k];
      ReadingsFromSuccesses(init, rounds);
      forall p | p in Readings(atts, rounds)
        ensures p.IsValid()
        ensures exists a :: 0 <= a < |atts| && atts[a].Success?
                            && p == DHTData(atts[a].temp, atts[a].humidity, Some(rounds[a].time))
      {
        if p in Readings(init, rounds) {
          var a :| 0 <= a < |init| && init[a].Success?
                   && p == DHTData(init[a].temp, init[a].humidity, Some(rounds[a].time));
          assert atts[a] == init[a];
        } else {
          assert atts[k].Success? && p == DHTData(atts[k].temp, atts[k].humidity, Some(rounds[k].time));
        }
      }
    }
  }

  /** The time stamp of the last reading published, or `before` when there is none. */
  function LatestStamp(published: seq<DHTData>, before: Option<nat>): Option<nat>
  {
    if published == [] then before else published[|published| - 1].lastUpdated
  }

  /** A non-panicking attempt of the next round keeps every recorded attempt a non-panicking one of its round. */
  lemma AttemptsExtend(rounds: seq<Round>, atts: seq<Attempt>, r: Attempt)
    requires |atts| < |rounds|
    requires forall a :: 0 <= a < |atts| ==> Yields(rounds[a].line, atts[a])
    requires forall a :: 0 <= a < |atts| ==> !atts[a].Panic?
    requires Yields(rounds[|atts|].line, r) && !r.Panic?
    ensures forall a :: 0 <= a < |atts| + 1 ==> Yields(rounds[a].line, (atts + [r])[a])
    ensures forall a :: 0 <= a < |atts| + 1 ==> !(atts + [r])[a].Panic?
  {
    forall a | 0 <= a < |atts| + 1
      ensures Yields(rounds[a].line, (atts + [r])[a]) && !(atts + [r])[a].Panic?
    {
      if a < |atts| {
        assert (atts + [r])[a] == atts[a];
      }
    }
  }

  class DHT {
    var humidity: real
    var temp: real
    var lastUpdate: Option<nat>

    constructor ()
      ensures humidity == 0.0 && temp == 0.0 && lastUpdate == None
    {
      humidity := 0.0;
      temp := 0.0;
      lastUpdate := None;
    }

    /** `read_sensor` after the wake-up handshake. */
    method ReadSensor(line: Line) returns (r: ReadResult)
      modifies this
      ensures r == ReadOutcome(line)
      ensures Receive(line).Received? ==>
                humidity == HumidityOf(Receive(line).data) && temp == TempOf(Receive(line).data)
      ensures Receive(line).TimedOut? ==> humidity == old(humidity) && temp == old(temp)
      ensures lastUpdate == old(lastUpdate)
    {
      var timedOut, pulseCnts := MeasurePulses(line);
      if timedOut {
        return Returned(StateCode(ErrorTimeout));
      }
      var threshold := ComputeThreshold(pulseCnts);
      var data := AssembleBytes(pulseCnts, threshold);
      humidity := data[0] as real + data[1] as real * 0.1;
      temp := data[2] as real + data[3] as real * 0.1;
      var overflow, checksum := SumChecksum(data);
      if overflow {
        return Panicked;
      }
      if checksum != data[4] {
        return Returned(StateCode(ErrorChecksum));
      }
      return Returned(StateCode(Ok));
    }

    /** `update`: a failed read leaves -999 in both readings. */
    method Update(line: Line) returns (r: Attempt)
      modifies this
      ensures Yields(line, r)
      ensures r.Failure? ==> humidity == -999.0 && temp == -999.0 && r.code != 0
      ensures r.Success? ==> humidity == r.humidity && temp == r.temp
      ensures lastUpdate == old(lastUpdate)
    {
      var readRet := ReadSensor(line);
      if readRet.Panicked? {
        return Panic;
      }
      if readRet.code != StateCode(Ok) {
        humidity := StateCode(InvalidValue) as real;
        temp := StateCode(InvalidValue) as real;
        return Failure(readRet.code);
      }
      return Success(temp, humidity);
    }

    /**
     * The self-test loop of `start_reading`: round `n` reads `rounds[n]`.
     * Returns what it sends on the event and payload channels, and (as ghost
     * `atts`) the attempts made. A checksum overflow panics and ends the
     * thread before the `Exit` event.
     */
    method StartReading(rounds: seq<Round>)
      returns (events: seq<EventType>, payloads: seq<DHTData>, successes: nat, errors: nat,
               ghost atts: seq<Attempt>)
      requires |rounds| == SelfTestAttempts
      modifies this
      ensures |atts| == successes + errors <= SelfTestAttempts
      ensures forall a :: 0 <= a < |atts| ==> Yields(rounds[a].line, atts[a])
      ensures forall a :: 0 <= a < |atts| ==> !atts[a].Panic?
      ensures |atts| == SelfTestAttempts || Yields(rounds[|atts|].line, Panic)
      ensures successes == CountSuccesses(atts)
      ensures events == Repeat(SensorRead, successes)
                        + (if |atts| == SelfTestAttempts then [Exit] else [])
      ensures payloads == Readings(atts, rounds)
      ensures lastUpdate == LatestStamp(payloads, old(lastUpdate))
    {
      successes, errors := 0, 0;
      events, payloads := [], [];
      atts := [];
      var panicked := false;
      while true
        invariant |atts| == successes + errors < SelfTestAttempts
        invariant forall a :: 0 <= a < |atts| ==> Yields(rounds[a].line, atts[a])
        invariant forall a :: 0 <= a < |atts| ==> !atts[a].Panic?
        invariant payloads == Readings(atts, rounds)
        invariant successes == |payloads|
        invariant events == Repeat(SensorRead, successes)
        invariant lastUpdate == LatestStamp(payloads, old(lastUpdate))
        decreases SelfTestAttempts - (successes + errors)
      {
        var n := successes + errors;
        var r := Update(rounds[n].line);
        if r.Panic? {
          panicked := true;
          break;
        }
        RecordStep(rounds, atts, r);
        AttemptsExtend(rounds, atts, r);
        atts := atts + [r];
        if r.Success? {
          successes := successes + 1;
          lastUpdate := Some(rounds[n].time);
          events := events + [SensorRead];
          payloads := payloads + [DHTData(temp, humidity, lastUpdate)];
        } else {
          errors := errors + 1;
        }
        if successes + errors == SelfTestAttempts {
          break;
        }
      }
      if !panicked {
        events := events + [Exit];
      }
    }
  }
}
