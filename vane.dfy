/**
 * The wind vane (src/hardware/vane.rs): a 16-position resistor ladder read
 * through a 10-bit ADC. The raw ADC reply is turned into a voltage, the
 * voltage into the nearest ladder position (first position wins a tie), and
 * the position into an angle and a compass label. Voltages and angles are
 * modelled as `real`.
 */
module Vane {
  import opened Base

  const BufferSize: nat := 16
  const InputVoltage: real := 3.3
  const OutputResistance: nat := 5100
  const VaneCalibrationAmount: real := 0.0
  /** `min_diff` starts here, so a position further than this is never chosen. */
  const InitialMinDiff: real := 999.0
  const Positions: nat := 16
  /** Degrees between neighbouring ladder positions. */
  const Step: real := 22.5

  const Resistances: seq<nat> := [
    33000, 6570, 8200, 891,
    1000, 688, 2200, 1410,
    3900, 3140, 16000, 14120,
    120000, 42120, 64900, 21880
  ]

  const Directions: seq<string> := [
    "N", "NNE", "NE", "ENE",
    "E", "ESE", "SE", "SSE",
    "S", "SSW", "SW", "WSW",
    "W", "WNW", "NW", "NNW"
  ]

  // ---------------------------------------------------------------------
  // Voltage from the ADC reply
  // ---------------------------------------------------------------------

  /**
   * The 10-bit conversion result: byte 2 is the low eight bits and the two
   * low bits of byte 1 are bits 8 and 9.
   */
  function AdcCode(b1: byte, b2: byte): (code: nat)
    ensures code <= 1023
    ensures code % 256 == b2 && code / 256 == b1 % 4
  {
    (b1 % 4) * 256 + b2
  }

  /** Every 10-bit code is produced by its own high and low bytes. */
  lemma AdcCodeRoundTrip(code: nat)
    requires code <= 1023
    ensures AdcCode(code / 256, code % 256) == code
  {
  }

  /** `code / 1023 * 3.3`. */
  function Voltage(code: nat): (v: real)
    requires code <= 1023
    ensures 0.0 <= v <= InputVoltage
    ensures code == 0 ==> v == 0.0
    ensures code == 1023 ==> v == InputVoltage
  {
    code as real / 1023.0 * InputVoltage
  }

  /** A larger code never reads as a lower voltage. */
  lemma VoltageMonotone(a: nat, b: nat)
    requires a <= b <= 1023
    ensures Voltage(a) <= Voltage(b)
  {
    assert Voltage(b) - Voltage(a) == (b - a) as real / 1023.0 * InputVoltage;
  }

  // ---------------------------------------------------------------------
  // Nearest ladder position
  // ---------------------------------------------------------------------

  /** The series-resistance (voltage divider) output of ladder position `i`. */
  function LadderVoltage(i: nat): (v: real)
    requires i < Positions
    ensures 0.0 < v < InputVoltage
  {
    var r := Resistances[i] as real;
    var total := (Resistances[i] + OutputResistance) as real;
    assert r / total < 1.0 by {
      assert r < total;
    }
    InputVoltage * r / total
  }

  function Abs(x: real): real
  {
    if x < 0.0 then -x else x
  }

  /** How far `v` is from position `i`'s voltage. */
  function Diff(v: real, i: nat): real
    requires i < Positions
  {
    Abs(v - LadderVoltage(i))
  }

  /** Position `i` is at least as close to `v` as every other position. */
  ghost predicate IsClosest(v: real, i: nat)
    requires i < Positions
  {
    forall j :: 0 <= j < Positions ==> Diff(v, i) <= Diff(v, j)
  }

  /** Position `i` is a closest position and beats the initial `min_diff`. */
  ghost predicate Eligible(v: real, i: nat)
    requires i < Positions
  {
    Diff(v, i) < InitialMinDiff && IsClosest(v, i)
  }

  /** Some position is closer than the initial `min_diff`. */
  ghost predicate HasCandidate(v: real)
  {
    exists j :: 0 <= j < Positions && Diff(v, j) < InitialMinDiff
  }

  /**
   * Reference definition of the chosen position: the first index, from `i`
   * on, that is a global closest position and beats the initial `min_diff`;
   * position 0 when there is none.
   */
  ghost function FirstClosestFrom(v: real, i: nat): (idx: nat)
    requires i <= Positions
    ensures idx < Positions
    decreases Positions - i
  {
    if i == Positions then 0
    else if Eligible(v, i) then i
    else FirstClosestFrom(v, i + 1)
  }

  ghost function Nearest(v: real): (idx: nat)
    ensures idx < Positions
  {
    FirstClosestFrom(v, 0)
  }

  /** Given an eligible position `w` from `i` on, the search stops at or before it. */
  lemma {:induction false} FirstClosestFromFinds(v: real, i: nat, w: nat)
    requires i <= w < Positions && Eligible(v, w)
    ensures i <= FirstClosestFrom(v, i) <= w && Eligible(v, FirstClosestFrom(v, i))
    ensures forall j :: i <= j < FirstClosestFrom(v, i) ==> !Eligible(v, j)
    decreases Positions - i
  {
    if !Eligible(v, i) {
      FirstClosestFromFinds(v, i + 1, w);
    }
  }

  /** When any position beats `min_diff`, a closest one does too. */
  lemma ClosestExists(v: real) returns (best: nat)
    requires HasCandidate(v)
    ensures best < Positions && Eligible(v, best)
  {
    var near :| 0 <= near < Positions && Diff(v, near) < InitialMinDiff;
    best := 0;
    var k: nat := 1;
    while k < Positions
      invariant 1 <= k <= Positions && best < k
      invariant forall j :: 0 <= j < k ==> Diff(v, best) <= Diff(v, j)
    {
      if Diff(v, k) < Diff(v, best) {
        best := k;
      }
      k := k + 1;
    }
    assert Diff(v, best) <= Diff(v, near);
  }

  /**
   * The chosen position is a closest one, beats the initial `min_diff`, and
   * every earlier position is strictly further away (ties go to the lowest
   * index); with no position within `min_diff`, position 0 is kept.
   */
  lemma NearestMeaning(v: real)
    ensures HasCandidate(v) ==>
      Diff(v, Nearest(v)) < InitialMinDiff && IsClosest(v, Nearest(v)) &&
      forall j :: 0 <= j < Nearest(v) ==> Diff(v, j) > Diff(v, Nearest(v))
    ensures !HasCandidate(v) ==> Nearest(v) == 0
  {
    if HasCandidate(v) {
      var w := ClosestExists(v);
      FirstClosestFromFinds(v, 0, w);
      var idx := Nearest(v);
      forall j | 0 <= j < idx
        ensures Diff(v, j) > Diff(v, idx)
      {
        assert !Eligible(v, j);
        if Diff(v, j) <= Diff(v, idx) {
          assert IsClosest(v, j);
        }
      }
    } else {
      NoCandidateFallsBack(v, 0);
    }
  }

  lemma {:induction false} NoCandidateFallsBack(v: real, i: nat)
    requires i <= Positions && !HasCandidate(v)
    ensures FirstClosestFrom(v, i) == 0
    decreases Positions - i
  {
    if i < Positions {
      assert !(Diff(v, i) < InitialMinDiff);
      NoCandidateFallsBack(v, i + 1);
    }
  }

  /**
   * Conversely, any position with the properties of `NearestMeaning` is the
   * chosen one.
   */
  lemma {:induction false} NearestUnique(v: real, idx: nat)
    requires idx < Positions && Diff(v, idx) < InitialMinDiff && IsClosest(v, idx)
    requires forall j :: 0 <= j < idx ==> Diff(v, j) > Diff(v, idx)
    ensures Nearest(v) == idx
  {
    FirstClosestSkips(v, 0, idx);
  }

  lemma {:induction false} FirstClosestSkips(v: real, i: nat, idx: nat)
    requires i <= idx < Positions && Diff(v, idx) < InitialMinDiff && IsClosest(v, idx)
    requires forall j :: i <= j < idx ==> Diff(v, j) > Diff(v, idx)
    ensures FirstClosestFrom(v, i) == idx
    decreases idx - i
  {
    if i < idx {
      assert Diff(v, i) > Diff(v, idx);
      assert !IsClosest(v, i);
      FirstClosestSkips(v, i + 1, idx);
    }
  }

  /** Every voltage the ADC can report is within `min_diff` of some position. */
  lemma AdcVoltageHasCandidate(code: nat)
    requires code <= 1023
    ensures HasCandidate(Voltage(code))
  {
    assert Diff(Voltage(code), 0) < InitialMinDiff;
  }

  // ---------------------------------------------------------------------
  // Angle and label
  // ---------------------------------------------------------------------

  /** One turn is subtracted from an angle of a full turn or more. */
  function Wrap(dir: real): (w: real)
    ensures 0.0 <= dir < 720.0 ==> 0.0 <= w < 360.0
    ensures w == dir || w == dir - 360.0
  {
    if dir >= 360.0 then dir - 360.0 else dir
  }

  /** The angle reported for ladder position `idx`. */
  function Angle(idx: nat): (r: real)
    ensures idx < Positions ==> 0.0 <= r < 360.0
  {
    Wrap(idx as real * Step + VaneCalibrationAmount)
  }

  /** With no calibration offset the angle is the position times 22.5 degrees. */
  lemma AngleOfPosition(idx: nat)
    requires idx < Positions
    ensures Angle(idx) == idx as real * Step
    ensures 0.0 <= Angle(idx) < 360.0
  {
  }

  /**
   * `find_direction_by_voltage`: scan the 16 positions keeping the first
   * strictly smaller difference, then turn the position into an angle.
   */
  method FindDirectionByVoltage(voltage: real) returns (dir: real)
    ensures dir == Angle(Nearest(voltage))
  {
    var idx: nat := 0;
    var minDiff := InitialMinDiff;
    for i := 0 to Positions
      invariant idx < Positions && (idx < i || idx == 0)
      invariant minDiff <= InitialMinDiff
      invariant minDiff == InitialMinDiff || (idx < i && minDiff == Diff(voltage, idx))
      invariant minDiff == InitialMinDiff ==> idx == 0
      invariant forall j :: 0 <= j < i ==> minDiff <= Diff(voltage, j)
      invariant forall j :: 0 <= j < idx ==> Diff(voltage, j) > minDiff
    {
      var calcVoltage := InputVoltage * Resistances[i] as real / (Resistances[i] + OutputResistance) as real;
      var diff := Abs(voltage - calcVoltage);
      if diff < minDiff {
        idx := i;
        minDiff := diff;
      }
    }
    ScanResult(voltage, idx, minDiff);
    dir := idx as real * Step + VaneCalibrationAmount;
    if dir >= 360.0 {
      dir := dir - 360.0;
    }
  }

  /** The state the scan ends in is exactly the reference position. */
  lemma ScanResult(v: real, idx: nat, minDiff: real)
    requires idx < Positions && minDiff <= InitialMinDiff
    requires minDiff == InitialMinDiff || minDiff == Diff(v, idx)
    requires minDiff == InitialMinDiff ==> idx == 0
    requires forall j :: 0 <= j < Positions ==> minDiff <= Diff(v, j)
    requires forall j :: 0 <= j < idx ==> Diff(v, j) > minDiff
    ensures Nearest(v) == idx
  {
    if minDiff < InitialMinDiff {
      NearestUnique(v, idx);
    } else {
      assert !HasCandidate(v);
      NoCandidateFallsBack(v, 0);
    }
  }

  /**
   * `get_dir_as_string`: `DIRECTIONS[(dir / 22.5) as usize]`. The float to
   * `usize` cast truncates and saturates negative values at 0; an index of
   * 16 or more panics, modelled as `None`.
   */
  function Label(dir: real): (name: Option<string>)
    ensures name.Some? <==> dir < 360.0
  {
    var q := dir / Step;
    var i := if q < 0.0 then 0 else q.Floor;
    if i < Positions then Some(Directions[i]) else None
  }

  /** Position `idx`'s angle is labelled with position `idx`'s compass point. */
  lemma LabelOfPosition(idx: nat)
    requires idx < Positions
    ensures Label(Angle(idx)) == Some(Directions[idx])
  {
    AngleOfPosition(idx);
    assert Angle(idx) / Step == idx as real;
  }

  // ---------------------------------------------------------------------
  // Readings and the sensor
  // ---------------------------------------------------------------------

  datatype WindVaneData = WindVaneData(direction: real, lastUpdated: Option<nat>)
  {
    predicate IsValid()
    {
      lastUpdated.Some?
    }
  }

  /** The direction the vane settles on for ADC reply bytes 1 and 2. */
  ghost function DirectionOf(b1: byte, b2: byte): real
  {
    Angle(Nearest(Voltage(AdcCode(b1, b2))))
  }

  /** Every reply decodes to a labelled compass point in [0, 360). */
  lemma DirectionOfLabelled(b1: byte, b2: byte)
    ensures 0.0 <= DirectionOf(b1, b2) < 360.0
    ensures Label(DirectionOf(b1, b2)) == Some(Directions[Nearest(Voltage(AdcCode(b1, b2)))])
  {
    var idx := Nearest(Voltage(AdcCode(b1, b2)));
    AngleOfPosition(idx);
    LabelOfPosition(idx);
  }

  class WindVane {
    var voltage: real
    var direction: real
    const buf: array<byte>

    predicate Valid()
      reads this
    {
      buf.Length == BufferSize
    }

    constructor ()
      ensures Valid() && voltage == 0.0 && direction == 0.0
      ensures fresh(buf) && forall k :: 0 <= k < buf.Length ==> buf[k] == 0
    {
      voltage, direction := 0.0, 0.0;
      buf := new byte[BufferSize](_ => 0);
    }

    /**
     * `parse_bits`: decode the first `bytesRead` bytes of the buffer. Fewer
     * than three bytes make the slice index panic, which leaves the fields
     * as they were.
     */
    method ParseBits(bytesRead: nat) returns (panicked: bool)
      requires Valid() && bytesRead <= buf.Length
      modifies this
      ensures panicked <==> bytesRead < 3
      ensures panicked ==> voltage == old(voltage) && direction == old(direction)
      ensures !panicked ==> voltage == Voltage(AdcCode(buf[1], buf[2]))
                            && direction == DirectionOf(buf[1], buf[2])
    {
      if bytesRead < 3 {
        return true;
      }
      var retVal := AdcCode(buf[1], buf[2]);
      voltage := retVal as real / 1023.0 * InputVoltage;
      direction := FindDirectionByVoltage(voltage);
      return false;
    }

    /**
     * `update_data`: the ADC transfer writes `reply` into the buffer, the
     * reply is decoded, and the payload sent carries the new direction and
     * the time `now`. A reply shorter than three bytes panics and sends
     * nothing.
     */
    method UpdateData(reply: seq<byte>, now: nat) returns (sent: Option<WindVaneData>)
      requires Valid() && |reply| <= BufferSize
      modifies this, buf
      ensures buf[..|reply|] == reply && buf[|reply|..] == old(buf[|reply|..])
      ensures sent.None? <==> |reply| < 3
      ensures sent.None? ==> voltage == old(voltage) && direction == old(direction)
      ensures sent.Some? ==> direction == DirectionOf(reply[1], reply[2])
                             && sent.value == WindVaneData(direction, Some(now))
                             && sent.value.IsValid()
    {
      forall k | 0 <= k < |reply| {
        buf[k] := reply[k];
      }
      var panicked := ParseBits(|reply|);
      if panicked {
        return None;
      }
      return Some(WindVaneData(direction, Some(now)));
    }
  }
}
