/** Types shared by the two motion controllers: inputs, snapshots, faults and
    motion bounds.  Doubles are modelled by exact reals; a value that the source
    has to recognise as NaN or infinite is the extra case NonFinite. */
module ControlTypes {
  const DT: real := 0.001

  datatype Num = Finite(value: real) | NonFinite

  datatype Phase =
    | Idle | Baseline | Noise | Compliant | Hold | Faulted
    | Trajectory | Settling | Complete

  datatype Fault = NoFault | Feedback | Period | Bounds | Settings | SettlingTimeout

  datatype Inputs = Inputs(position: Num, velocity: Num, force: Num, timeNs: int, periodNs: int)
  {
    predicate AllFinite() {
      position.Finite? && velocity.Finite? && force.Finite? && timeNs >= 0
    }
  }

  datatype Snapshot = Snapshot(
    measured: Inputs,
    phase: Phase,
    fault: Fault,
    valid: bool,
    referencePosition: Num,
    referenceVelocity: real,
    referenceAcceleration: real,
    baselineForce: real,
    noiseRms: real,
    residualForce: real,
    progress: real,
    excessivePeriods: nat)

  const ZERO_INPUTS := Inputs(Finite(0.0), Finite(0.0), Finite(0.0), 0, 1_000_000)

  const EMPTY_SNAPSHOT :=
    Snapshot(ZERO_INPUTS, Idle, NoFault, true, Finite(0.0), 0.0, 0.0, 0.0, 0.0, 0.0, 0.0, 0)

  /** A settings record whose fields were all finite, or one that had a NaN or an
      infinity somewhere; every `valid()` of the source rejects the latter. */
  datatype Checked<T> = AllFinite(value: T) | SomeNonFinite

  function Abs(x: real): real {
    if x < 0.0 then -x else x
  }

  function Max(x: real, y: real): real {
    if x >= y then x else y
  }

  function Clamp(x: real, lo: real, hi: real): real {
    if x < lo then lo else if x > hi then hi else x
  }

  /** Magnitude of the first argument with the sign of the second. */
  function CopySign(magnitude: real, sign: real): real {
    if sign < 0.0 then -Abs(magnitude) else Abs(magnitude)
  }

  datatype MotionBounds = MotionBounds(
    excursionLimit: real,
    usePositionBounds: bool,
    lower: real,
    upper: real)
  {
    predicate Valid() {
      0.0 < excursionLimit <= 1.0 && (usePositionBounds ==> lower < upper)
    }

    predicate Contains(q: real, origin: real) {
      Abs(q - origin) <= excursionLimit && (usePositionBounds ==> lower <= q <= upper)
    }

    predicate ContainsNum(q: Num, origin: real) {
      q.Finite? && Contains(q.value, origin)
    }
  }

  /** The scheduling check, which also counts late periods. */
  function CountPeriod(out: Snapshot, in_: Inputs): Snapshot {
    if in_.periodNs > 1_500_000 then out.(excessivePeriods := out.excessivePeriods + 1) else out
  }

  predicate PeriodValid(out: Snapshot, in_: Inputs) {
    0 < in_.periodNs <= 10_000_000 && in_.timeNs >= out.measured.timeNs
  }

  function Fail(out: Snapshot, in_: Inputs, reason: Fault): Snapshot {
    out.(measured := in_, phase := Faulted, fault := reason, valid := false, referencePosition := NonFinite)
  }
}
