/** The conditions on an update that both motion controllers check, on the numbers that
    are fed in. */
module UpdateChecks {
  import opened ControlTypes

  /** The period is positive and at most ten milliseconds, and the update is not dated
      before the last one. */
  predicate Timely(in_: Inputs, lastNs: int) {
    0 < in_.periodNs && in_.periodNs <= 10_000_000 && in_.timeNs >= lastNs
  }

  predicate Inside(b: MotionBounds, q: real, origin: real) {
    && -b.excursionLimit <= q - origin <= b.excursionLimit
    && (b.usePositionBounds ==> b.lower <= q && q <= b.upper)
  }

  predicate FaultsWith(s: Snapshot, fault: Fault) {
    !s.valid && s.fault == fault
  }

  /** Updates whose period was more than half a millisecond late. */
  function Late(inputs: seq<Inputs>): nat {
    if inputs == [] then 0
    else Late(inputs[..|inputs| - 1]) + if inputs[|inputs| - 1].periodNs > 1_500_000 then 1 else 0
  }
}
