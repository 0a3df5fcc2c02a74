/** Conversion between encoder counts and metres, the native check of one cycle's
    command, and the encoder session that supplies the reference. */
module CountConversion {
  import opened ControlTypes
  import opened DriveProfile

  const MAXIMUM_STEP: int := 1000

  /** Halves away from zero. */
  function Round(x: real): int {
    if x >= 0.0 then (x + 0.5).Floor else -((0.5 - x).Floor)
  }

  predicate IsCounts(x: int) {
    -0x8000_0000 <= x < 0x8000_0000
  }

  /** One installation's settings and the session reference it was given. */
  datatype Calibration = Calibration(
    metresPerCount: real,
    velocityFromEncoder: bool,
    softBounds: bool,
    lower: real,
    upper: real,
    referenceValid: bool,
    reference: Counts)
  {
    /** What loading an installation checks. */
    predicate Valid() {
      metresPerCount != 0.0 && (softBounds ==> lower < upper)
    }

    function SetReference(counts: Counts): (bool, Calibration) {
      if referenceValid then (reference == counts, this)
      else (true, this.(reference := counts, referenceValid := true))
    }

    function ClearReference(): Calibration {
      this.(referenceValid := false)
    }

    function PositionOf(counts: Counts): real {
      metresPerCount * (counts - reference) as real
    }

    function Position(counts: Counts): Num {
      if referenceValid then Finite(PositionOf(counts)) else NonFinite
    }

    predicate InBounds(q: real) {
      softBounds ==> lower <= q <= upper
    }

    /** The counts of a position, or none for one the source refuses. */
    function ToCounts(q: Num): Conversion {
      if !referenceValid || q.NonFinite? || !InBounds(q.value) || metresPerCount == 0.0 then Refused
      else
        var raw := reference as real + q.value / metresPerCount;
        if raw < -0x8000_0000 as real || raw > 0x7FFF_FFFF as real then Refused
        else
          var counts := Round(raw);
          if !IsCounts(counts) || !InBounds(PositionOf(counts)) then Refused else Converted(counts)
    }
  }

  datatype Conversion = Refused | Converted(counts: Counts)

  // ----- rounding -----

  lemma RoundNearest(x: real)
    ensures Abs(Round(x) as real - x) <= 0.5
  {
  }

  lemma RoundExact(n: int)
    ensures Round(n as real) == n
  {
  }

  /** The distance of two rounded values exceeds theirs by at most one. */
  lemma RoundDistance(x: real, y: real, n: int)
    requires Abs(x - y) < n as real
    ensures -n <= Round(x) - Round(y) <= n
  {
    RoundNearest(x);
    RoundNearest(y);
  }

  lemma ScaleDistance(m: real, x: real, limit: real)
    requires m != 0.0
    ensures Abs(m * x) == Abs(m) * Abs(x)
    ensures Abs(x) <= limit ==> Abs(m * x) <= Abs(m) * limit
    ensures Abs(m * x) < Abs(m) * limit ==> Abs(x) < limit
  {
  }

  // ----- quantisation -----

  /** Every count in bounds survives the trip to metres and back. */
  lemma CountsSurvive(c: Calibration, counts: Counts)
    requires c.metresPerCount != 0.0 && c.referenceValid && c.InBounds(c.PositionOf(counts))
    ensures c.ToCounts(c.Position(counts)) == Converted(counts)
  {
    var d := (counts - c.reference) as real;
    assert c.PositionOf(counts) / c.metresPerCount == d;
    assert c.reference as real + d == counts as real;
    RoundExact(counts);
  }

  lemma Divided(m: real, q: real)
    requires m != 0.0
    ensures m * (q / m) == q
  {
  }

  /** Half a count on the raw scale is half a scale step in metres. */
  lemma HalfStep(m: real, n: real, v: real, q: real)
    requires m != 0.0 && m * v == q && Abs(n - v) <= 0.5
    ensures Abs(m * n - q) <= Abs(m) / 2.0
  {
    ScaleDistance(m, n - v, 0.5);
    assert m * (n - v) == m * n - m * v;
  }

  /** Positions close together are close on the raw scale. */
  lemma CloseSteps(m: real, u: real, v: real, next: real, q: real, limit: real)
    requires m != 0.0 && m * u == next && m * v == q && Abs(next - q) < Abs(m) * limit
    ensures Abs(u - v) < limit
  {
    ScaleDistance(m, u - v, limit);
    assert m * (u - v) == m * u - m * v;
  }

  lemma ConvertedIs(c: Calibration, q: real)
    requires c.ToCounts(Finite(q)).Converted?
    ensures c.metresPerCount != 0.0
    ensures c.ToCounts(Finite(q)).counts == Round(c.reference as real + q / c.metresPerCount)
    ensures c.InBounds(c.PositionOf(c.ToCounts(Finite(q)).counts)) && c.InBounds(q)
  {
  }

  /** An accepted position is met within half a count, and within the bounds. */
  lemma PositionQuantised(c: Calibration, q: real)
    requires c.ToCounts(Finite(q)).Converted?
    ensures var counts := c.ToCounts(Finite(q)).counts;
            && Abs(c.PositionOf(counts) - q) <= Abs(c.metresPerCount) / 2.0
            && c.InBounds(c.PositionOf(counts)) && c.InBounds(q)
  {
    ConvertedIs(c, q);
    RoundedBack(c.metresPerCount, c.reference, q, c.ToCounts(Finite(q)).counts);
  }

  lemma RoundedBack(m: real, reference: int, q: real, counts: int)
    requires m != 0.0 && counts == Round(reference as real + q / m)
    ensures Abs(m * (counts - reference) as real - q) <= Abs(m) / 2.0
  {
    RoundNearest(reference as real + q / m);
    Divided(m, q);
    HalfStep(m, (counts - reference) as real, q / m, q);
  }

  // ----- the native check -----

  datatype Verdict = ValidCommand(counts: Counts) | InvalidCommand | ExcessiveIncrement | LimitReached

  /** An integral value within range. */
  function IntegralCounts(value: Num): Conversion {
    if value.NonFinite? || value.value.Floor as real != value.value || !IsCounts(value.value.Floor) then Refused
    else Converted(value.value.Floor)
  }

  function Validate(value: Num, previous: Counts, motor: Motor, maximum: int): Verdict {
    var out := IntegralCounts(value);
    if out.Refused? then InvalidCommand else
    var delta := out.counts - previous;
    if maximum <= 0 || maximum > MAXIMUM_STEP || delta > maximum || delta < -maximum then ExcessiveIncrement
    else if motor.negativeLimit && (delta < 0 || out.counts < motor.actualPosition) then LimitReached
    else if motor.positiveLimit && (delta > 0 || out.counts > motor.actualPosition) then LimitReached
    else ValidCommand(out.counts)
  }

  /** What the check lets through is exactly a bounded step that moves no deeper
      into an asserted limit and asks for nothing beyond the actual position there. */
  predicate SafeStep(target: Counts, previous: Counts, motor: Motor) {
    && -MAXIMUM_STEP <= target - previous <= MAXIMUM_STEP
    && (motor.negativeLimit ==> target >= previous && target >= motor.actualPosition)
    && (motor.positiveLimit ==> target <= previous && target <= motor.actualPosition)
  }

  lemma ValidateExact(target: Counts, previous: Counts, motor: Motor)
    ensures Validate(Finite(target as real), previous, motor, MAXIMUM_STEP) == ValidCommand(target)
            <==> SafeStep(target, previous, motor)
    ensures Validate(Finite(target as real), previous, motor, MAXIMUM_STEP) in
              {ValidCommand(target), ExcessiveIncrement, LimitReached}
  {
  }

  /** Two references less than a thousand counts apart, wherever they lie between
      counts and whichever way the scale points, are never an excessive step. */
  lemma CloseReferencesPass(c: Calibration, q: real, next: real, motor: Motor)
    requires c.ToCounts(Finite(q)).Converted? && c.ToCounts(Finite(next)).Converted?
    requires Abs(next - q) < Abs(c.metresPerCount) * 1000.0
    ensures var previous, target := c.ToCounts(Finite(q)).counts, c.ToCounts(Finite(next)).counts;
            && -MAXIMUM_STEP <= target - previous <= MAXIMUM_STEP
            && Validate(Finite(target as real), previous, motor, MAXIMUM_STEP) != ExcessiveIncrement
  {
    ConvertedIs(c, q);
    ConvertedIs(c, next);
    RoundedApart(c.metresPerCount, c.reference, q, next);
  }

  lemma RoundedApart(m: real, reference: int, q: real, next: real)
    requires m != 0.0 && Abs(next - q) < Abs(m) * 1000.0
    ensures -1000 <= Round(reference as real + next / m) - Round(reference as real + q / m) <= 1000
  {
    var u, v := next / m, q / m;
    Divided(m, q);
    Divided(m, next);
    CloseSteps(m, u, v, next, q, 1000.0);
    RoundDistance(reference as real + u, reference as real + v, 1000);
  }

  /** And no further: at a thousand counts exactly, rounding can add one. */
  lemma ThousandApartCanFail()
    ensures var c := Calibration(1.0, true, false, 0.0, 0.0, true, 0);
            && c.ToCounts(Finite(-0.5)) == Converted(-1) && c.ToCounts(Finite(999.5)) == Converted(1000)
            && Validate(Finite(1000.0), -1, NO_MOTOR, MAXIMUM_STEP) == ExcessiveIncrement
  {
  }

  // ----- the encoder session -----

  const NS_PER_CYCLE: int := 1_000_000

  /** Its calibration reference is the first pair of identical stationary counts. */
  datatype Session = Session(
    haveRead: bool,
    referenceValid: bool,
    previousStationary: bool,
    suspended: bool,
    reference: Counts,
    previous: Counts,
    lastNs: int,
    velocity: Num)

  const NO_SESSION := Session(false, false, false, false, 0, 0, 0, NonFinite)

  function CountAbs(x: int): nat {
    if x < 0 then -x else x
  }

  /** How far the count may have moved since the last accepted observation: the
      bound for each elapsed cycle, or once the bound across a suspension. */
  function Allowance(suspended: bool, elapsed: int, bound: int): real {
    if suspended then bound as real else bound as real * Max(1.0, elapsed as real / NS_PER_CYCLE as real)
  }

  function Allowed(s: Session, now: int, bound: int): real {
    Allowance(s.suspended, now - s.lastNs, bound)
  }

  /** Metres per second. */
  function Rate(scale: real, delta: int, elapsed: int): real
    requires elapsed != 0
  {
    scale * delta as real / (elapsed as real * 0.000000001)
  }

  predicate Accepted(s: Session, counts: Counts, now: int, bound: int) {
    s.haveRead ==> now > s.lastNs && CountAbs(counts - s.previous) as real <= Allowed(s, now, bound)
  }

  function Observed(s: Session, counts: Counts, now: int, stationary: bool, scale: real, bound: int): Session {
    if !Accepted(s, counts, now, bound) then s else
    var captures := s.haveRead && !s.referenceValid && stationary && s.previousStationary && counts == s.previous;
    Session(true, s.referenceValid || captures, stationary, false,
            if captures then s.previous else s.reference,
            counts, now,
            if s.haveRead then Finite(Rate(scale, counts - s.previous, now - s.lastNs)) else s.velocity)
  }

  class EncoderSession {
    var haveRead: bool
    var referenceValid: bool
    var previousStationary: bool
    var suspended: bool
    var reference: Counts
    var previous: Counts
    var lastNs: int
    var velocity: Num

    function View(): Session
      reads this
    {
      Session(haveRead, referenceValid, previousStationary, suspended, reference, previous, lastNs, velocity)
    }

    constructor ()
      ensures View() == NO_SESSION
    {
      haveRead, referenceValid, previousStationary, suspended := false, false, false, false;
      reference, previous, lastNs, velocity := 0, 0, 0, NonFinite;
    }

    method End()
      modifies this
      ensures View() == NO_SESSION
    {
      haveRead, referenceValid, previousStationary, suspended := false, false, false, false;
      reference, previous, lastNs, velocity := 0, 0, 0, NonFinite;
    }

    method Suspend()
      modifies this
      ensures View() == old(View()).(suspended := true)
    {
      suspended := true;
    }

    method Observe(counts: Counts, now: int, stationary: bool, scale: real, bound: int) returns (ok: bool)
      modifies this
      ensures ok == Accepted(old(View()), counts, now, bound)
      ensures View() == Observed(old(View()), counts, now, stationary, scale, bound)
    {
      if haveRead {
        if now <= lastNs {
          return false;
        }
        var elapsed := now - lastNs;
        var delta := counts - previous;
        if CountAbs(delta) as real > Allowance(suspended, elapsed, bound) {
          return false;
        }
        velocity := Finite(Rate(scale, delta, elapsed));
        if !referenceValid && stationary && previousStationary && delta == 0 {
          reference := previous;
          referenceValid := true;
        }
      }
      previous, lastNs, haveRead, previousStationary, suspended := counts, now, true, stationary, false;
      return true;
    }
  }

  // ----- a whole session -----

  datatype Use = Observation(counts: Counts, now: int, stationary: bool) | Suspension

  function Used(s: Session, u: Use, scale: real, bound: int): Session {
    match u
    case Observation(counts, now, stationary) => Observed(s, counts, now, stationary, scale, bound)
    case Suspension => s.(suspended := true)
  }

  function UsedAll(uses: seq<Use>, scale: real, bound: int): Session {
    if uses == [] then NO_SESSION
    else Used(UsedAll(uses[..|uses| - 1], scale, bound), uses[|uses| - 1], scale, bound)
  }

  /** The observations that were accepted, in order. */
  function Taken(uses: seq<Use>, scale: real, bound: int): seq<Use> {
    if uses == [] then [] else
    var s, u := UsedAll(uses[..|uses| - 1], scale, bound), uses[|uses| - 1];
    Taken(uses[..|uses| - 1], scale, bound) +
    (if u.Observation? && Accepted(s, u.counts, u.now, bound) then [u] else [])
  }

  /** Two consecutive accepted observations, both stationary, of the same count. */
  predicate Settles(taken: seq<Use>, i: int) {
    && 0 < i < |taken|
    && taken[i - 1].Observation? && taken[i].Observation?
    && taken[i - 1].stationary && taken[i].stationary
    && taken[i - 1].counts == taken[i].counts
  }

  /** The reference is the count of the first such pair, and there is none while no
      pair was seen: nothing later, suspensions included, changes it. */
  ghost predicate ReferenceIs(s: Session, taken: seq<Use>) {
    && (!s.referenceValid ==> forall i :: !Settles(taken, i))
    && (s.referenceValid ==>
          exists i :: Settles(taken, i) && taken[i].counts == s.reference && forall j :: j < i ==> !Settles(taken, j))
  }

  ghost predicate Latest(s: Session, taken: seq<Use>) {
    && (s.haveRead <==> taken != [])
    && (taken != [] ==>
          var last := taken[|taken| - 1];
          && last.Observation? && last.counts == s.previous && last.now == s.lastNs
          && last.stationary == s.previousStationary)
  }

  lemma {:induction false} LatestTaken(uses: seq<Use>, scale: real, bound: int)
    ensures Latest(UsedAll(uses, scale, bound), Taken(uses, scale, bound))
  {
    if uses != [] {
      LatestTaken(uses[..|uses| - 1], scale, bound);
    }
  }

  lemma SettlesPrefix(taken: seq<Use>, u: Use, i: int)
    ensures i < |taken| ==> (Settles(taken, i) <==> Settles(taken + [u], i))
  {
  }

  lemma ReferenceStep(s: Session, taken: seq<Use>, u: Use, scale: real, bound: int)
    requires Latest(s, taken) && ReferenceIs(s, taken)
    requires u.Observation? && Accepted(s, u.counts, u.now, bound)
    ensures ReferenceIs(Used(s, u, scale, bound), taken + [u])
  {
    forall i ensures i < |taken| ==> (Settles(taken, i) <==> Settles(taken + [u], i)) {
      SettlesPrefix(taken, u, i);
    }
    var s' := Used(s, u, scale, bound);
    if s.referenceValid {
      var i :| Settles(taken, i) && taken[i].counts == s.reference && forall j :: j < i ==> !Settles(taken, j);
      assert Settles(taken + [u], i) && (taken + [u])[i] == taken[i];
    } else if s'.referenceValid {
      assert Settles(taken + [u], |taken|);
    }
  }

  /** The session's main promise about its reference. */
  lemma {:induction false} ReferenceIsFirstPair(uses: seq<Use>, scale: real, bound: int)
    ensures ReferenceIs(UsedAll(uses, scale, bound), Taken(uses, scale, bound))
  {
    if uses != [] {
      var front, u := uses[..|uses| - 1], uses[|uses| - 1];
      ReferenceIsFirstPair(front, scale, bound);
      LatestTaken(front, scale, bound);
      if u.Observation? && Accepted(UsedAll(front, scale, bound), u.counts, u.now, bound) {
        ReferenceStep(UsedAll(front, scale, bound), Taken(front, scale, bound), u, scale, bound);
      } else {
        assert Taken(uses, scale, bound) == Taken(front, scale, bound);
      }
    }
  }

  /** The sum of what each accepted observation after the first was allowed. */
  function Budget(uses: seq<Use>, scale: real, bound: int): real {
    if uses == [] then 0.0 else
    var s, u := UsedAll(uses[..|uses| - 1], scale, bound), uses[|uses| - 1];
    Budget(uses[..|uses| - 1], scale, bound) +
    (if u.Observation? && s.haveRead && Accepted(s, u.counts, u.now, bound) then Allowed(s, u.now, bound) else 0.0)
  }

  /** However the drive moved, reconnected or was suspended, the count is no further
      from the first one than the allowances add up to. */
  lemma {:induction false} DisplacementBounded(uses: seq<Use>, scale: real, bound: int)
    requires bound >= 0
    ensures var taken := Taken(uses, scale, bound);
            if taken == [] then Budget(uses, scale, bound) == 0.0
            else
              && taken[0].Observation?
              && CountAbs(UsedAll(uses, scale, bound).previous - taken[0].counts) as real <= Budget(uses, scale, bound)
  {
    if uses != [] {
      var front, u := uses[..|uses| - 1], uses[|uses| - 1];
      LatestTaken(front, scale, bound);
      DisplacementBounded(front, scale, bound);
      if u.Observation? && Taken(front, scale, bound) != [] &&
         Accepted(UsedAll(front, scale, bound), u.counts, u.now, bound) {
        DisplacementStep(UsedAll(front, scale, bound), Taken(front, scale, bound), u, scale, bound,
          Budget(front, scale, bound));
      }
    }
  }

  lemma DisplacementStep(s: Session, taken: seq<Use>, u: Use, scale: real, bound: int, budget: real)
    requires Latest(s, taken) && u.Observation? && Accepted(s, u.counts, u.now, bound) && taken != []
    requires taken[0].Observation? && CountAbs(s.previous - taken[0].counts) as real <= budget
    ensures CountAbs(u.counts - taken[0].counts) as real <= budget + Allowed(s, u.now, bound)
  {
    var a, b := CountAbs(s.previous - taken[0].counts), CountAbs(u.counts - s.previous);
    assert CountAbs(u.counts - taken[0].counts) <= a + b;
  }
}
