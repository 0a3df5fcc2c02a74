/** A trajectory whose steps never leap the centre zone comes to its end: every
    excursion returns, every pass leaves the zone, and so the crossings that raise
    the acceleration limit keep coming. */
module TrajectoryEnds {
  import opened ControlTypes
  import opened Sequencer
  import opened Envelope
  import opened CalibrationLogic
  import opened CalibrationRun
  import opened Crossings
  import opened CalibrationPlan

  /** The motion seen from one side of the zone. */
  function Toward(right: bool, x: real): real {
    if right then x else -x
  }

  /** Update n is outside the zone, on this side. */
  ghost predicate Out(p: Parameters, n: nat, right: bool) {
    StepsOutside(p, n) && (Run(p, n).displacement > 0.0) == right
  }

  /** Update n is back in the zone from this side, for the first time since. */
  ghost predicate Back(p: Parameters, n: nat, right: bool) {
    var m := Run(p, n);
    !m.finished && InCentre(p, m) && !m.counted && Toward(right, m.velocity) < 0.0
  }

  ghost function Position(p: Parameters, n: nat, right: bool): real {
    Toward(right, Run(p, n).displacement)
  }

  ghost function Velocity(p: Parameters, n: nat, right: bool): real {
    Toward(right, Run(p, n).velocity)
  }

  ghost function Acceleration(p: Parameters, n: nat, right: bool): real {
    Toward(right, Run(p, n).acceleration)
  }

  /** That many steps of this size cover it. */
  predicate Covered(a: real, r: nat, step: real) {
    a <= r as real * step
  }

  lemma Ticks(a: real, step: real) returns (r: nat)
    requires step > 0.0
    ensures Covered(a, r, step)
  {
    var q := a / step;
    r := if q > 0.0 then q.Floor + 1 else 0;
    Scaled(q, step, r as real);
    assert q * step == a;
  }

  lemma Scaled(a: real, step: real, b: real)
    requires step > 0.0 && a <= b
    ensures a * step <= b * step
  {
  }

  lemma OneTickLess(a: real, r: nat, step: real, a': real)
    requires Covered(a, r, step) && a > 0.0 && a' <= a - step
    ensures r > 0 && Covered(a', r - 1, step)
  {
    assert r > 0 ==> (r - 1) as real * step == r as real * step - step;
  }

  lemma LimitsHold(p: Parameters, n: nat, right: bool)
    requires p.Valid() && NeverLeaps(p) && !Run(p, n).finished
    ensures Run(p, n).limit > 0.0 && Acceleration(p, n, right) >= -Run(p, n).limit
  {
    InsideUntilLeap(p, n);
  }

  /** One step outside the zone that does not leap. */
  lemma OuterStep(p: Parameters, n: nat, right: bool)
    requires p.Valid() && NeverLeaps(p) && Out(p, n, right)
    ensures Run(p, n + 1).limit == Run(p, n).limit
    ensures Acceleration(p, n + 1, right) ==
            Clamp(Acceleration(p, n, right) - p.jerk * DT, -Run(p, n).limit, Run(p, n).limit)
    ensures Velocity(p, n + 1, right) == Velocity(p, n, right) + Acceleration(p, n + 1, right) * DT
    ensures Position(p, n + 1, right) == Position(p, n, right) + Velocity(p, n + 1, right) * DT
    ensures Out(p, n + 1, right) || Back(p, n + 1, right)
  {
    LimitsHold(p, n, right);
    OuterMotion(p, Run(p, n), right);
  }

  lemma OuterMotion(p: Parameters, m: Motion, right: bool)
    requires p.Valid() && !Leaps(p, m) && m.limit > 0.0
    requires !m.finished && !InCentre(p, m) && (m.displacement > 0.0) == right
    ensures var m' := Step(p, m);
            && m'.limit == m.limit && !m'.finished && !m'.counted
            && Toward(right, m'.acceleration) ==
               Clamp(Toward(right, m.acceleration) - p.jerk * DT, -m.limit, m.limit)
            && m'.velocity == m.velocity + m'.acceleration * DT
            && m'.displacement == m.displacement + m'.velocity * DT
            && (if InCentre(p, m') then Toward(right, m'.velocity) < 0.0 else (m'.displacement > 0.0) == right)
  {
  }

  ghost predicate Opposed(p: Parameters, n: nat, right: bool) {
    Acceleration(p, n, right) == -Run(p, n).limit
  }

  /** The acceleration comes round to oppose the excursion. */
  lemma {:induction false} Opposes(p: Parameters, n: nat, right: bool, step: real, r: nat) returns (k: nat)
    requires p.Valid() && NeverLeaps(p) && Out(p, n, right) && step == p.jerk * DT
    requires Covered(Acceleration(p, n, right) + Run(p, n).limit, r, step)
    ensures k >= n
    ensures Back(p, k, right) || (Out(p, k, right) && Opposed(p, k, right))
    decreases r
  {
    LimitsHold(p, n, right);
    k := n;
    if !Opposed(p, n, right) {
      OuterStep(p, n, right);
      k := n + 1;
      if Out(p, k, right) && !Opposed(p, k, right) {
        OneTickLess(Acceleration(p, n, right) + Run(p, n).limit, r, step,
                    Acceleration(p, k, right) + Run(p, k).limit);
        k := Opposes(p, k, right, step, r - 1);
      }
    }
  }

  ghost predicate Braking(p: Parameters, n: nat, right: bool, limit: real) {
    Out(p, n, right) && limit > 0.0 && Run(p, n).limit == limit && Opposed(p, n, right)
  }

  lemma BrakingStep(p: Parameters, n: nat, right: bool, limit: real)
    requires p.Valid() && NeverLeaps(p) && Braking(p, n, right, limit)
    ensures Velocity(p, n + 1, right) == Velocity(p, n, right) - limit * DT
    ensures Position(p, n + 1, right) == Position(p, n, right) + Velocity(p, n + 1, right) * DT
    ensures Braking(p, n + 1, right, limit) || Back(p, n + 1, right)
  {
    OuterStep(p, n, right);
  }

  /** The velocity comes round. */
  lemma {:induction false} TurnsRound(p: Parameters, n: nat, right: bool, limit: real, step: real, r: nat)
    returns (k: nat)
    requires p.Valid() && NeverLeaps(p) && Braking(p, n, right, limit) && step == limit * DT
    requires Covered(Velocity(p, n, right), r, step)
    ensures k >= n
    ensures Back(p, k, right) || (Braking(p, k, right, limit) && Velocity(p, k, right) <= 0.0)
    decreases r
  {
    k := n;
    if Velocity(p, n, right) > 0.0 {
      BrakingStep(p, n, right, limit);
      k := n + 1;
      if !Back(p, k, right) {
        OneTickLess(Velocity(p, n, right), r, step, Velocity(p, k, right));
        k := TurnsRound(p, k, right, limit, step, r - 1);
      }
    }
  }

  /** And the displacement falls back to the zone. */
  lemma {:induction false} FallsBack(p: Parameters, n: nat, right: bool, limit: real, step: real, r: nat)
    returns (k: nat)
    requires p.Valid() && NeverLeaps(p) && Braking(p, n, right, limit) && step == limit * DT * DT
    requires Velocity(p, n, right) <= 0.0 && Covered(Position(p, n, right), r, step)
    ensures k >= n && Back(p, k, right)
    decreases r
  {
    BrakingStep(p, n, right, limit);
    k := n + 1;
    if !Back(p, k, right) {
      OneTickLess(Position(p, n, right), r, step, Position(p, k, right));
      k := FallsBack(p, k, right, limit, step, r - 1);
    }
  }

  /** Every excursion returns to the zone. */
  lemma Returns(p: Parameters, n: nat, right: bool) returns (k: nat)
    requires p.Valid() && NeverLeaps(p) && Out(p, n, right)
    ensures k >= n && Back(p, k, right)
  {
    var step := p.jerk * DT;
    var r := Ticks(Acceleration(p, n, right) + Run(p, n).limit, step);
    k := Opposes(p, n, right, step, r);
    if !Back(p, k, right) {
      LimitsHold(p, k, right);
      k := ReturnsBraking(p, k, right, Run(p, k).limit);
    }
  }

  lemma ReturnsBraking(p: Parameters, n: nat, right: bool, limit: real) returns (k: nat)
    requires p.Valid() && NeverLeaps(p) && Braking(p, n, right, limit)
    ensures k >= n && Back(p, k, right)
  {
    var r := Ticks(Velocity(p, n, right), limit * DT);
    k := TurnsRound(p, n, right, limit, limit * DT, r);
    if !Back(p, k, right) {
      r := Ticks(Position(p, k, right), limit * DT * DT);
      k := FallsBack(p, k, right, limit, limit * DT * DT, r);
    }
  }

  /** Update n passes through the zone in this direction without being counted. */
  ghost predicate Through(p: Parameters, n: nat, right: bool, speed: real) {
    var m := Run(p, n);
    && !m.finished && InCentre(p, m) && !CountsPass(p, m)
    && speed > 0.0 && CentreVelocity(p, m) == Toward(right, speed)
  }

  lemma ThroughStep(p: Parameters, n: nat, right: bool, speed: real)
    requires p.Valid() && Through(p, n, right, speed)
    ensures Position(p, n + 1, right) == Position(p, n, right) + speed * DT
    ensures Through(p, n + 1, right, speed) || Out(p, n + 1, right)
  {
    CentreMotion(p, Run(p, n), right, speed);
  }

  lemma CentreMotion(p: Parameters, m: Motion, right: bool, speed: real)
    requires p.Valid() && !m.finished && InCentre(p, m) && !CountsPass(p, m)
    requires speed > 0.0 && CentreVelocity(p, m) == Toward(right, speed)
    ensures var m' := Step(p, m);
            && !m'.finished && m'.displacement == m.displacement + Toward(right, speed) * DT
            && CentreVelocity(p, m') == Toward(right, speed)
            && if InCentre(p, m') then !CountsPass(p, m') else (m'.displacement > 0.0) == right
  {
  }

  /** And comes out on that side. */
  lemma {:induction false} LeavesZone(p: Parameters, n: nat, right: bool, speed: real, step: real, r: nat)
    returns (k: nat)
    requires p.Valid() && Through(p, n, right, speed) && step == speed * DT
    requires Covered(p.Zone() - Position(p, n, right), r, step)
    ensures k > n && Out(p, k, right)
    decreases r
  {
    ThroughStep(p, n, right, speed);
    k := n + 1;
    if !Out(p, k, right) {
      OneTickLess(p.Zone() - Position(p, n, right), r, step, p.Zone() - Position(p, k, right));
      k := LeavesZone(p, k, right, speed, step, r - 1);
    }
  }

  /** A pass that is not counted leads out of the zone in its direction. */
  lemma PassesThrough(p: Parameters, n: nat, right: bool) returns (k: nat)
    requires p.Valid() && !Run(p, n).finished && InCentre(p, Run(p, n)) && !CountsPass(p, Run(p, n))
    requires right == (CentreVelocity(p, Run(p, n)) > 0.0)
    ensures k > n && Out(p, k, right)
  {
    var speed := Abs(CentreVelocity(p, Run(p, n)));
    CentreMoves(p, Run(p, n));
    var r := Ticks(p.Zone() - Position(p, n, right), speed * DT);
    k := LeavesZone(p, n, right, speed, speed * DT, r);
  }

  lemma CentreMoves(p: Parameters, m: Motion)
    requires p.Valid()
    ensures CentreVelocity(p, m) != 0.0
  {
  }

  /** Back from the side behind, the pass is counted. */
  lemma BackCounts(p: Parameters, n: nat, right: bool)
    requires p.Valid() && Back(p, n, right)
    ensures right == (p.baseVelocity < 0.0) ==> CountsPass(p, Run(p, n))
    ensures right == (p.baseVelocity > 0.0) ==>
              !CountsPass(p, Run(p, n)) && (CentreVelocity(p, Run(p, n)) > 0.0) == !right
  {
    var m := Run(p, n);
    var v := CentreVelocity(p, m);
    SignOfProduct(v, p.baseVelocity);
  }

  lemma SignOfProduct(a: real, b: real)
    requires a != 0.0 && b != 0.0
    ensures a * b > 0.0 <==> (a > 0.0) == (b > 0.0)
  {
  }

  /** From anywhere on the trajectory there is another crossing. */
  lemma CrossingComes(p: Parameters, n: nat) returns (k: nat)
    requires p.Valid() && NeverLeaps(p) && !Run(p, n).finished
    ensures k >= n && Crosses(p, k)
  {
    k := n;
    if InCentre(p, Run(p, n)) && !CountsPass(p, Run(p, n)) {
      k := PassesThrough(p, n, CentreVelocity(p, Run(p, n)) > 0.0);
    }
    if !InCentre(p, Run(p, k)) {
      k := CrossingAfterOut(p, k, Run(p, k).displacement > 0.0);
    }
    CrossesWhenCounted(p, k);
  }

  lemma CrossingAfterOut(p: Parameters, n: nat, right: bool) returns (k: nat)
    requires p.Valid() && NeverLeaps(p) && Out(p, n, right)
    ensures k >= n && !Run(p, k).finished && CountsPass(p, Run(p, k))
  {
    k := Returns(p, n, right);
    BackCounts(p, k, right);
    if right == (p.baseVelocity > 0.0) {
      k := PassesThrough(p, k, !right);
      k := Returns(p, k, !right);
      BackCounts(p, k, !right);
    }
  }

  lemma {:induction false} CountsOnwards(p: Parameters, n: nat, k: nat)
    requires n <= k
    ensures CrossingCount(p, n) <= CrossingCount(p, k)
    decreases k
  {
    if n < k {
      CountsOnwards(p, n, k - 1);
    }
  }

  lemma CountGrows(p: Parameters, n: nat) returns (k: nat)
    requires p.Valid() && NeverLeaps(p) && !Run(p, n).finished
    ensures k > n && CrossingCount(p, k) > CrossingCount(p, n)
  {
    k := CrossingComes(p, n);
    CountsOnwards(p, n, k);
    k := k + 1;
  }

  lemma {:induction false} EndsFrom(p: Parameters, N: nat, n: nat, left: int) returns (k: nat)
    requires p.Valid() && NeverLeaps(p) && RaisesNeeded(p, N)
    requires left == N * p.cyclesPerIncrease - CrossingCount(p, n)
    ensures k >= n && Run(p, k).finished
    decreases left
  {
    LimitFollowsCrossings(p, N, n);
    k := n;
    if !Run(p, n).finished {
      k := CountGrows(p, n);
      k := EndsFrom(p, N, k, left - (CrossingCount(p, k) - CrossingCount(p, n)));
    }
  }

  /** The trajectory finishes. */
  lemma TrajectoryFinishes(p: Parameters) returns (n: nat)
    requires p.Valid() && NeverLeaps(p)
    ensures Run(p, n).finished
  {
    RaisesExist(p);
    var N: nat :| RaisesNeeded(p, N);
    n := EndsFrom(p, N, 0, N * p.cyclesPerIncrease);
  }

  // ----- and so does the plan -----

  lemma {:induction false} FinishedStays(p: Parameters, n: nat, k: nat)
    requires n <= k && Run(p, n).finished
    ensures Run(p, k) == Run(p, n)
    decreases k
  {
    if n < k {
      FinishedStays(p, n, k - 1);
    }
  }

  lemma {:induction false} SettlingEnds(p: CalibrationSettings, n: nat, r: nat) returns (k: nat)
    requires p.Valid() && PlanAt(p, n).motion.finished
    requires Covered(p.settlingTimeout - PlanAt(p, n).cycles as real * DT, r, DT)
    ensures k >= n && TimedOut(p, PlanAt(p, k))
    decreases r
  {
    k := n;
    if !TimedOut(p, PlanAt(p, n)) {
      assert PlanAt(p, n + 1).cycles == PlanAt(p, n).cycles + 1;
      OneTickLess(p.settlingTimeout - PlanAt(p, n).cycles as real * DT, r, DT,
                  p.settlingTimeout - PlanAt(p, n + 1).cycles as real * DT);
      k := SettlingEnds(p, n + 1, r - 1);
    }
  }

  /** Then the plan is finite: from some reference on it does not change. */
  lemma PlanIsFinite(p: CalibrationSettings) returns (n: nat)
    requires p.Valid() && NeverLeaps(p.trajectory)
    ensures Run(p.trajectory, n).finished
    ensures forall k: nat :: k >= n ==> PlanAt(p, k) == PlanAt(p, n)
  {
    n := TrajectoryFinishes(p.trajectory);
    PlannedMotion(p, n);
    var r := Ticks(p.settlingTimeout - PlanAt(p, n).cycles as real * DT, DT);
    var k := SettlingEnds(p, n, r);
    FinishedStays(p.trajectory, n, k);
    n := k;
    forall m: nat | m >= n ensures PlanAt(p, m) == PlanAt(p, n) {
      TimedOutStays(p, n, m);
    }
  }
}
