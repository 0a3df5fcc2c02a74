/** When the calibration controller faults, in terms of what it is fed: one update at a
    time, and over the hold that follows completion. */
module CalibrationFaults {
  import opened ControlTypes
  import opened UpdateChecks
  import opened Sequencer
  import opened Envelope
  import opened CalibrationLogic
  import opened CalibrationRun

  predicate Still(p: CalibrationSettings, in_: Inputs, reference: real)
    requires in_.AllFinite()
  {
    && -p.stationaryVelocity <= in_.velocity.value <= p.stationaryVelocity
    && -p.trackingTolerance <= in_.position.value - reference <= p.trackingTolerance
  }

  ghost predicate Underway(l: Logic) {
    Good(l) && l.active && l.state.valid && l.state.phase in {Trajectory, Settling, Complete}
  }

  /** Feedback that the controller takes in: finite, timely and in bounds. */
  predicate TakenIn(l: Logic, in_: Inputs) {
    in_.AllFinite() && Timely(in_, l.state.measured.timeNs) && Inside(l.p.bounds, in_.position.value, l.origin)
  }

  /** Settling has used up its time. */
  predicate TimesOut(l: Logic) {
    l.state.phase == Settling && (l.settlingCycles + 1) as real * DT > l.p.settlingTimeout
  }

  /** The reference that the next moving update asks for. */
  function Asked(l: Logic): real
    requires l.state.referencePosition.Finite? && l.p.trajectory.Valid()
  {
    if l.state.phase == Trajectory then l.origin + Step(l.p.trajectory, l.motion).displacement
    else l.state.referencePosition.value + SettledVelocity(l) * DT
  }

  /** An update faults exactly so: feedback that is not finite, or that moves or strays
      once the calibration is complete; a period or a time out of order; a position or
      a new reference out of bounds; settling beyond its time. */
  lemma UpdateFaultsExactly(l: Logic, in_: Inputs)
    requires Underway(l)
    ensures var s, taken := Next(l, in_).state, TakenIn(l, in_);
            && s.measured == in_
            && (FaultsWith(s, Feedback) <==>
                  !in_.AllFinite()
                  || (taken && l.state.phase == Complete && !Still(l.p, in_, l.state.referencePosition.value)))
            && (FaultsWith(s, Period) <==> in_.AllFinite() && !Timely(in_, l.state.measured.timeNs))
            && (FaultsWith(s, SettlingTimeout) <==> taken && TimesOut(l))
            && (FaultsWith(s, Bounds) <==>
                  || (in_.AllFinite() && Timely(in_, l.state.measured.timeNs) && !taken)
                  || (taken && l.state.phase != Complete && !TimesOut(l) && !Inside(l.p.bounds, Asked(l), l.origin)))
            && (!s.valid ==>
                  && s.fault in {Feedback, Period, SettlingTimeout, Bounds}
                  && s.phase == Faulted && s.referencePosition.NonFinite?)
  {
    AbsWithin(in_, l);
    if TakenIn(l, in_) && l.state.phase != Complete {
      AdvanceFaultsExactly(l.(state := CountPeriod(l.state, in_).(measured := in_)), in_);
    }
  }

  lemma AbsWithin(in_: Inputs, l: Logic)
    requires Underway(l)
    ensures in_.AllFinite() ==> (Inside(l.p.bounds, in_.position.value, l.origin) <==>
                                   l.p.bounds.ContainsNum(in_.position, l.origin))
    ensures in_.AllFinite() ==> (Still(l.p, in_, l.state.referencePosition.value) <==>
                                   Stationary(l, in_, l.state.referencePosition.value))
  {
  }

  lemma AdvanceFaultsExactly(l: Logic, in_: Inputs)
    requires Underway(l) && l.state.phase != Complete && l.state.measured == in_
    ensures var s := Advance(l, in_).state;
            && (s.valid <==> !TimesOut(l) && Inside(l.p.bounds, Asked(l), l.origin))
            && (!s.valid ==> s.fault == if TimesOut(l) then SettlingTimeout else Bounds)
            && s.measured == in_
            && (!s.valid ==> s.phase == Faulted && s.referencePosition.NonFinite?)
  {
  }

  // ----- activation -----

  function PeakSpeed(speed: real, a: real, jerk: real): real
    requires jerk > 0.0
  {
    speed + a * a / (2.0 * jerk) + a * DT
  }

  /** What a return from that speed takes: the ramp of the acceleration, the braking, and
      the settling. */
  function Travel(peak: real, ramp: real, low: real, settling: real): real
    requires low > 0.0 && settling > 0.0
  {
    peak * (ramp + 3.0 * DT) + peak * peak / (2.0 * low) + peak * peak / (2.0 * settling)
  }

  /** The excursion that the settings may need, as the source computes it. */
  function Needed(p: CalibrationSettings): real
    requires p.Valid()
  {
    var t := p.trajectory;
    t.halfWidth
    + Travel(PeakSpeed(Abs(t.baseVelocity), t.maxAcceleration, t.jerk), 2.0 * t.maxAcceleration / t.jerk,
             t.initialAcceleration, p.settlingAcceleration)
    + p.trackingTolerance
  }

  /** Activation succeeds if and only if the settings are valid, the feedback is finite
      and at rest, and that excursion to either side keeps within the limits. */
  lemma ActivatesExactlyWhen(p: CalibrationSettings, in_: Inputs)
    ensures Activatable(AllFinite(p), in_) <==>
              && p.Valid() && in_.AllFinite()
              && -p.stationaryVelocity <= in_.velocity.value <= p.stationaryVelocity
              && Needed(p) <= p.bounds.excursionLimit
              && Inside(p.bounds, in_.position.value - Needed(p), in_.position.value)
              && Inside(p.bounds, in_.position.value + Needed(p), in_.position.value)
    ensures !Activatable(SomeNonFinite, in_)
  {
    if p.Valid() {
      NeededIs(p);
    }
  }

  lemma NeededIs(p: CalibrationSettings)
    requires p.Valid()
    ensures Needed(p) == p.RequiredExcursion()
  {
    var t := p.trajectory;
    FrameTravels(t.Speed(), t.jerk, t.maxAcceleration, t.initialAcceleration, t.halfWidth, p.settlingAcceleration);
  }

  lemma FrameTravels(speed: real, jerk: real, top: real, low: real, halfWidth: real, settling: real)
    requires jerk > 0.0 && low > 0.0 && settling > 0.0
    ensures var f := MakeFrame(speed, jerk, top, low, halfWidth);
            && f.peak == PeakSpeed(speed, top, jerk)
            && f.edge + StoppingDistance(f.peak, settling)
               == halfWidth + Travel(PeakSpeed(speed, top, jerk), 2.0 * top / jerk, low, settling)
  {
  }

  // ----- the first fault is kept -----

  lemma {:induction false} FaultLatched(l: Logic, inputs: seq<Inputs>)
    requires Good(l) && l.active && !l.state.valid
    ensures var s := Feed(l, inputs).state;
            FaultsWith(s, l.state.fault) && (inputs != [] ==> s.phase == Faulted && s.measured == inputs[|inputs| - 1])
  {
    if inputs != [] {
      FaultLatched(l, inputs[..|inputs| - 1]);
    }
  }

  // ----- the hold -----

  /** When the update before the k-th was dated. */
  function LastTime(l: Logic, inputs: seq<Inputs>, k: nat): int
    requires k <= |inputs|
  {
    if k == 0 then l.state.measured.timeNs else inputs[k - 1].timeNs
  }

  /** The k-th update fed was stationary, in time, in bounds and within the tolerance of
      the reference that is held. */
  ghost predicate Quiet(l: Logic, inputs: seq<Inputs>, k: nat)
    requires k < |inputs| && l.state.referencePosition.Finite?
  {
    && inputs[k].AllFinite()
    && Timely(inputs[k], LastTime(l, inputs, k))
    && Inside(l.p.bounds, inputs[k].position.value, l.origin)
    && Still(l.p, inputs[k], l.state.referencePosition.value)
  }

  /** What the hold leaves: the reference, complete, with the last feedback. */
  ghost predicate Holds(l: Logic, l': Logic, inputs: seq<Inputs>) {
    && Underway(l') && l'.state.phase == Complete && l'.p == l.p && l'.origin == l.origin
    && l'.state.referencePosition == l.state.referencePosition
    && l'.state.measured.timeNs == LastTime(l, inputs, |inputs|)
  }

  lemma HoldStep(l: Logic, in_: Inputs)
    requires Underway(l) && l.state.phase == Complete
    ensures var s := Next(l, in_).state;
            && (s.valid <==> TakenIn(l, in_) && Still(l.p, in_, l.state.referencePosition.value))
            && (s.valid ==>
                  s.phase == Complete && s.referencePosition == l.state.referencePosition && s.measured == in_)
  {
    AbsWithin(in_, l);
  }

  /** Once complete, the state is valid if and only if every update fed since was
      stationary, in time, in bounds and in tolerance of the held reference. */
  lemma {:induction false} HoldsExactlyWhile(l: Logic, inputs: seq<Inputs>)
    requires Underway(l) && l.state.phase == Complete
    ensures Feed(l, inputs).state.valid <==> forall k :: 0 <= k < |inputs| ==> Quiet(l, inputs, k)
    ensures Feed(l, inputs).state.valid ==> Holds(l, Feed(l, inputs), inputs)
  {
    if inputs != [] {
      var n := |inputs| - 1;
      var front := inputs[..n];
      var before := Feed(l, front);
      HoldsExactlyWhile(l, front);
      forall k | 0 <= k < n ensures Quiet(l, front, k) <==> Quiet(l, inputs, k) {
      }
      if before.state.valid {
        HoldStep(before, inputs[n]);
        assert LastTime(l, inputs, n) == LastTime(l, front, n);
        assert Quiet(l, inputs, n) <==> Next(before, inputs[n]).state.valid;
      } else {
        NextGood(before, inputs[n]);
      }
    }
  }

  /** And the first update in that hold that is in time and in bounds but moves or
      strays is the feedback fault. */
  lemma StrayingFaults(l: Logic, inputs: seq<Inputs>, in_: Inputs)
    requires Underway(l) && l.state.phase == Complete && Feed(l, inputs).state.valid
    requires in_.AllFinite() && Timely(in_, LastTime(l, inputs, |inputs|))
    requires Inside(l.p.bounds, in_.position.value, l.origin)
    ensures FaultsWith(Feed(l, inputs + [in_]).state, Feedback) <==>
              || in_.velocity.value > l.p.stationaryVelocity || in_.velocity.value < -l.p.stationaryVelocity
              || in_.position.value - l.state.referencePosition.value > l.p.trackingTolerance
              || l.state.referencePosition.value - in_.position.value > l.p.trackingTolerance
  {
    HoldsExactlyWhile(l, inputs);
    FeedOne(l, inputs, in_);
    UpdateFaultsExactly(Feed(l, inputs), in_);
  }

  // ----- kinematics, progress and late periods -----

  /** The sum of the reference velocities, one period each. */
  ghost function Travelled(l: Logic, inputs: seq<Inputs>): real
    requires Good(l)
  {
    if inputs == [] then 0.0
    else Travelled(l, inputs[..|inputs| - 1]) + Feed(l, inputs).state.referenceVelocity * DT
  }

  /** What is so of every valid state: a complete reference is at rest, and the progress
      shown is nine tenths at the end of the trajectory and one when complete. */
  ghost predicate Sensible(l: Logic) {
    && Underway(l)
    && (l.state.phase == Complete ==> l.state.referenceVelocity == 0.0)
    && match l.state.phase
       case Trajectory => 0.0 <= l.state.progress <= 0.9
       case Settling => l.state.progress == 0.9
       case _ => l.state.progress == 1.0
  }

  lemma ProgressWithin(p: Parameters, m: Motion)
    ensures 0.0 <= Progress(p, m) <= 1.0
  {
  }

  lemma SensibleKept(l: Logic, in_: Inputs)
    requires Sensible(l) && Next(l, in_).state.valid
    ensures Sensible(Next(l, in_))
    ensures var s, s' := l.state, Next(l, in_).state;
            && s'.referencePosition.value == s.referencePosition.value + s'.referenceVelocity * DT
            && (s.phase != Complete ==> s'.referenceVelocity == s.referenceVelocity + s'.referenceAcceleration * DT)
            && s'.excessivePeriods == s.excessivePeriods + (if in_.periodNs > 1_500_000 then 1 else 0)
            && (s.phase != Trajectory ==> s'.progress >= s.progress)
  {
    ProgressWithin(l.p.trajectory, Step(l.p.trajectory, l.motion));
  }

  /** During the trajectory: the recurrence after as many steps, and nine tenths of its
      progress. */
  ghost predicate InTrajectory(l: Logic, p: CalibrationSettings, n: nat)
    requires p.trajectory.Valid()
  {
    l.state.phase == Trajectory ==>
      && l.p == p && l.motion == Run(p.trajectory, n)
      && (n > 0 ==> l.state.progress == Progress(p.trajectory, Run(p.trajectory, n)) * 0.9)
  }

  lemma InTrajectoryKept(l: Logic, p: CalibrationSettings, n: nat, in_: Inputs)
    requires Underway(l) && p.trajectory.Valid() && InTrajectory(l, p, n) && Next(l, in_).state.valid
    ensures InTrajectory(Next(l, in_), p, n + 1)
  {
    assert Run(p.trajectory, n + 1) == Step(p.trajectory, Run(p.trajectory, n));
  }

  /** However it is fed, a valid calibration's reference is the exact sum of its
      velocities from where it started, it has counted exactly the late periods, and
      its progress is that of its phase. */
  lemma {:induction false} RunConsistent(p: CalibrationSettings, in0: Inputs, inputs: seq<Inputs>)
    requires Activatable(AllFinite(p), in0)
    ensures Good(Activated(p, in0))
    ensures var l := Feed(Activated(p, in0), inputs);
            l.state.valid ==>
              && Sensible(l) && InTrajectory(l, p, |inputs|)
              && l.state.referencePosition.value == in0.position.value + Travelled(Activated(p, in0), inputs)
              && l.state.excessivePeriods == Late(inputs)
              && l.state.measured == (if inputs == [] then in0 else inputs[|inputs| - 1])
  {
    if inputs != [] {
      var front, last := inputs[..|inputs| - 1], inputs[|inputs| - 1];
      RunConsistent(p, in0, front);
      var before := Feed(Activated(p, in0), front);
      NextGood(before, last);
      if Next(before, last).state.valid {
        SensibleKept(before, last);
        InTrajectoryKept(before, p, |front|, last);
        UpdateFaultsExactly(before, last);
      }
    }
  }
}
