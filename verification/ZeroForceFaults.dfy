/** When the compliant controller faults, and what it holds while it does not comply, in
    terms of what it is fed. */
module ZeroForceFaults {
  import opened ControlTypes
  import opened UpdateChecks
  import opened ZeroForce
  import opened ZeroForceRun
  import opened ForceResponse

  predicate Measurable(p: ZeroForceSettings, in_: Inputs) {
    in_.AllFinite() && -p.maxForce <= in_.force.value <= p.maxForce
  }

  /** Feedback that the controller takes in: measurable, timely and in bounds. */
  predicate TakenIn(c: Controller, in_: Inputs) {
    Measurable(c.p, in_) && Timely(in_, c.state.measured.timeNs) && Inside(c.p.bounds, in_.position.value, c.origin)
  }

  ghost predicate Underway(c: Controller) {
    Usable(c) && c.active && c.state.valid && c.state.phase in {Hold, Baseline, Noise, Compliant}
  }

  predicate Moving(p: ZeroForceSettings, in_: Inputs) {
    in_.velocity.Finite? && (in_.velocity.value > p.stationaryVelocity || in_.velocity.value < -p.stationaryVelocity)
  }

  /** The reference that compliance asks for. */
  function Asked(platform: Platform, c: Controller, force: real): real
    requires c.state.referencePosition.Finite?
  {
    c.state.referencePosition.value + NextVelocity(platform, c, Residual(c, force)) * DT
  }

  /** An update faults exactly so: a force or other feedback out of range, or motion
      while the baseline and its noise are captured; a period or a time out of order; a
      position or a new reference out of bounds.  One that does not shows the measured
      position as its reference until compliance begins. */
  lemma UpdateFaultsExactly(platform: Platform, c: Controller, in_: Inputs)
    requires Underway(c)
    ensures var s, taken := Next(platform, c, in_).state, TakenIn(c, in_);
            && s.measured == in_
            && (FaultsWith(s, Feedback) <==>
                  !Measurable(c.p, in_) || (taken && c.state.phase in {Baseline, Noise} && Moving(c.p, in_)))
            && (FaultsWith(s, Period) <==> Measurable(c.p, in_) && !Timely(in_, c.state.measured.timeNs))
            && (FaultsWith(s, Bounds) <==>
                  || (Measurable(c.p, in_) && Timely(in_, c.state.measured.timeNs) && !taken)
                  || (taken && c.state.phase == Compliant
                      && !Inside(c.p.bounds, Asked(platform, c, in_.force.value), c.origin)))
            && (!s.valid ==>
                  s.fault in {Feedback, Period, Bounds} && s.phase == Faulted && s.referencePosition.NonFinite?)
            && (s.valid && c.state.phase != Compliant ==>
                  && s.referencePosition == in_.position && s.referenceVelocity == c.state.referenceVelocity)
  {
    AbsWithin(c, in_);
    if TakenIn(c, in_) && c.state.phase == Compliant {
      var c' := c.(state := CountPeriod(c.state, in_).(measured := in_));
      ComplyFaultsExactly(platform, c', in_);
      SameAsked(platform, c, c', in_.force.value);
    }
  }

  lemma AbsWithin(c: Controller, in_: Inputs)
    ensures Measurable(c.p, in_) <==> in_.AllFinite() && Abs(in_.force.value) <= c.p.maxForce
    ensures in_.position.Finite? ==>
              (Inside(c.p.bounds, in_.position.value, c.origin) <==> c.p.bounds.ContainsNum(in_.position, c.origin))
    ensures in_.velocity.Finite? ==> (Moving(c.p, in_) <==> Abs(in_.velocity.value) > c.p.stationaryVelocity)
  {
  }

  /** Activation succeeds if and only if the settings are valid and the feedback is
      finite, at rest, within the largest force and in bounds. */
  lemma ActivatesExactlyWhen(p: ZeroForceSettings, in_: Inputs)
    ensures Activatable(AllFinite(p), in_) <==>
              && p.Valid() && Measurable(p, in_) && !Moving(p, in_)
              && Inside(p.bounds, in_.position.value, in_.position.value)
    ensures !Activatable(SomeNonFinite, in_)
  {
  }

  /** Counting and measuring leave what is asked for. */
  lemma SameAsked(platform: Platform, c: Controller, c': Controller, force: real)
    requires c'.p == c.p && c.state.referencePosition.Finite?
    requires c'.state.referencePosition == c.state.referencePosition
    requires c'.state.referenceVelocity == c.state.referenceVelocity && c'.state.noiseRms == c.state.noiseRms
    requires c'.state.referenceAcceleration == c.state.referenceAcceleration
    requires c'.state.baselineForce == c.state.baselineForce
    ensures Asked(platform, c', force) == Asked(platform, c, force)
  {
    SameResidual(c, c', force);
    SameVelocity(platform, c, c', Residual(c, force));
  }

  lemma ComplyFaultsExactly(platform: Platform, c: Controller, in_: Inputs)
    requires Underway(c) && in_.AllFinite() && c.state.measured == in_
    ensures var s := Comply(platform, c, in_).state;
            && (s.valid <==> Inside(c.p.bounds, Asked(platform, c, in_.force.value), c.origin))
            && s.measured == in_
            && (!s.valid ==> s.fault == Bounds && s.phase == Faulted && s.referencePosition.NonFinite?)
  {
  }

  lemma CountsLate(platform: Platform, c: Controller, in_: Inputs)
    requires Underway(c) && Next(platform, c, in_).state.valid
    ensures Underway(Next(platform, c, in_))
    ensures var s := Next(platform, c, in_).state;
            && s.excessivePeriods == c.state.excessivePeriods + (if in_.periodNs > 1_500_000 then 1 else 0)
            && (s.progress == 1.0 <==> c.state.progress == 1.0 || (c.state.phase == Noise && s.phase == Compliant))
  {
  }

  /** However it is fed, a valid run has counted exactly the late periods, shows the
      progress of a completed capture exactly when it complies, and the last feedback. */
  lemma {:induction false} RunConsistent(platform: Platform, p: ZeroForceSettings, start: Inputs, inputs: seq<Inputs>)
    requires Activatable(AllFinite(p), start)
    ensures var c := Run(platform, p, start, inputs);
            c.state.valid ==>
              && Underway(c)
              && c.state.excessivePeriods == Late(inputs)
              && (c.state.progress == 1.0 <==> c.state.phase == Compliant)
              && c.state.measured == (if inputs == [] then start else inputs[|inputs| - 1])
  {
    RunSafe(platform, p, start, inputs);
    if inputs != [] {
      var front := inputs[..|inputs| - 1];
      RunConsistent(platform, p, start, front);
      var before := Run(platform, p, start, front);
      if Run(platform, p, start, inputs).state.valid {
        ValidBefore(platform, p, start, inputs, |front|);
        CountsLate(platform, before, inputs[|inputs| - 1]);
        UpdateFaultsExactly(platform, before, inputs[|inputs| - 1]);
      }
    }
  }
}
