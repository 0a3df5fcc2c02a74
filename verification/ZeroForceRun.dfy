/** The compliant controller over whole runs: its motion stays within its limits,
    its captured baseline and noise are exact, and its first fault is its last. */
module ZeroForceRun {
  import opened ControlTypes
  import opened ZeroForce

  function Run(platform: Platform, p: ZeroForceSettings, start: Inputs, inputs: seq<Inputs>): (c: Controller)
    requires start.position.Finite?
    ensures Usable(c)
  {
    if inputs == [] then Activated(p, start)
    else
      var before := Run(platform, p, start, inputs[..|inputs| - 1]);
      UsableKept(platform, before, inputs[|inputs| - 1]);
      Next(platform, before, inputs[|inputs| - 1])
  }

  lemma UsableKept(platform: Platform, c: Controller, in_: Inputs)
    requires Usable(c)
    ensures Usable(Next(platform, c, in_))
  {
  }

  // ----- safety -----

  ghost predicate Moving(p: ZeroForceSettings, s: Snapshot) {
    Abs(s.referenceVelocity) <= p.maxVelocity && Abs(s.referenceAcceleration) <= p.maxAcceleration
  }

  ghost predicate Safe(c: Controller) {
    && c.active
    && Moving(c.p, c.state)
    && (c.state.valid ==> c.p.bounds.ContainsNum(c.state.referencePosition, c.origin))
  }

  /** The two clamps bound the new velocity and its change. */
  lemma LimitedBounds(p: ZeroForceSettings, damped: real, velocity: real)
    requires p.maxAcceleration > 0.0 && p.maxVelocity > 0.0 && Abs(velocity) <= p.maxVelocity
    ensures var next := Limited(p, damped, velocity);
            Abs(next) <= p.maxVelocity && Abs(next - velocity) <= p.maxAcceleration * DT
  {
  }

  lemma PerCycle(change: real, limit: real)
    requires Abs(change) <= limit * DT
    ensures Abs(change / DT) <= limit
  {
  }

  lemma ComplySafe(platform: Platform, c: Controller, in_: Inputs)
    requires Safe(c) && c.p.Valid() && c.state.valid && in_.AllFinite() && c.state.referencePosition.Finite?
    ensures Safe(Comply(platform, c, in_))
  {
    var residual := Residual(c, in_.force.value);
    var velocity := NextVelocity(platform, c, residual);
    var response := Response(c.p, Excess(residual, Threshold(c.p, c.state.noiseRms)));
    LimitedBounds(c.p, Damped(c.state.referenceVelocity, response, platform.decay(c.p.damping * DT)),
      c.state.referenceVelocity);
    PerCycle(velocity - c.state.referenceVelocity, c.p.maxAcceleration);
  }

  lemma NextSafe(platform: Platform, c: Controller, in_: Inputs)
    requires Safe(c) && c.p.Valid() && Usable(c)
    ensures Safe(Next(platform, c, in_))
  {
    match Examine(c, in_)
    case Refuse(_, _) =>
    case Proceed(s) =>
      var measured := c.(state := s);
      if s.phase != Hold && s.phase != Baseline && s.phase != Noise {
        ComplySafe(platform, measured, in_);
      }
  }

  /** Whatever the inputs, a valid state's reference is within its bounds, and no
      state's speed or acceleration exceeds its limit. */
  lemma {:induction false} RunSafe(platform: Platform, p: ZeroForceSettings, start: Inputs, inputs: seq<Inputs>)
    requires Activatable(AllFinite(p), start)
    ensures var c := Run(platform, p, start, inputs);
            && Safe(c) && c.p == p && c.origin == start.position.value
            && (c.state.valid ==> c.state.fault == NoFault && c.state.phase != Faulted)
  {
    if inputs != [] {
      RunSafe(platform, p, start, inputs[..|inputs| - 1]);
      NextSafe(platform, Run(platform, p, start, inputs[..|inputs| - 1]), inputs[|inputs| - 1]);
    }
  }

  // ----- faults -----

  lemma {:induction false} FaultLatched(platform: Platform, p: ZeroForceSettings, start: Inputs, inputs: seq<Inputs>,
      n: nat)
    requires start.position.Finite? && n <= |inputs|
    requires !Run(platform, p, start, inputs[..n]).state.valid
    ensures var first, s := Run(platform, p, start, inputs[..n]).state, Run(platform, p, start, inputs).state;
            !s.valid && s.fault == first.fault
            && (n < |inputs| ==>
                  s.phase == Faulted && s.referencePosition.NonFinite? && s.measured == inputs[|inputs| - 1])
  {
    if n < |inputs| {
      assert inputs[..|inputs| - 1][..n] == inputs[..n];
      FaultLatched(platform, p, start, inputs[..|inputs| - 1], n);
    } else {
      assert inputs[..n] == inputs;
    }
  }

  lemma ValidBefore(platform: Platform, p: ZeroForceSettings, start: Inputs, inputs: seq<Inputs>, n: nat)
    requires start.position.Finite? && n <= |inputs| && Run(platform, p, start, inputs).state.valid
    ensures Run(platform, p, start, inputs[..n]).state.valid
  {
    if !Run(platform, p, start, inputs[..n]).state.valid {
      FaultLatched(platform, p, start, inputs, n);
    }
  }

  // ----- compliance -----

  /** The sums of the reference velocities and accelerations of the updates after
      the first n. */
  function Distance(platform: Platform, p: ZeroForceSettings, start: Inputs, inputs: seq<Inputs>, n: nat): real
    requires start.position.Finite? && n <= |inputs|
  {
    if n == |inputs| then 0.0
    else
      Distance(platform, p, start, inputs[..|inputs| - 1], n)
      + Run(platform, p, start, inputs).state.referenceVelocity * DT
  }

  function SpeedGained(platform: Platform, p: ZeroForceSettings, start: Inputs, inputs: seq<Inputs>, n: nat): real
    requires start.position.Finite? && n <= |inputs|
  {
    if n == |inputs| then 0.0
    else
      SpeedGained(platform, p, start, inputs[..|inputs| - 1], n)
      + Run(platform, p, start, inputs).state.referenceAcceleration * DT
  }

  lemma ComplyAdvances(platform: Platform, c: Controller, in_: Inputs)
    requires Usable(c) && c.active && c.state.valid && c.state.phase == Compliant && Next(platform, c, in_).state.valid
    ensures var s := Next(platform, c, in_).state;
            && s.phase == Compliant
            && s.referencePosition.Finite?
            && s.referencePosition.value == c.state.referencePosition.value + s.referenceVelocity * DT
            && s.referenceVelocity == c.state.referenceVelocity + s.referenceAcceleration * DT
            && s.baselineForce == c.state.baselineForce && s.noiseRms == c.state.noiseRms
  {
  }

  /** While it complies, the reference position is the exact sum of the reference
      velocities, and the velocity that of the accelerations. */
  lemma {:induction false} ComplianceSums(platform: Platform, p: ZeroForceSettings, start: Inputs, inputs: seq<Inputs>,
      n: nat)
    requires Activatable(AllFinite(p), start) && n <= |inputs|
    requires Run(platform, p, start, inputs[..n]).state.phase == Compliant
    requires Run(platform, p, start, inputs).state.valid
    ensures var first, s := Run(platform, p, start, inputs[..n]).state, Run(platform, p, start, inputs).state;
            && s.phase == Compliant
            && first.referencePosition.Finite? && s.referencePosition.Finite?
            && s.referencePosition.value == first.referencePosition.value + Distance(platform, p, start, inputs, n)
            && s.referenceVelocity == first.referenceVelocity + SpeedGained(platform, p, start, inputs, n)
            && s.baselineForce == first.baselineForce && s.noiseRms == first.noiseRms
  {
    RunSafe(platform, p, start, inputs);
    if n < |inputs| {
      var front := inputs[..|inputs| - 1];
      assert front[..n] == inputs[..n];
      ValidBefore(platform, p, start, inputs, |front|);
      RunSafe(platform, p, start, front);
      ComplianceSums(platform, p, start, front, n);
      ComplyAdvances(platform, Run(platform, p, start, front), inputs[|inputs| - 1]);
    } else {
      assert inputs[..n] == inputs;
    }
  }

  // ----- the deadband -----

  lemma DampedShrinks(velocity: real, decay: real)
    requires 0.0 < decay <= 1.0
    ensures velocity >= 0.0 ==> 0.0 <= Damped(velocity, 0.0, decay) <= velocity
    ensures velocity <= 0.0 ==> velocity <= Damped(velocity, 0.0, decay) <= 0.0
  {
    Shrinks(velocity, decay, velocity * decay);
    assert Damped(velocity, 0.0, decay) == velocity * decay;
  }

  lemma Shrinks(velocity: real, decay: real, product: real)
    requires 0.0 < decay <= 1.0 && product == velocity * decay
    ensures velocity >= 0.0 ==> 0.0 <= product <= velocity
    ensures velocity <= 0.0 ==> velocity <= product <= 0.0
  {
    assert velocity - product == velocity * (1.0 - decay);
    assert velocity >= 0.0 ==> velocity * (1.0 - decay) >= 0.0;
    assert velocity <= 0.0 ==> velocity * (1.0 - decay) <= 0.0;
  }

  lemma NoExcess(p: ZeroForceSettings, residual: real, threshold: real)
    requires Abs(residual) <= threshold && p.maxAcceleration > 0.0
    ensures Response(p, Excess(residual, threshold)) == 0.0
  {
    PullNone(p.responseSign as real, p.accelerationPerForce, Excess(residual, threshold));
  }

  lemma PullNone(sign: real, gain: real, excess: real)
    requires excess == 0.0
    ensures Pull(sign, gain, excess) == 0.0
  {
    assert sign * gain * 0.0 == 0.0;
  }

  lemma LimitedShrinks(p: ZeroForceSettings, damped: real, velocity: real)
    requires p.maxAcceleration > 0.0 && Abs(velocity) <= p.maxVelocity
    requires velocity >= 0.0 ==> 0.0 <= damped <= velocity
    requires velocity <= 0.0 ==> velocity <= damped <= 0.0
    ensures velocity >= 0.0 ==> 0.0 <= Limited(p, damped, velocity) <= velocity
    ensures velocity <= 0.0 ==> velocity <= Limited(p, damped, velocity) <= 0.0
  {
  }

  /** A force that stays inside the deadband never speeds the carriage up and never
      turns it round. */
  lemma DeadbandCoasts(platform: Platform, c: Controller, residual: real)
    requires platform.Sound() && c.p.Valid() && Safe(c)
    requires Abs(residual) <= Threshold(c.p, c.state.noiseRms)
    ensures var velocity, next := c.state.referenceVelocity, NextVelocity(platform, c, residual);
            && Abs(next) <= Abs(velocity)
            && (velocity >= 0.0 ==> next >= 0.0)
            && (velocity <= 0.0 ==> next <= 0.0)
  {
    var velocity := c.state.referenceVelocity;
    var decay := DecayOf(platform, c.p);
    NoExcess(c.p, residual, Threshold(c.p, c.state.noiseRms));
    DampedShrinks(velocity, decay);
    LimitedShrinks(c.p, Damped(velocity, 0.0, decay), velocity);
  }

  lemma DecayOf(platform: Platform, p: ZeroForceSettings) returns (decay: real)
    requires platform.Sound() && p.damping >= 0.0
    ensures decay == platform.decay(p.damping * DT) && 0.0 < decay <= 1.0
  {
    decay := platform.decay(p.damping * DT);
  }

  lemma ExcessMonotone(a: real, b: real, threshold: real)
    requires a <= b && threshold >= 0.0
    ensures Excess(a, threshold) <= Excess(b, threshold)
  {
  }

  lemma ScaledOrder(k: real, a: real, b: real)
    requires k >= 0.0 && a <= b
    ensures k * a <= k * b
  {
    assert k * (b - a) >= 0.0;
  }

  lemma PullMonotone(sign: real, gain: real, a: real, b: real)
    requires gain >= 0.0 && a <= b
    ensures sign == 1.0 ==> Pull(sign, gain, a) <= Pull(sign, gain, b)
    ensures sign == -1.0 ==> Pull(sign, gain, a) >= Pull(sign, gain, b)
  {
    ScaledOrder(gain, a, b);
    assert sign == 1.0 ==> sign * gain == gain;
    assert sign == -1.0 ==> sign * gain == -gain;
  }

  lemma ResponseMonotone(p: ZeroForceSettings, a: real, b: real)
    requires p.Valid() && a <= b
    ensures p.responseSign == 1 ==> Response(p, a) <= Response(p, b)
    ensures p.responseSign == -1 ==> Response(p, a) >= Response(p, b)
  {
    PullMonotone(p.responseSign as real, p.accelerationPerForce, a, b);
  }

  lemma LimitedOrder(p: ZeroForceSettings, velocity: real, a: real, b: real)
    requires p.maxAcceleration > 0.0 && p.maxVelocity > 0.0 && a <= b
    ensures Limited(p, a, velocity) <= Limited(p, b, velocity)
  {
  }

  lemma DampedOrder(velocity: real, a: real, b: real, decay: real)
    requires a <= b && 0.0 < decay
    ensures Damped(velocity, a, decay) <= Damped(velocity, b, decay)
  {
    ScaledOrder(decay, velocity + a * DT, velocity + b * DT);
  }

  /** The reference yields the way the response sign says: a larger force never
      gives a smaller velocity for the sign +1, nor a larger one for -1. */
  lemma YieldsToForce(platform: Platform, c: Controller, residual: real, larger: real)
    requires platform.Sound() && c.p.Valid() && residual <= larger
    ensures c.p.responseSign == 1 ==> NextVelocity(platform, c, residual) <= NextVelocity(platform, c, larger)
    ensures c.p.responseSign == -1 ==> NextVelocity(platform, c, residual) >= NextVelocity(platform, c, larger)
  {
    var threshold := Threshold(c.p, c.state.noiseRms);
    var decay := DecayOf(platform, c.p);
    ExcessMonotone(residual, larger, threshold);
    var a, b, velocity := Excess(residual, threshold), Excess(larger, threshold), c.state.referenceVelocity;
    ResponseMonotone(c.p, a, b);
    if c.p.responseSign == 1 {
      DampedOrder(velocity, Response(c.p, a), Response(c.p, b), decay);
      LimitedOrder(c.p, velocity, Damped(velocity, Response(c.p, a), decay), Damped(velocity, Response(c.p, b), decay));
    } else {
      DampedOrder(velocity, Response(c.p, b), Response(c.p, a), decay);
      LimitedOrder(c.p, velocity, Damped(velocity, Response(c.p, b), decay), Damped(velocity, Response(c.p, a), decay));
    }
  }
}
