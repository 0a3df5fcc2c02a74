/** How the measured force enters the compliant controller's motion, over whole runs
    and in terms of the forces that are fed in. */
module ForceResponse {
  import opened ControlTypes
  import opened ZeroForce
  import opened ZeroForceRun
  import opened ZeroForceCapture

  // ----- a constant load is invisible -----

  function Shifted(in_: Inputs, load: real): Inputs {
    if in_.force.Finite? then in_.(force := Finite(in_.force.value + load)) else in_
  }

  function AllShifted(inputs: seq<Inputs>, load: real): (shifted: seq<Inputs>)
    ensures |shifted| == |inputs|
  {
    if inputs == [] then [] else AllShifted(inputs[..|inputs| - 1], load) + [Shifted(inputs[|inputs| - 1], load)]
  }

  predicate WithinForce(p: ZeroForceSettings, in_: Inputs) {
    in_.force.Finite? ==> -p.maxForce <= in_.force.value <= p.maxForce
  }

  predicate BothWithin(p: ZeroForceSettings, in_: Inputs, load: real) {
    WithinForce(p, in_) && WithinForce(p, Shifted(in_, load))
  }

  /** The same in everything but the force. */
  predicate SameMotion(s: Snapshot, s': Snapshot) {
    && s'.valid == s.valid && s'.fault == s.fault && s'.phase == s.phase
    && s'.referencePosition == s.referencePosition
    && s'.referenceVelocity == s.referenceVelocity
    && s'.referenceAcceleration == s.referenceAcceleration
    && s'.residualForce == s.residualForce && s'.noiseRms == s.noiseRms
    && s'.progress == s.progress && s'.excessivePeriods == s.excessivePeriods
  }

  /** A baseline has been sampled. */
  predicate Sampled(c: Controller) {
    c.state.phase in {Noise, Compliant} || (c.state.phase == Baseline && c.count > 0)
  }

  ghost predicate Alike(c: Controller, c': Controller, load: real) {
    && c'.p == c.p && c'.active == c.active && c'.origin == c.origin
    && SameMotion(c.state, c'.state) && c'.state.measured == Shifted(c.state.measured, load)
    && (c.state.valid ==>
          && c'.count == c.count && c'.noiseScale == c.noiseScale && c'.noiseSum == c.noiseSum
          && c.state.phase in {Hold, Baseline, Noise, Compliant}
          && (Sampled(c) ==> c'.state.baselineForce == c.state.baselineForce + load)
          && (Sampled(c) && c.state.phase == Baseline ==> c'.mean == c.mean + load))
  }

  lemma MeanShifts(mean: real, force: real, count: nat, load: real)
    requires count > 0
    ensures RunningMean(mean + load, force + load, count) == RunningMean(mean, force, count) + load
  {
  }

  lemma FirstMean(mean: real, force: real)
    ensures RunningMean(mean, force, 1) == force
  {
  }

  lemma CaptureAlike(platform: Platform, c: Controller, c': Controller, in_: Inputs, load: real)
    requires Alike(c, c', load) && c.state.valid && c.state.phase in {Baseline, Noise} && in_.AllFinite()
    requires c.state.measured == in_
    ensures Alike(Capture(platform, c, in_), Capture(platform, c', Shifted(in_, load)), load)
  {
    if c.state.phase == Baseline {
      if c.count == 0 {
        FirstMean(c.mean, in_.force.value);
        FirstMean(c'.mean, in_.force.value + load);
      } else {
        MeanShifts(c.mean, in_.force.value, c.count + 1, load);
      }
    } else {
      assert in_.force.value + load - c'.state.baselineForce == in_.force.value - c.state.baselineForce;
    }
  }

  lemma ComplyAlike(platform: Platform, c: Controller, c': Controller, in_: Inputs, load: real)
    requires Alike(c, c', load) && c.state.valid && c.state.phase == Compliant && in_.AllFinite()
    requires c.state.measured == in_ && c.state.referencePosition.Finite?
    ensures Alike(Comply(platform, c, in_), Comply(platform, c', Shifted(in_, load)), load)
  {
    assert Residual(c', in_.force.value + load) == Residual(c, in_.force.value);
  }

  lemma ExamineAlike(c: Controller, c': Controller, in_: Inputs, load: real)
    requires Alike(c, c', load) && BothWithin(c.p, in_, load)
    ensures Examine(c, in_).Proceed? <==> Examine(c', Shifted(in_, load)).Proceed?
    ensures Examine(c, in_).Proceed? ==>
              Alike(c.(state := Examine(c, in_).measured), c'.(state := Examine(c', Shifted(in_, load)).measured), load)
    ensures Examine(c, in_).Refuse? ==>
              && Examine(c, in_).fault == Examine(c', Shifted(in_, load)).fault
              && SameMotion(Examine(c, in_).counted, Examine(c', Shifted(in_, load)).counted)
  {
  }

  lemma NextAlike(platform: Platform, c: Controller, c': Controller, in_: Inputs, load: real)
    requires Usable(c) && Usable(c') && Alike(c, c', load) && BothWithin(c.p, in_, load)
    ensures Alike(Next(platform, c, in_), Next(platform, c', Shifted(in_, load)), load)
  {
    ExamineAlike(c, c', in_, load);
    match Examine(c, in_)
    case Refuse(_, _) =>
    case Proceed(s) =>
      var m, m' := c.(state := s), c'.(state := Examine(c', Shifted(in_, load)).measured);
      if s.phase in {Baseline, Noise} {
        CaptureAlike(platform, m, m', in_, load);
      } else if s.phase == Compliant {
        ComplyAlike(platform, m, m', in_, load);
      }
  }

  /** Adding one constant load to every force of a run, those of the capture included,
      changes nothing that the controller asks for or reports, but the baseline by that
      load, wherever both runs stay within the largest force. */
  lemma {:induction false} LoadIsInvisible(platform: Platform, p: ZeroForceSettings, start: Inputs,
      inputs: seq<Inputs>, load: real) returns (c: Controller, c': Controller)
    requires start.position.Finite?
    requires forall i :: 0 <= i < |inputs| ==> BothWithin(p, inputs[i], load)
    ensures c == Run(platform, p, start, inputs)
    ensures c' == Run(platform, p, Shifted(start, load), AllShifted(inputs, load))
    ensures SameMotion(c.state, c'.state) && Alike(c, c', load) && c.p == p && Usable(c) && Usable(c')
    ensures c.state.valid && c.state.phase == Compliant ==> c'.state.baselineForce == c.state.baselineForce + load
  {
    if inputs == [] {
      c, c' := Activated(p, start), Activated(p, Shifted(start, load));
    } else {
      var front, last := inputs[..|inputs| - 1], inputs[|inputs| - 1];
      assert BothWithin(p, last, load);
      var before, before' := LoadIsInvisible(platform, p, start, front, load);
      ShiftedLast(inputs, load);
      c := LastUpdate(platform, p, start, inputs, before);
      c' := LastUpdate(platform, p, Shifted(start, load), AllShifted(inputs, load), before');
      NextAlike(platform, before, before', last, load);
    }
  }

  lemma LastUpdate(platform: Platform, p: ZeroForceSettings, start: Inputs, inputs: seq<Inputs>, before: Controller)
    returns (c: Controller)
    requires start.position.Finite? && inputs != []
    requires before == Run(platform, p, start, inputs[..|inputs| - 1])
    ensures c == Run(platform, p, start, inputs) && Usable(before) && Usable(c)
    ensures c == Next(platform, before, inputs[|inputs| - 1])
  {
    c := Run(platform, p, start, inputs);
  }

  lemma ShiftedLast(inputs: seq<Inputs>, load: real)
    requires inputs != []
    ensures AllShifted(inputs, load)[..|inputs| - 1] == AllShifted(inputs[..|inputs| - 1], load)
    ensures AllShifted(inputs, load)[|inputs| - 1] == Shifted(inputs[|inputs| - 1], load)
  {
  }

  // ----- a force about the baseline -----

  /** The mean of the forces that the baseline is captured from. */
  function BaselineOf(p: ZeroForceSettings, inputs: seq<Inputs>): real
    requires 0 < BaselineSamples(p) <= |inputs|
  {
    Sum(Forces(inputs)[..BaselineSamples(p)]) / BaselineSamples(p) as real
  }

  lemma Quotient(mean: real, count: nat, total: real)
    requires count > 0 && MeanOf(mean, count, total)
    ensures mean == total / count as real
  {
    var n := count as real;
    assert (mean * n) / n == mean;
  }

  /** A run that complies, with what it has captured. */
  ghost predicate Complying(platform: Platform, p: ZeroForceSettings, start: Inputs, inputs: seq<Inputs>)
    requires start.position.Finite?
  {
    var s := Run(platform, p, start, inputs).state;
    s.valid && s.phase == Compliant
  }

  lemma BaselineIs(platform: Platform, p: ZeroForceSettings, start: Inputs, inputs: seq<Inputs>)
    requires platform.Sound() && Activatable(AllFinite(p), start)
    requires Complying(platform, p, start, inputs)
    ensures !p.holdOnly && 0 < BaselineSamples(p) <= |inputs|
    ensures Run(platform, p, start, inputs).state.baselineForce == BaselineOf(p, inputs)
  {
    if p.holdOnly {
      NotHolding(platform, p, start, inputs);
    }
    CompliesExactlyWhen(platform, p, start, inputs);
    AtLeastOne(p.baselineDuration);
    AtLeastOne(p.noiseDuration);
    Quotient(Run(platform, p, start, inputs).state.baselineForce, BaselineSamples(p),
      Sum(Forces(inputs)[..BaselineSamples(p)]));
  }

  lemma {:induction false} NotHolding(platform: Platform, p: ZeroForceSettings, start: Inputs, inputs: seq<Inputs>)
    requires start.position.Finite? && p.holdOnly
    ensures var s := Run(platform, p, start, inputs).state;
            && (s.valid ==> s.phase == Hold && s.referencePosition ==
                              (if inputs == [] then start.position else inputs[|inputs| - 1].position))
  {
    if inputs != [] {
      NotHolding(platform, p, start, inputs[..|inputs| - 1]);
    }
  }

  /** The force beyond the captured baseline and the carriage's own inertia. */
  function Beyond(p: ZeroForceSettings, baseline: real, acceleration: real, force: real): real {
    force - (baseline + p.inertialCoefficient * acceleration)
  }

  /** How far that is out of the deadband, and to which side. */
  function OutOf(deadband: real, r: real): real {
    if r > deadband then r - deadband else if r < -deadband then r + deadband else 0.0
  }

  function Deadband(p: ZeroForceSettings, noise: real): real {
    if p.noiseMultiplier * noise <= p.minimumDeadband then p.minimumDeadband else p.noiseMultiplier * noise
  }

  lemma ResidualIs(c: Controller, force: real)
    requires c.p.Valid()
    ensures Residual(c, force) == Beyond(c.p, c.state.baselineForce, c.state.referenceAcceleration, force)
    ensures Threshold(c.p, c.state.noiseRms) == Deadband(c.p, c.state.noiseRms) >= 0.0
    ensures Excess(Residual(c, force), Threshold(c.p, c.state.noiseRms))
            == OutOf(Deadband(c.p, c.state.noiseRms), Residual(c, force))
  {
  }

  /** A carriage at rest is never set in motion by a force within the deadband of the
      captured baseline plus the inertial term. */
  lemma RestsInDeadband(platform: Platform, p: ZeroForceSettings, start: Inputs, inputs: seq<Inputs>, in_: Inputs)
    requires platform.Sound() && Activatable(AllFinite(p), start) && in_.force.Finite?
    requires Complying(platform, p, start, inputs) && Run(platform, p, start, inputs + [in_]).state.valid
    requires Run(platform, p, start, inputs).state.referenceVelocity == 0.0
    requires 0 < BaselineSamples(p) <= |inputs| ==>
               var s := Run(platform, p, start, inputs).state;
               var r := Beyond(p, BaselineOf(p, inputs), s.referenceAcceleration, in_.force.value);
               -Deadband(p, s.noiseRms) <= r <= Deadband(p, s.noiseRms)
    ensures var s, s' := Run(platform, p, start, inputs).state, Run(platform, p, start, inputs + [in_]).state;
            && s'.referenceVelocity == 0.0 && s'.referenceAcceleration == 0.0
            && s'.referencePosition == s.referencePosition
  {
    assert (inputs + [in_])[..|inputs|] == inputs;
    RunSafe(platform, p, start, inputs);
    BaselineIs(platform, p, start, inputs);
    RestStep(platform, Run(platform, p, start, inputs), in_);
  }

  lemma RestStep(platform: Platform, c: Controller, in_: Inputs)
    requires platform.Sound() && c.p.Valid() && Safe(c) && Usable(c)
    requires c.state.valid && c.state.phase == Compliant && Next(platform, c, in_).state.valid
    requires c.state.referenceVelocity == 0.0 && in_.force.Finite?
    requires var r := Beyond(c.p, c.state.baselineForce, c.state.referenceAcceleration, in_.force.value);
             -Deadband(c.p, c.state.noiseRms) <= r <= Deadband(c.p, c.state.noiseRms)
    ensures var s, s' := c.state, Next(platform, c, in_).state;
            && s'.referenceVelocity == 0.0 && s'.referenceAcceleration == 0.0
            && s'.referencePosition == s.referencePosition
  {
    ComplyAdvances(platform, c, in_);
    ResidualIs(c, in_.force.value);
    DeadbandCoasts(platform, c, Residual(c, in_.force.value));
    NextVelocityIs(platform, c, in_);
  }

  lemma NextVelocityIs(platform: Platform, c: Controller, in_: Inputs)
    requires Usable(c) && c.active && c.state.valid && c.state.phase == Compliant && Next(platform, c, in_).state.valid
    ensures in_.AllFinite()
    ensures Next(platform, c, in_).state.referenceVelocity == NextVelocity(platform, c, Residual(c, in_.force.value))
    ensures Next(platform, c, in_).state.residualForce == Residual(c, in_.force.value)
  {
    var c' := Taken(platform, c, in_);
    ComplyIs(platform, c', in_);
    SameResidual(c, c', in_.force.value);
    SameVelocity(platform, c, c', Residual(c, in_.force.value));
  }

  /** The measurement is taken in, and compliance follows. */
  lemma Taken(platform: Platform, c: Controller, in_: Inputs) returns (c': Controller)
    requires Usable(c) && c.active && c.state.valid && c.state.phase == Compliant && Next(platform, c, in_).state.valid
    ensures in_.AllFinite()
    ensures c' == c.(state := c'.state)
    ensures c'.state == c.state.(measured := in_, excessivePeriods := c'.state.excessivePeriods)
    ensures Next(platform, c, in_) == Comply(platform, c', in_)
  {
    c' := c.(state := CountPeriod(c.state, in_).(measured := in_));
  }

  lemma ComplyIs(platform: Platform, c: Controller, in_: Inputs)
    requires in_.AllFinite() && c.state.referencePosition.Finite? && Comply(platform, c, in_).state.valid
    ensures var s := Comply(platform, c, in_).state;
            && s.referenceVelocity == NextVelocity(platform, c, Residual(c, in_.force.value))
            && s.residualForce == Residual(c, in_.force.value)
  {
  }

  lemma SameResidual(c: Controller, c': Controller, force: real)
    requires c'.p == c.p && c'.state.baselineForce == c.state.baselineForce
    requires c'.state.referenceAcceleration == c.state.referenceAcceleration
    ensures Residual(c', force) == Residual(c, force)
  {
  }

  lemma SameVelocity(platform: Platform, c: Controller, c': Controller, residual: real)
    requires c'.p == c.p && c'.state.noiseRms == c.state.noiseRms
    requires c'.state.referenceVelocity == c.state.referenceVelocity
    ensures NextVelocity(platform, c', residual) == NextVelocity(platform, c, residual)
  {
    assert Threshold(c'.p, c'.state.noiseRms) == Threshold(c.p, c.state.noiseRms);
  }

  // ----- more force, more motion -----

  /** The acceleration a force out of the deadband calls for, and what one update of it
      adds to the velocity, with the response's sign. */
  function Pulled(p: ZeroForceSettings, out: real): real {
    p.accelerationPerForce * out
  }

  function Push(p: ZeroForceSettings, out: real): real {
    p.responseSign as real * Pulled(p, out) * DT
  }

  function Faded(velocity: real, decay: real): real {
    velocity * decay
  }

  /** The update was not held back by a limit. */
  predicate OffLimits(p: ZeroForceSettings, s: Snapshot, s': Snapshot, out: real) {
    && -p.maxAcceleration < Pulled(p, out) < p.maxAcceleration
    && -p.maxAcceleration * DT < s'.referenceVelocity - s.referenceVelocity < p.maxAcceleration * DT
    && -p.maxVelocity < s'.referenceVelocity < p.maxVelocity
  }

  /** Where no limit holds it back, the velocity is what the force adds to it, decayed. */
  lemma OffLimitsStep(platform: Platform, c: Controller, in_: Inputs, out: real)
    requires Usable(c) && c.active && c.state.valid && c.state.phase == Compliant && Next(platform, c, in_).state.valid
    requires c.p.Valid() && in_.force.Finite?
    requires out == OutOf(Deadband(c.p, c.state.noiseRms),
                          Beyond(c.p, c.state.baselineForce, c.state.referenceAcceleration, in_.force.value))
    requires OffLimits(c.p, c.state, Next(platform, c, in_).state, out)
    ensures Next(platform, c, in_).state.referenceVelocity
            == Faded(c.state.referenceVelocity + Push(c.p, out), platform.decay(c.p.damping * DT))
  {
    NextVelocityIs(platform, c, in_);
    ResidualIs(c, in_.force.value);
    PushedVelocity(platform, c, Residual(c, in_.force.value), out);
  }

  lemma PushedVelocity(platform: Platform, c: Controller, residual: real, out: real)
    requires c.p.Valid() && out == Excess(residual, Threshold(c.p, c.state.noiseRms))
    requires -c.p.maxAcceleration < Pulled(c.p, out) < c.p.maxAcceleration
    requires var next := NextVelocity(platform, c, residual);
             && -c.p.maxAcceleration * DT < next - c.state.referenceVelocity < c.p.maxAcceleration * DT
             && -c.p.maxVelocity < next < c.p.maxVelocity
    ensures NextVelocity(platform, c, residual)
            == Faded(c.state.referenceVelocity + Push(c.p, out), platform.decay(c.p.damping * DT))
  {
    var decay := platform.decay(c.p.damping * DT);
    SignedPull(c.p, out);
    Unlimited(c.p, Damped(c.state.referenceVelocity, Response(c.p, out), decay), c.state.referenceVelocity);
    DampedPush(c.p, c.state.referenceVelocity, out, decay);
  }

  lemma SignedPull(p: ZeroForceSettings, out: real)
    requires p.Valid() && -p.maxAcceleration < Pulled(p, out) < p.maxAcceleration
    ensures Response(p, out) == p.responseSign as real * Pulled(p, out)
  {
    assert p.responseSign == 1 ==> Pull(1.0, p.accelerationPerForce, out) == Pulled(p, out);
    assert p.responseSign == -1 ==> Pull(-1.0, p.accelerationPerForce, out) == -Pulled(p, out);
  }

  lemma DampedPush(p: ZeroForceSettings, velocity: real, out: real, decay: real)
    requires Response(p, out) == p.responseSign as real * Pulled(p, out)
    ensures Damped(velocity, Response(p, out), decay) == Faded(velocity + Push(p, out), decay)
  {
  }

  lemma Unlimited(p: ZeroForceSettings, damped: real, velocity: real)
    requires var next := Limited(p, damped, velocity);
             && -p.maxAcceleration * DT < next - velocity < p.maxAcceleration * DT
             && -p.maxVelocity < next < p.maxVelocity
    ensures Limited(p, damped, velocity) == damped
  {
  }

  /** The same input with another force. */
  function WithForce(in_: Inputs, force: real): Inputs {
    in_.(force := Finite(force))
  }

  /** A larger measured force never moves the reference against the response sign, and
      moves it strictly with it if it is out of the deadband on the one side, or the
      smaller one on the other, where the gain is positive and no limit holds either
      back. */
  lemma ForceMoves(platform: Platform, p: ZeroForceSettings, start: Inputs, inputs: seq<Inputs>, in_: Inputs,
      force: real, larger: real)
    requires platform.Sound() && Activatable(AllFinite(p), start) && Complying(platform, p, start, inputs)
    requires force < larger
    requires Run(platform, p, start, inputs + [WithForce(in_, force)]).state.valid
    requires Run(platform, p, start, inputs + [WithForce(in_, larger)]).state.valid
    ensures var a := Run(platform, p, start, inputs + [WithForce(in_, force)]).state;
            var b := Run(platform, p, start, inputs + [WithForce(in_, larger)]).state;
            && a.referencePosition.Finite? && b.referencePosition.Finite?
            && (p.responseSign == 1 ==>
                  a.referenceVelocity <= b.referenceVelocity && a.referencePosition.value <= b.referencePosition.value)
            && (p.responseSign == -1 ==>
                  a.referenceVelocity >= b.referenceVelocity && a.referencePosition.value >= b.referencePosition.value)
    ensures MovesStrictly(platform, p, start, inputs, in_, force, larger) ==>
              var a := Run(platform, p, start, inputs + [WithForce(in_, force)]).state;
              var b := Run(platform, p, start, inputs + [WithForce(in_, larger)]).state;
              && (p.responseSign == 1 ==> a.referenceVelocity < b.referenceVelocity)
              && (p.responseSign == -1 ==> a.referenceVelocity > b.referenceVelocity)
  {
    var c := Run(platform, p, start, inputs);
    RunSafe(platform, p, start, inputs);
    Both(platform, p, start, inputs, in_, force);
    Both(platform, p, start, inputs, in_, larger);
    YieldsToForce(platform, c, Residual(c, force), Residual(c, larger));
    if MovesStrictly(platform, p, start, inputs, in_, force, larger) {
      StrictlyMoved(platform, c, in_, force, larger);
    }
  }

  /** What such an update with a force leads to. */
  lemma Both(platform: Platform, p: ZeroForceSettings, start: Inputs, inputs: seq<Inputs>, in_: Inputs, force: real)
    requires Activatable(AllFinite(p), start) && Complying(platform, p, start, inputs)
    requires Run(platform, p, start, inputs + [WithForce(in_, force)]).state.valid
    ensures var c := Run(platform, p, start, inputs);
            var s' := Run(platform, p, start, inputs + [WithForce(in_, force)]).state;
            && s' == Next(platform, c, WithForce(in_, force)).state
            && c.state.referencePosition.Finite? && s'.referencePosition.Finite?
            && s'.referenceVelocity == NextVelocity(platform, c, Residual(c, force))
            && s'.referencePosition.value == c.state.referencePosition.value + s'.referenceVelocity * DT
  {
    var c := Run(platform, p, start, inputs);
    RunSafe(platform, p, start, inputs);
    assert (inputs + [WithForce(in_, force)])[..|inputs|] == inputs;
    ComplyAdvances(platform, c, WithForce(in_, force));
    NextVelocityIs(platform, c, WithForce(in_, force));
  }

  function OutAt(c: Controller, force: real): real {
    OutOf(Deadband(c.p, c.state.noiseRms), Beyond(c.p, c.state.baselineForce, c.state.referenceAcceleration, force))
  }

  ghost predicate MovesStrictly(platform: Platform, p: ZeroForceSettings, start: Inputs, inputs: seq<Inputs>,
      in_: Inputs, force: real, larger: real)
    requires start.position.Finite?
  {
    var c := Run(platform, p, start, inputs);
    && p.accelerationPerForce > 0.0
    && (OutAt(c, larger) > 0.0 || OutAt(c, force) < 0.0)
    && OffLimits(p, c.state, Run(platform, p, start, inputs + [WithForce(in_, force)]).state, OutAt(c, force))
    && OffLimits(p, c.state, Run(platform, p, start, inputs + [WithForce(in_, larger)]).state, OutAt(c, larger))
  }

  lemma StrictlyMoved(platform: Platform, c: Controller, in_: Inputs, force: real, larger: real)
    requires platform.Sound() && c.p.Valid() && c.p.accelerationPerForce > 0.0
    requires Usable(c) && c.active && c.state.valid && c.state.phase == Compliant
    requires force < larger && (OutAt(c, larger) > 0.0 || OutAt(c, force) < 0.0)
    requires var a := Next(platform, c, WithForce(in_, force)).state;
             var b := Next(platform, c, WithForce(in_, larger)).state;
             && a.valid && b.valid
             && OffLimits(c.p, c.state, a, OutAt(c, force)) && OffLimits(c.p, c.state, b, OutAt(c, larger))
    ensures var a := Next(platform, c, WithForce(in_, force)).state;
            var b := Next(platform, c, WithForce(in_, larger)).state;
            && (c.p.responseSign == 1 ==> a.referenceVelocity < b.referenceVelocity)
            && (c.p.responseSign == -1 ==> a.referenceVelocity > b.referenceVelocity)
  {
    OffLimitsStep(platform, c, WithForce(in_, force), OutAt(c, force));
    OffLimitsStep(platform, c, WithForce(in_, larger), OutAt(c, larger));
    assert OutAt(c, force) < OutAt(c, larger) by {
      ResidualIs(c, force);
    }
    var decay := DecayOf(platform, c.p);
    PushedStrictly(c.p, c.state.referenceVelocity, OutAt(c, force), OutAt(c, larger), decay);
  }

  lemma PushedStrictly(p: ZeroForceSettings, v: real, out: real, larger: real, decay: real)
    requires p.accelerationPerForce > 0.0 && decay > 0.0 && out < larger
    ensures p.responseSign == 1 ==> Faded(v + Push(p, out), decay) < Faded(v + Push(p, larger), decay)
    ensures p.responseSign == -1 ==> Faded(v + Push(p, out), decay) > Faded(v + Push(p, larger), decay)
  {
    StrictOrder(p.accelerationPerForce, out, larger);
    var x, y := Pulled(p, out), Pulled(p, larger);
    if p.responseSign == 1 {
      assert Push(p, out) == x * DT && Push(p, larger) == y * DT;
      StrictOrder(decay, v + Push(p, out), v + Push(p, larger));
    } else if p.responseSign == -1 {
      assert Push(p, out) == -x * DT && Push(p, larger) == -y * DT;
      StrictOrder(decay, v + Push(p, larger), v + Push(p, out));
    }
  }

  lemma StrictOrder(k: real, a: real, b: real)
    requires k > 0.0 && a < b
    ensures k * a < k * b && a * k < b * k
  {
    assert k * (b - a) > 0.0;
  }

  // ----- the closed form -----

  function Power(base: real, n: nat): real {
    if n == 0 then 1.0 else base * Power(base, n - 1)
  }

  /** Each push, decayed once for every update since it was made. */
  function Decayed(pushes: seq<real>, decay: real): real {
    if pushes == [] then 0.0 else Power(decay, |pushes|) * pushes[0] + Decayed(pushes[1..], decay)
  }

  lemma {:induction false} DecayedMore(pushes: seq<real>, push: real, decay: real)
    ensures Decayed(pushes + [push], decay) == (Decayed(pushes, decay) + push) * decay
    decreases |pushes|
  {
    if pushes == [] {
      assert [push][1..] == [] && [] + [push] == [push];
      assert Power(decay, 1) == decay * Power(decay, 0);
    } else {
      assert (pushes + [push])[1..] == pushes[1..] + [push];
      DecayedMore(pushes[1..], push, decay);
      Distribute(Power(decay, |pushes|), decay, pushes[0], Decayed(pushes[1..], decay), push);
    }
  }

  lemma Distribute(power: real, decay: real, first: real, rest: real, push: real)
    ensures decay * power * first + (rest + push) * decay == (power * first + rest + push) * decay
  {
  }

  /** v is what is left of first and of the pushes since. */
  ghost predicate Leaky(first: real, v: real, pushes: seq<real>, decay: real) {
    v == first * Power(decay, |pushes|) + Decayed(pushes, decay)
  }

  lemma LeakyMore(first: real, v: real, pushes: seq<real>, push: real, v': real, decay: real)
    requires Leaky(first, v, pushes, decay) && v' == Faded(v + push, decay)
    ensures Leaky(first, v', pushes + [push], decay)
  {
    DecayedMore(pushes, push, decay);
    assert |pushes + [push]| == |pushes| + 1;
    Leaks(first, Power(decay, |pushes|), Decayed(pushes, decay), push, decay);
  }

  lemma Leaks(first: real, power: real, rest: real, push: real, decay: real)
    ensures Faded(first * power + rest + push, decay) == first * (decay * power) + (rest + push) * decay
  {
    var product := first * power;
    assert first * (decay * power) == product * decay;
  }

  /** The velocity each of the updates after the first n adds before it decays: the gain,
      with the response's sign, on the force out of the deadband. */
  function Pushes(platform: Platform, p: ZeroForceSettings, start: Inputs, inputs: seq<Inputs>, n: nat): (ps: seq<real>)
    requires start.position.Finite? && n <= |inputs|
    ensures |ps| == |inputs| - n
  {
    if n == |inputs| then []
    else
      var front := inputs[..|inputs| - 1];
      Pushes(platform, p, start, front, n)
      + [Push(p, OutAt(Run(platform, p, start, front), ForceOf(inputs[|inputs| - 1])))]
  }

  ghost predicate FreeAt(platform: Platform, p: ZeroForceSettings, start: Inputs, inputs: seq<Inputs>, k: nat)
    requires start.position.Finite? && k < |inputs|
  {
    var c := Run(platform, p, start, inputs[..k]);
    OffLimits(p, c.state, Run(platform, p, start, inputs[..k + 1]).state, OutAt(c, ForceOf(inputs[k])))
  }

  /** Closed form: over any updates that no limit holds back, the velocity is the one
      they began with and every push since, each decayed once for every update it is
      old. */
  lemma {:induction false} ComplianceIsLeaky(platform: Platform, p: ZeroForceSettings, start: Inputs,
      inputs: seq<Inputs>, n: nat) returns (first: real, v: real, pushes: seq<real>)
    requires platform.Sound() && Activatable(AllFinite(p), start) && n <= |inputs|
    requires Complying(platform, p, start, inputs[..n]) && Run(platform, p, start, inputs).state.valid
    requires forall k :: n <= k < |inputs| ==> FreeAt(platform, p, start, inputs, k)
    ensures first == Run(platform, p, start, inputs[..n]).state.referenceVelocity
    ensures v == Run(platform, p, start, inputs).state.referenceVelocity
    ensures pushes == Pushes(platform, p, start, inputs, n)
    ensures Leaky(first, v, pushes, platform.decay(p.damping * DT))
  {
    if n == |inputs| {
      assert inputs[..n] == inputs;
      v := Run(platform, p, start, inputs).state.referenceVelocity;
      first, pushes := v, [];
    } else {
      var front := inputs[..|inputs| - 1];
      FrontComplies(platform, p, start, inputs, n);
      first, v, pushes := ComplianceIsLeaky(platform, p, start, front, n);
      var before, push := v, 0.0;
      before, v, push := LastPush(platform, p, start, inputs);
      LeakyMore(first, before, pushes, push, v, platform.decay(p.damping * DT));
      pushes := pushes + [push];
    }
  }

  lemma FrontComplies(platform: Platform, p: ZeroForceSettings, start: Inputs, inputs: seq<Inputs>, n: nat)
    requires platform.Sound() && Activatable(AllFinite(p), start) && n < |inputs|
    requires Complying(platform, p, start, inputs[..n]) && Run(platform, p, start, inputs).state.valid
    requires forall k :: n <= k < |inputs| ==> FreeAt(platform, p, start, inputs, k)
    ensures var front := inputs[..|inputs| - 1];
            && front[..n] == inputs[..n]
            && Complying(platform, p, start, front)
            && FreeAt(platform, p, start, inputs, |front|)
            && forall k :: n <= k < |front| ==> FreeAt(platform, p, start, front, k)
  {
    var front := inputs[..|inputs| - 1];
    assert front[..n] == inputs[..n];
    ValidBefore(platform, p, start, inputs, |front|);
    ComplianceSums(platform, p, start, front, n);
    forall k | n <= k < |front| ensures FreeAt(platform, p, start, front, k) {
      assert FreeAt(platform, p, start, inputs, k);
      assert front[..k] == inputs[..k] && front[..k + 1] == inputs[..k + 1];
    }
  }

  /** The last update's push. */
  lemma LastPush(platform: Platform, p: ZeroForceSettings, start: Inputs, inputs: seq<Inputs>)
    returns (v: real, v': real, push: real)
    requires platform.Sound() && Activatable(AllFinite(p), start) && inputs != []
    requires Complying(platform, p, start, inputs[..|inputs| - 1]) && Run(platform, p, start, inputs).state.valid
    requires FreeAt(platform, p, start, inputs, |inputs| - 1)
    ensures v == Run(platform, p, start, inputs[..|inputs| - 1]).state.referenceVelocity
    ensures v' == Run(platform, p, start, inputs).state.referenceVelocity
    ensures push == Push(p, OutAt(Run(platform, p, start, inputs[..|inputs| - 1]), ForceOf(inputs[|inputs| - 1])))
    ensures v' == Faded(v + push, platform.decay(p.damping * DT))
  {
    var front, last := inputs[..|inputs| - 1], inputs[|inputs| - 1];
    var c, s' := Run(platform, p, start, front), Run(platform, p, start, inputs).state;
    RunSafe(platform, p, start, front);
    RunLast(platform, p, start, inputs);
    FreeLast(platform, p, start, inputs, c, s');
    v, v', push := LastStep(platform, p, c, last, s');
  }

  lemma FreeLast(platform: Platform, p: ZeroForceSettings, start: Inputs, inputs: seq<Inputs>, c: Controller,
      s': Snapshot)
    requires start.position.Finite? && inputs != []
    requires c == Run(platform, p, start, inputs[..|inputs| - 1]) && s' == Run(platform, p, start, inputs).state
    requires FreeAt(platform, p, start, inputs, |inputs| - 1)
    ensures OffLimits(p, c.state, s', OutAt(c, ForceOf(inputs[|inputs| - 1])))
  {
    assert inputs[..|inputs|] == inputs;
  }

  lemma RunLast(platform: Platform, p: ZeroForceSettings, start: Inputs, inputs: seq<Inputs>)
    requires start.position.Finite? && inputs != []
    ensures Run(platform, p, start, inputs)
            == Next(platform, Run(platform, p, start, inputs[..|inputs| - 1]), inputs[|inputs| - 1])
  {
  }

  lemma LastStep(platform: Platform, p: ZeroForceSettings, c: Controller, in_: Inputs, s': Snapshot)
    returns (v: real, v': real, push: real)
    requires Usable(c) && c.active && c.state.valid && c.state.phase == Compliant
    requires c.p == p && p.Valid() && s' == Next(platform, c, in_).state && s'.valid
    requires OffLimits(p, c.state, s', OutAt(c, ForceOf(in_)))
    ensures v == c.state.referenceVelocity && v' == s'.referenceVelocity && push == Push(p, OutAt(c, ForceOf(in_)))
    ensures v' == Faded(v + push, platform.decay(p.damping * DT))
  {
    NextVelocityIs(platform, c, in_);
    OffLimitsStep(platform, c, in_, OutAt(c, ForceOf(in_)));
    v, v', push := c.state.referenceVelocity, s'.referenceVelocity, Push(p, OutAt(c, ForceOf(in_)));
  }
}
