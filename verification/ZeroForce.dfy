/** The compliant controller: a baseline and its noise are captured at rest, then
    the reference yields to the force beyond a deadband. */
module ZeroForce {
  import opened ControlTypes

  /** The two functions of the mathematical library: the square root, and the decay
      of one cycle, which is the exponential of its negated argument. */
  datatype Platform = Platform(root: real -> real, decay: real -> real)
  {
    ghost predicate Sound() {
      && (forall x: real :: x >= 0.0 ==> root(x) >= 0.0 && root(x) * root(x) == x)
      && (forall x: real :: x >= 0.0 ==> 0.0 < decay(x) <= 1.0)
    }
  }

  datatype ZeroForceSettings = ZeroForceSettings(
    bounds: MotionBounds,
    holdOnly: bool,
    baselineDuration: real,
    noiseDuration: real,
    accelerationPerForce: real,
    damping: real,
    inertialCoefficient: real,
    noiseMultiplier: real,
    minimumDeadband: real,
    maxAcceleration: real,
    maxVelocity: real,
    stationaryVelocity: real,
    maxForce: real,
    responseSign: int)
  {
    predicate Valid() {
      && bounds.Valid()
      && DT <= baselineDuration <= 60.0
      && DT <= noiseDuration <= 60.0
      && 0.0 <= accelerationPerForce <= 100.0
      && 0.0 <= damping <= 1000.0
      && Abs(inertialCoefficient) <= 1000.0
      && 0.0 <= noiseMultiplier <= 20.0
      && 0.0 <= minimumDeadband <= 1000.0
      && 0.0 < maxAcceleration <= 100.0
      && 0.0 < maxVelocity <= 1.0
      && 0.0 < stationaryVelocity <= 0.1
      && 0.0 < maxForce <= 1000000.0
      && (responseSign == -1 || responseSign == 1)
    }
  }

  function Ceil(x: real): int {
    -((-x).Floor)
  }

  datatype Controller = Controller(
    p: ZeroForceSettings,
    state: Snapshot,
    active: bool,
    count: nat,
    origin: real,
    mean: real,
    noiseScale: real,
    noiseSum: real)

  predicate Activatable(p: Checked<ZeroForceSettings>, in_: Inputs) {
    && p.AllFinite? && p.value.Valid() && in_.AllFinite()
    && Abs(in_.velocity.value) <= p.value.stationaryVelocity
    && Abs(in_.force.value) <= p.value.maxForce
    && p.value.bounds.ContainsNum(in_.position, in_.position.value)
  }

  function Activated(p: ZeroForceSettings, in_: Inputs): Controller
    requires in_.position.Finite?
  {
    Controller(p,
      EMPTY_SNAPSHOT.(measured := in_, referencePosition := in_.position,
                      phase := if p.holdOnly then Hold else Baseline),
      true, 0, in_.position.value, 0.0, 0.0, 0.0)
  }

  function WithFault(c: Controller, counted: Snapshot, in_: Inputs, fault: Fault): Controller {
    c.(state := Fail(counted, in_, fault))
  }

  // ----- capture -----

  function RunningMean(mean: real, force: real, count: nat): real
    requires count > 0
  {
    mean + (force - mean) / count as real
  }

  function Rms(platform: Platform, scale: real, sum: real, count: nat): real
    requires count > 0
  {
    scale * platform.root(sum / count as real)
  }

  function SampleBaseline(c: Controller, force: real): Controller {
    var count := c.count + 1;
    var mean := RunningMean(c.mean, force, count);
    var done := count >= Ceil(c.p.baselineDuration / DT);
    c.(count := if done then 0 else count, mean := mean,
       state := c.state.(baselineForce := mean, phase := if done then Noise else c.state.phase))
  }

  function Ratio(a: real, b: real): real
    requires b != 0.0
  {
    a / b
  }

  function Rescaled(sum: real, ratio: real): real {
    1.0 + sum * ratio * ratio
  }

  function Added(sum: real, ratio: real): real {
    sum + ratio * ratio
  }

  /** The scale is the largest deviation so far and the sum is relative to its square. */
  function Accumulated(scale: real, sum: real, deviation: real): (real, real)
    requires deviation >= 0.0
  {
    if deviation == 0.0 then (scale, sum)
    else if deviation > scale then (deviation, Rescaled(sum, Ratio(scale, deviation)))
    else (scale, Added(sum, Ratio(deviation, scale)))
  }

  function SampleNoise(platform: Platform, c: Controller, force: real): Controller {
    var (scale, sum) := Accumulated(c.noiseScale, c.noiseSum, Abs(force - c.state.baselineForce));
    var count := c.count + 1;
    var done := count >= Ceil(c.p.noiseDuration / DT);
    c.(noiseScale := scale, noiseSum := sum, count := count,
       state := c.state.(noiseRms := Rms(platform, scale, sum, count),
                         phase := if done then Compliant else c.state.phase,
                         progress := if done then 1.0 else c.state.progress))
  }

  function Capture(platform: Platform, c: Controller, in_: Inputs): Controller
    requires in_.AllFinite()
  {
    if Abs(in_.velocity.value) > c.p.stationaryVelocity then WithFault(c, c.state, in_, Feedback)
    else
      var held := c.(state := c.state.(referencePosition := in_.position));
      if c.state.phase == Baseline then SampleBaseline(held, in_.force.value)
      else SampleNoise(platform, held, in_.force.value)
  }

  // ----- compliance -----

  /** The force without its baseline and the carriage's own inertia. */
  function Residual(c: Controller, force: real): real {
    force - c.state.baselineForce - c.p.inertialCoefficient * c.state.referenceAcceleration
  }

  function Threshold(p: ZeroForceSettings, noiseRms: real): real {
    Max(p.minimumDeadband, p.noiseMultiplier * noiseRms)
  }

  function Excess(residual: real, threshold: real): real {
    CopySign(Max(0.0, Abs(residual) - threshold), residual)
  }

  function Pull(sign: real, gain: real, excess: real): real {
    sign * gain * excess
  }

  function Response(p: ZeroForceSettings, excess: real): real {
    Clamp(Pull(p.responseSign as real, p.accelerationPerForce, excess), -p.maxAcceleration, p.maxAcceleration)
  }

  function Damped(velocity: real, response: real, decay: real): real {
    (velocity + response * DT) * decay
  }

  function Limited(p: ZeroForceSettings, damped: real, velocity: real): real {
    var step := p.maxAcceleration * DT;
    Clamp(Clamp(damped, velocity - step, velocity + step), -p.maxVelocity, p.maxVelocity)
  }

  function NextVelocity(platform: Platform, c: Controller, residual: real): real {
    var response := Response(c.p, Excess(residual, Threshold(c.p, c.state.noiseRms)));
    var damped := Damped(c.state.referenceVelocity, response, platform.decay(c.p.damping * DT));
    Limited(c.p, damped, c.state.referenceVelocity)
  }

  function Comply(platform: Platform, c: Controller, in_: Inputs): Controller
    requires in_.AllFinite() && c.state.referencePosition.Finite?
  {
    var residual := Residual(c, in_.force.value);
    var velocity := NextVelocity(platform, c, residual);
    var target := c.state.referencePosition.value + velocity * DT;
    var s := c.state.(residualForce := residual);
    if !c.p.bounds.Contains(target, c.origin) then WithFault(c, s, in_, Bounds)
    else
      c.(state := s.(referenceAcceleration := (velocity - c.state.referenceVelocity) / DT,
                     referenceVelocity := velocity,
                     referencePosition := Finite(target)))
  }

  // ----- one update -----

  datatype Verdict = Refuse(counted: Snapshot, fault: Fault) | Proceed(measured: Snapshot)

  function Examine(c: Controller, in_: Inputs): Verdict {
    if !c.active || !c.state.valid then Refuse(c.state, c.state.fault)
    else if !in_.AllFinite() || Abs(in_.force.value) > c.p.maxForce then Refuse(c.state, Feedback)
    else
      var counted := CountPeriod(c.state, in_);
      if !PeriodValid(c.state, in_) then Refuse(counted, Period)
      else if !c.p.bounds.ContainsNum(in_.position, c.origin) then Refuse(counted, Bounds)
      else Proceed(counted.(measured := in_))
  }

  predicate Usable(c: Controller) {
    c.active && c.state.valid ==> c.state.referencePosition.Finite?
  }

  function Next(platform: Platform, c: Controller, in_: Inputs): Controller
    requires Usable(c)
  {
    match Examine(c, in_)
    case Refuse(s, fault) => WithFault(c, s, in_, fault)
    case Proceed(s) =>
      var measured := c.(state := s);
      if s.phase == Hold then measured.(state := s.(referencePosition := in_.position))
      else if s.phase == Baseline || s.phase == Noise then Capture(platform, measured, in_)
      else Comply(platform, measured, in_)
  }

  class ZeroForceLogic {
    const platform: Platform
    var p: ZeroForceSettings
    var state: Snapshot
    var active: bool
    var count: nat
    var origin: real
    var mean: real
    var noiseScale: real
    var noiseSum: real

    ghost predicate Valid()
      reads this
    {
      Usable(Machine())
    }

    ghost function Machine(): Controller
      reads this
    {
      Controller(p, state, active, count, origin, mean, noiseScale, noiseSum)
    }

    constructor (platform: Platform, defaults: ZeroForceSettings)
      ensures Valid() && !active && this.platform == platform
    {
      this.platform := platform;
      p, state, active, count := defaults, EMPTY_SNAPSHOT, false, 0;
      origin, mean, noiseScale, noiseSum := 0.0, 0.0, 0.0, 0.0;
    }

    method Reset()
      modifies this
      ensures Machine() == Controller(old(p), EMPTY_SNAPSHOT, false, 0, 0.0, 0.0, 0.0, 0.0)
    {
      state, active, count := EMPTY_SNAPSHOT, false, 0;
      origin, mean, noiseScale, noiseSum := 0.0, 0.0, 0.0, 0.0;
    }

    method Activate(settings: Checked<ZeroForceSettings>, in_: Inputs) returns (ok: bool)
      modifies this
      ensures Valid()
      ensures ok == active == Activatable(settings, in_)
      ensures ok ==> Machine() == Activated(settings.value, in_)
      ensures !ok ==> state == EMPTY_SNAPSHOT
    {
      Reset();
      if !Activatable(settings, in_) {
        return false;
      }
      p, origin := settings.value, in_.position.value;
      state := state.(measured := in_, referencePosition := in_.position,
                      phase := if p.holdOnly then Hold else Baseline);
      active := true;
      return true;
    }

    method Raise(in_: Inputs, reason: Fault)
      modifies `state
      ensures Machine() == WithFault(old(Machine()), old(state), in_, reason)
    {
      state := Fail(state, in_, reason);
    }

    method Accept(in_: Inputs) returns (ok: bool)
      requires Valid()
      modifies `state
      ensures match Examine(old(Machine()), in_)
              case Refuse(s, fault) => !ok && state == Fail(s, in_, fault)
              case Proceed(s) => ok && state == s
    {
      ok := false;
      if !active || !state.valid {
        Raise(in_, state.fault);
        return;
      }
      if !in_.AllFinite() || Abs(in_.force.value) > p.maxForce {
        Raise(in_, Feedback);
        return;
      }
      var periodValid := PeriodValid(state, in_);
      state := CountPeriod(state, in_);
      if !periodValid {
        Raise(in_, Period);
        return;
      }
      if !p.bounds.ContainsNum(in_.position, origin) {
        Raise(in_, Bounds);
        return;
      }
      state := state.(measured := in_);
      ok := true;
    }

    method AddBaseline(force: real)
      modifies this
      ensures Machine() == SampleBaseline(old(Machine()), force)
    {
      count := count + 1;
      mean := RunningMean(mean, force, count);
      state := state.(baselineForce := mean);
      if count >= Ceil(p.baselineDuration / DT) {
        state := state.(phase := Noise);
        count := 0;
      }
    }

    method AddNoise(force: real)
      modifies this
      ensures Machine() == SampleNoise(platform, old(Machine()), force)
    {
      var deviation := Abs(force - state.baselineForce);
      Accumulate(deviation);
      count := count + 1;
      state := state.(noiseRms := Rms(platform, noiseScale, noiseSum, count));
      if count >= Ceil(p.noiseDuration / DT) {
        state := state.(phase := Compliant, progress := 1.0);
      }
    }

    method Accumulate(deviation: real)
      requires deviation >= 0.0
      modifies `noiseScale, `noiseSum
      ensures (noiseScale, noiseSum) == Accumulated(old(noiseScale), old(noiseSum), deviation)
    {
      if deviation > 0.0 {
        if deviation > noiseScale {
          noiseSum := Rescaled(noiseSum, Ratio(noiseScale, deviation));
          noiseScale := deviation;
        } else {
          noiseSum := Added(noiseSum, Ratio(deviation, noiseScale));
        }
      }
    }

    method CaptureSample(in_: Inputs)
      requires in_.AllFinite()
      modifies this
      ensures Machine() == Capture(platform, old(Machine()), in_)
    {
      if Abs(in_.velocity.value) > p.stationaryVelocity {
        Raise(in_, Feedback);
        return;
      }
      state := state.(referencePosition := in_.position);
      if state.phase == Baseline {
        AddBaseline(in_.force.value);
      } else {
        AddNoise(in_.force.value);
      }
    }

    method Follow(residual: real) returns (velocity: real)
      ensures velocity == NextVelocity(platform, Machine(), residual)
    {
      var threshold := Threshold(p, state.noiseRms);
      var excess := CopySign(Max(0.0, Abs(residual) - threshold), residual);
      var response := Response(p, excess);
      var damped := Damped(state.referenceVelocity, response, platform.decay(p.damping * DT));
      velocity := Limited(p, damped, state.referenceVelocity);
    }

    method Yield(in_: Inputs)
      requires in_.AllFinite() && state.referencePosition.Finite?
      modifies `state
      ensures Machine() == Comply(platform, old(Machine()), in_)
    {
      ghost var entry := Machine();
      var residual := in_.force.value - state.baselineForce - p.inertialCoefficient * state.referenceAcceleration;
      var oldVelocity := state.referenceVelocity;
      var velocity := Follow(residual);
      assert residual == Residual(entry, in_.force.value);
      assert velocity == NextVelocity(platform, entry, residual);
      state := state.(residualForce := residual);
      var target := state.referencePosition.value + velocity * DT;
      if !p.bounds.Contains(target, origin) {
        Raise(in_, Bounds);
        return;
      }
      state := state.(referenceAcceleration := (velocity - oldVelocity) / DT, referenceVelocity := velocity,
                      referencePosition := Finite(target));
    }

    method Update(in_: Inputs) returns (out: Snapshot)
      requires Valid()
      modifies this
      ensures Machine() == Next(platform, old(Machine()), in_) && out == state
    {
      var ok := Accept(in_);
      if ok {
        if state.phase == Hold {
          state := state.(referencePosition := in_.position);
        } else if state.phase == Baseline || state.phase == Noise {
          CaptureSample(in_);
        } else {
          Yield(in_);
        }
      }
      return state;
    }
  }
}
