/** The calibration trajectory: a discrete jerk/acceleration/velocity recurrence
    that shuttles around a centre zone, raising its acceleration limit every few
    passes until the maximum is reached. */
module Sequencer {
  import opened ControlTypes

  datatype Parameters = Parameters(
    halfWidth: real,
    baseVelocity: real,
    jerk: real,
    initialAcceleration: real,
    accelerationIncrement: real,
    maxAcceleration: real,
    cyclesPerIncrease: int)
  {
    predicate Valid() {
      && halfWidth > 0.0
      && baseVelocity != 0.0
      && jerk > 0.0
      && 0.0 < initialAcceleration <= maxAcceleration
      && accelerationIncrement > 0.0
      && cyclesPerIncrease >= 1
    }

    function Speed(): real {
      Abs(baseVelocity)
    }

    /** The centre zone, less the guard the source keeps against roundoff. */
    function Zone(): real {
      halfWidth - CENTRE_GUARD * halfWidth
    }

    function Threshold(): real {
      maxAcceleration - LIMIT_TOLERANCE * maxAcceleration
    }
  }

  const CENTRE_GUARD: real := 0.000000001

  /** 64 machine epsilons. */
  const LIMIT_TOLERANCE: real := 64.0 / 4503599627370496.0

  /** What one update reads and writes, apart from the period bookkeeping. */
  datatype Motion = Motion(
    displacement: real,
    velocity: real,
    acceleration: real,
    limit: real,
    cycles: int,
    counted: bool,
    finished: bool)

  function Start(p: Parameters): Motion {
    Motion(0.0, 0.0, 0.0, p.initialAcceleration, 0, true, false)
  }

  predicate InCentre(p: Parameters, m: Motion) {
    Abs(m.displacement) < p.Zone()
  }

  /** The velocity a step in the centre zone leaves with. */
  function CentreVelocity(p: Parameters, m: Motion): real {
    Clamp(if m.velocity == 0.0 then p.baseVelocity else m.velocity, -p.Speed(), p.Speed())
  }

  function OuterAcceleration(p: Parameters, m: Motion): real {
    var direction := if m.displacement >= 0.0 then 1.0 else -1.0;
    Clamp(m.acceleration - direction * p.jerk * DT, -m.limit, m.limit)
  }

  /** A pass through the centre in the first leg's direction, seen by the step
      that makes it. */
  function CountPass(p: Parameters, m: Motion): Motion {
    if m.cycles + 1 >= p.cyclesPerIncrease then
      var limit := m.limit + p.accelerationIncrement;
      m.(cycles := 0, limit := limit, finished := limit >= p.Threshold(), counted := true)
    else
      m.(cycles := m.cycles + 1, counted := true)
  }

  /** The step goes through the centre zone in the first leg's direction. */
  predicate Forward(p: Parameters, m: Motion) {
    InCentre(p, m) && CentreVelocity(p, m) * p.baseVelocity > 0.0
  }

  predicate CountsPass(p: Parameters, m: Motion) {
    !m.counted && Forward(p, m)
  }

  function Step(p: Parameters, m: Motion): Motion {
    if m.finished then m
    else if InCentre(p, m) then
      var v := CentreVelocity(p, m);
      var passed := if CountsPass(p, m) then CountPass(p, m) else m;
      passed.(velocity := v, displacement := m.displacement + v * DT)
    else
      var a := OuterAcceleration(p, m);
      var v := m.velocity + a * DT;
      m.(counted := false, acceleration := a, velocity := v, displacement := m.displacement + v * DT)
  }

  /** The trajectory after n accepted updates. */
  function Run(p: Parameters, n: nat): Motion {
    if n == 0 then Start(p) else Step(p, Run(p, n - 1))
  }

  function Progress(p: Parameters, m: Motion): real {
    if m.finished then 1.0 else
    var range := p.maxAcceleration - p.initialAcceleration;
    if range > 0.0 then Clamp((m.limit - p.initialAcceleration) / range, 0.0, 1.0) else 0.0
  }

  /** The source's object, with the compensated sums it keeps. */
  class CalibrationSequencer {
    var parameters: Parameters
    var configured: bool
    var active: bool
    var finished: bool
    var startPosition: real
    var commandedPosition: real
    var displacement: real
    var displacementError: real
    var velocityError: real
    var velocity: real
    var acceleration: real
    var accelerationLimit: real
    var completedShuttleCycles: int
    var positiveCentrePassCounted: bool
    var excessivePeriods: nat

    ghost predicate Valid()
      reads this
    {
      && (configured ==> parameters.Valid())
      && (active ==> configured)
      // In exact arithmetic the compensation has nothing to carry.
      && displacementError == 0.0
      && velocityError == 0.0
      && commandedPosition == startPosition + displacement
    }

    function State(): Motion
      reads this
    {
      Motion(displacement, velocity, acceleration, accelerationLimit, completedShuttleCycles,
             positiveCentrePassCounted, finished)
    }

    constructor ()
      ensures Valid() && !configured && !active
    {
      parameters := Parameters(0.0002, 0.1, 1000.0, 0.2, 0.2, 2.0, 5);
      configured, active, finished := false, false, false;
      startPosition, commandedPosition := 0.0, 0.0;
      displacement, displacementError, velocityError := 0.0, 0.0, 0.0;
      velocity, acceleration, accelerationLimit := 0.0, 0.0, 0.0;
      completedShuttleCycles, positiveCentrePassCounted, excessivePeriods := 0, true, 0;
    }

    method Reset()
      requires Valid()
      modifies this
      ensures Valid() && !active
      ensures configured == old(configured) && parameters == old(parameters)
      ensures State() == Motion(0.0, 0.0, 0.0, 0.0, 0, true, false)
      ensures startPosition == 0.0 && excessivePeriods == 0
    {
      active, finished := false, false;
      startPosition, commandedPosition := 0.0, 0.0;
      displacement, displacementError, velocityError := 0.0, 0.0, 0.0;
      velocity, acceleration, accelerationLimit := 0.0, 0.0, 0.0;
      completedShuttleCycles, positiveCentrePassCounted, excessivePeriods := 0, true, 0;
    }

    method Configure(p: Checked<Parameters>) returns (ok: bool)
      requires Valid()
      modifies this
      ensures Valid() && !active
      ensures ok == configured == (p.AllFinite? && p.value.Valid())
      ensures parameters == if ok then p.value else old(parameters)
    {
      Reset();
      configured := p.AllFinite? && p.value.Valid();
      if configured {
        parameters := p.value;
      }
      ok := configured;
    }

    method Activate(actual: Num) returns (ok: bool)
      requires Valid()
      modifies this
      ensures Valid()
      ensures configured == old(configured) && parameters == old(parameters)
      ensures ok == active == (configured && actual.Finite?)
      ensures ok ==> State() == Start(parameters) && startPosition == actual.value && excessivePeriods == 0
    {
      Reset();
      if !configured || !actual.Finite? {
        return false;
      }
      startPosition, commandedPosition := actual.value, actual.value;
      accelerationLimit := parameters.initialAcceleration;
      active := true;
      return true;
    }

    /** Kahan's compensated addition. */
    static method Accumulate(sum: real, error: real, step: real) returns (sum': real, error': real)
      ensures sum' == sum + step - error && error' == 0.0
    {
      var corrected := step - error;
      sum' := sum + corrected;
      error' := (sum' - sum) - corrected;
    }

    /** The centre-zone half of an update: clip the speed, count the pass. */
    method PassThroughCentre()
      requires Valid() && !finished && InCentre(parameters, State())
      modifies `velocity, `velocityError, `completedShuttleCycles, `accelerationLimit, `finished,
               `positiveCentrePassCounted
      ensures Valid()
      ensures State() ==
              (if CountsPass(parameters, old(State())) then CountPass(parameters, old(State()))
               else old(State())).(velocity := CentreVelocity(parameters, old(State())))
    {
      ghost var before := State();
      var speed := Abs(parameters.baseVelocity);
      if velocity == 0.0 {
        velocity := parameters.baseVelocity;
      }
      var clamped := Clamp(velocity, -speed, speed);
      if clamped != velocity {
        velocityError := 0.0;
      }
      velocity := clamped;
      assert velocity == CentreVelocity(parameters, before);
      assert CountsPass(parameters, before) ==
             (!positiveCentrePassCounted && velocity * parameters.baseVelocity > 0.0);
      if !positiveCentrePassCounted && velocity * parameters.baseVelocity > 0.0 {
        completedShuttleCycles := completedShuttleCycles + 1;
        if completedShuttleCycles >= parameters.cyclesPerIncrease {
          completedShuttleCycles := 0;
          accelerationLimit := accelerationLimit + parameters.accelerationIncrement;
          var tolerance := LIMIT_TOLERANCE * parameters.maxAcceleration;
          if accelerationLimit >= parameters.maxAcceleration - tolerance {
            finished := true;
          }
        }
        positiveCentrePassCounted := true;
      }
    }

    /** The other half: ramp the acceleration against the displacement. */
    method TurnOutside()
      requires Valid()
      modifies `velocity, `velocityError, `acceleration, `positiveCentrePassCounted
      ensures Valid()
      ensures var a := OuterAcceleration(parameters, old(State()));
              State() == old(State()).(counted := false, acceleration := a, velocity := old(velocity) + a * DT)
    {
      var direction := if displacement >= 0.0 then 1.0 else -1.0;
      positiveCentrePassCounted := false;
      acceleration := acceleration - direction * parameters.jerk * DT;
      acceleration := Clamp(acceleration, -accelerationLimit, accelerationLimit);
      velocity, velocityError := Accumulate(velocity, velocityError, acceleration * DT);
    }

    method Update(periodNs: int) returns (ok: bool)
      requires Valid()
      modifies this
      ensures Valid()
      ensures active == old(active) && configured == old(configured) && parameters == old(parameters)
      ensures startPosition == old(startPosition)
      ensures ok == (active && 0 < periodNs <= 10_000_000)
      ensures State() == if ok then Step(parameters, old(State())) else old(State())
      ensures excessivePeriods ==
              old(excessivePeriods) + if active && periodNs > 1_500_000 then 1 else 0
    {
      if !active || periodNs <= 0 {
        return false;
      }
      if periodNs > 1_500_000 {
        excessivePeriods := excessivePeriods + 1;
      }
      if periodNs > 10_000_000 {
        return false;
      }
      if finished {
        return true;
      }
      var epsilon := CENTRE_GUARD * parameters.halfWidth;
      var inCentre := Abs(displacement) < parameters.halfWidth - epsilon;
      if inCentre {
        PassThroughCentre();
      } else {
        TurnOutside();
      }
      displacement, displacementError := Accumulate(displacement, displacementError, velocity * DT);
      commandedPosition := startPosition + displacement;
      return true;
    }
  }
}
