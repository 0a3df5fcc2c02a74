/** The calibration controller's logic: preflight checks, the trajectory, settling
    to a stop and the stationary hold. */
module CalibrationLogic {
  import opened ControlTypes
  import opened Sequencer
  import opened Envelope

  function StoppingDistance(speed: real, deceleration: real): real
    requires deceleration > 0.0
  {
    speed * speed / (2.0 * deceleration)
  }

  datatype CalibrationSettings = CalibrationSettings(
    trajectory: Parameters,
    bounds: MotionBounds,
    settlingAcceleration: real,
    settlingTimeout: real,
    stationaryVelocity: real,
    trackingTolerance: real,
    stationaryDuration: real)
  {
    predicate Valid() {
      && trajectory.Valid() && bounds.Valid()
      && 0.0 < settlingAcceleration <= 100.0
      && 0.0 < settlingTimeout <= 60.0
      && 0.0 < stationaryVelocity <= 0.1
      && 0.0 < trackingTolerance <= 0.01
      && DT <= stationaryDuration <= 10.0
      && trajectory.halfWidth <= 0.1
      && trajectory.Speed() <= 1.0
      && trajectory.jerk <= 1000000.0
      && trajectory.maxAcceleration <= 100.0
      && trajectory.cyclesPerIncrease <= 1000
    }

    function SettlingTravel(): real
      requires Valid()
    {
      StoppingDistance(FrameOf(trajectory).peak, settlingAcceleration)
    }

    function RequiredExcursion(): real
      requires Valid()
    {
      Turning(trajectory) + SettlingTravel() + trackingTolerance
    }
  }

  datatype Logic = Logic(
    p: CalibrationSettings,
    motion: Motion,
    state: Snapshot,
    active: bool,
    origin: real,
    settlingCycles: nat,
    stationaryCycles: nat)

  predicate Activatable(p: Checked<CalibrationSettings>, in_: Inputs) {
    && p.AllFinite? && p.value.Valid() && in_.AllFinite()
    && Abs(in_.velocity.value) <= p.value.stationaryVelocity
    && var reach := p.value.RequiredExcursion();
    && var at := in_.position.value;
    && reach <= p.value.bounds.excursionLimit
    && p.value.bounds.Contains(at - reach, at)
    && p.value.bounds.Contains(at + reach, at)
  }

  function Activated(p: CalibrationSettings, in_: Inputs): Logic
    requires in_.position.Finite?
  {
    Logic(p, Start(p.trajectory),
          EMPTY_SNAPSHOT.(measured := in_, phase := Trajectory, referencePosition := in_.position),
          true, in_.position.value, 0, 0)
  }

  function WithFault(l: Logic, counted: Snapshot, in_: Inputs, fault: Fault): Logic {
    l.(state := Fail(counted, in_, fault))
  }

  predicate Stationary(l: Logic, in_: Inputs, reference: real) {
    && in_.AllFinite()
    && Abs(in_.velocity.value) <= l.p.stationaryVelocity
    && Abs(in_.position.value - reference) <= l.p.trackingTolerance
  }

  /** The reference after a trajectory update. */
  function FollowTrajectory(l: Logic): Logic
    requires l.state.referencePosition.Finite? && l.p.trajectory.Valid()
  {
    var motion := Step(l.p.trajectory, l.motion);
    var target := l.origin + motion.displacement;
    l.(motion := motion,
       state := l.state.(referencePosition := Finite(target),
                   referenceVelocity := (target - l.state.referencePosition.value) / DT,
                   progress := if motion.finished then 0.9 else Progress(l.p.trajectory, motion) * 0.9,
                   phase := if motion.finished then Settling else l.state.phase))
  }

  function SettledVelocity(l: Logic): real {
    CopySign(Max(0.0, Abs(l.state.referenceVelocity) - l.p.settlingAcceleration * DT), l.state.referenceVelocity)
  }

  /** The reference after a settling update that has not timed out. */
  function Settle(l: Logic, in_: Inputs): Logic
    requires l.state.referencePosition.Finite?
  {
    var velocity := SettledVelocity(l);
    var target := l.state.referencePosition.value + velocity * DT;
    var stationaryCycles :=
      if velocity == 0.0 && Stationary(l, in_, target) then l.stationaryCycles + 1 else 0;
    var done := stationaryCycles as real * DT >= l.p.stationaryDuration;
    l.(settlingCycles := l.settlingCycles + 1,
       stationaryCycles := stationaryCycles,
       state := l.state.(referencePosition := Finite(target),
                   referenceVelocity := velocity,
                   phase := if done then Complete else l.state.phase,
                   progress := if done then 1.0 else l.state.progress))
  }

  /** The acceleration of the new reference and the last check on it. */
  function Conclude(l: Logic, next: Logic, in_: Inputs): Logic {
    var s := next.state.(referenceAcceleration :=
                           (next.state.referenceVelocity - l.state.referenceVelocity) / DT);
    if l.p.bounds.ContainsNum(s.referencePosition, l.origin) then next.(state := s)
    else WithFault(next, s, in_, Bounds)
  }

  /** A trajectory or settling update on accepted input. */
  function Advance(l: Logic, in_: Inputs): Logic
    requires l.state.referencePosition.Finite? && l.p.trajectory.Valid()
  {
    if l.state.phase == Trajectory then
      Conclude(l, FollowTrajectory(l), in_)
    else if (l.settlingCycles + 1) as real * DT > l.p.settlingTimeout then
      WithFault(l.(settlingCycles := l.settlingCycles + 1), l.state, in_, SettlingTimeout)
    else
      Conclude(l, Settle(l, in_), in_)
  }

  datatype Verdict = Refuse(counted: Snapshot, fault: Fault) | Proceed(measured: Snapshot)

  /** The checks every update makes before it moves anything. */
  function Examine(l: Logic, in_: Inputs): Verdict
    requires l.active && l.state.valid ==> l.state.referencePosition.Finite?
  {
    if !l.active || !l.state.valid then Refuse(l.state, l.state.fault)
    else if !in_.AllFinite() then Refuse(l.state, Feedback)
    else
      var counted := CountPeriod(l.state, in_);
      if !PeriodValid(l.state, in_) then Refuse(counted, Period)
      else if !l.p.bounds.ContainsNum(in_.position, l.origin) then Refuse(counted, Bounds)
      else
        var s := counted.(measured := in_);
        if s.phase == Complete && !Stationary(l, in_, s.referencePosition.value) then Refuse(s, Feedback)
        else Proceed(s)
  }

  /** One update of the whole controller. */
  function Next(l: Logic, in_: Inputs): Logic
    requires l.active && l.state.valid ==> l.state.referencePosition.Finite? && l.p.trajectory.Valid()
  {
    match Examine(l, in_)
    case Refuse(s, fault) => WithFault(l, s, in_, fault)
    case Proceed(s) => if s.phase == Complete then l.(state := s) else Advance(l.(state := s), in_)
  }

  /** The source's object. */
  class CalibrationSequencerLogic {
    var p: CalibrationSettings
    const sequencer: CalibrationSequencer
    var state: Snapshot
    var active: bool
    var origin: real
    var settlingCycles: nat
    var stationaryCycles: nat

    ghost predicate Valid()
      reads this, sequencer
    {
      && sequencer.Valid()
      && (active ==>
            && sequencer.active && sequencer.startPosition == origin
            && sequencer.parameters == p.trajectory && p.Valid()
            && (state.valid ==> state.referencePosition.Finite?))
    }

    ghost function Machine(): Logic
      reads this, sequencer
    {
      Logic(p, sequencer.State(), state, active, origin, settlingCycles, stationaryCycles)
    }

    constructor (defaults: CalibrationSettings)
      ensures Valid() && fresh(sequencer) && !active
    {
      p := defaults;
      sequencer := new CalibrationSequencer();
      state, active, origin := EMPTY_SNAPSHOT, false, 0.0;
      settlingCycles, stationaryCycles := 0, 0;
    }

    method Reset()
      requires Valid()
      modifies this, sequencer
      ensures Valid() && !active && state == EMPTY_SNAPSHOT && origin == 0.0
      ensures settlingCycles == 0 && stationaryCycles == 0 && p == old(p)
    {
      sequencer.Reset();
      state, active, origin := EMPTY_SNAPSHOT, false, 0.0;
      settlingCycles, stationaryCycles := 0, 0;
    }

    method Activate(settings: Checked<CalibrationSettings>, in_: Inputs) returns (ok: bool)
      requires Valid()
      modifies this, sequencer
      ensures Valid()
      ensures ok == active == Activatable(settings, in_)
      ensures ok ==> Machine() == Activated(settings.value, in_)
      ensures !ok ==> state == EMPTY_SNAPSHOT
    {
      Reset();
      if !Activatable(settings, in_) {
        return false;
      }
      var configured := sequencer.Configure(AllFinite(settings.value.trajectory));
      var started := sequencer.Activate(in_.position);
      assert configured && started;
      p, origin, active := settings.value, in_.position.value, true;
      state := state.(measured := in_, phase := Trajectory, referencePosition := in_.position);
      return true;
    }

    method Raise(in_: Inputs, reason: Fault) returns (out: Snapshot)
      requires sequencer.Valid()
      modifies `state
      ensures out == state == Fail(old(state), in_, reason)
    {
      state := Fail(state, in_, reason);
      out := state;
    }

    method Follow(in_: Inputs)
      requires Valid() && active && state.valid && in_.periodNs > 0 && in_.periodNs <= 10_000_000
      modifies `state, sequencer
      ensures Valid()
      ensures Machine() == FollowTrajectory(old(Machine()))
    {
      var ok := sequencer.Update(in_.periodNs);
      var target := sequencer.commandedPosition;
      state := state.(referencePosition := Finite(target),
                      referenceVelocity := (target - state.referencePosition.value) / DT,
                      progress := if sequencer.finished then 0.9
                                  else Progress(p.trajectory, sequencer.State()) * 0.9);
      if sequencer.finished {
        state := state.(phase := Settling);
      }
    }

    method SettleOnce(in_: Inputs)
      requires Valid() && active && state.valid && in_.AllFinite()
      modifies `state, `settlingCycles, `stationaryCycles
      ensures Valid()
      ensures Machine() == Settle(old(Machine()), in_)
    {
      settlingCycles := settlingCycles + 1;
      var velocity := CopySign(Max(0.0, Abs(state.referenceVelocity) - p.settlingAcceleration * DT),
                               state.referenceVelocity);
      var target := state.referencePosition.value + velocity * DT;
      state := state.(referenceVelocity := velocity, referencePosition := Finite(target));
      if velocity == 0.0 && Abs(in_.velocity.value) <= p.stationaryVelocity &&
         Abs(in_.position.value - target) <= p.trackingTolerance {
        stationaryCycles := stationaryCycles + 1;
      } else {
        stationaryCycles := 0;
      }
      if stationaryCycles as real * DT >= p.stationaryDuration {
        state := state.(phase := Complete, progress := 1.0);
      }
    }

    method MoveReference(in_: Inputs)
      requires Valid() && active && state.valid && in_.AllFinite() && 0 < in_.periodNs <= 10_000_000
      modifies this, sequencer
      ensures Valid()
      ensures Machine() == Advance(old(Machine()), in_)
    {
      var previousVelocity := state.referenceVelocity;
      if state.phase == Trajectory {
        Follow(in_);
      } else {
        if (settlingCycles + 1) as real * DT > p.settlingTimeout {
          settlingCycles := settlingCycles + 1;
          var _ := Raise(in_, SettlingTimeout);
          return;
        }
        SettleOnce(in_);
      }
      state := state.(referenceAcceleration := (state.referenceVelocity - previousVelocity) / DT);
      if !p.bounds.ContainsNum(state.referencePosition, origin) {
        var _ := Raise(in_, Bounds);
      }
    }

    method Accept(in_: Inputs) returns (ok: bool)
      requires Valid()
      modifies `state
      ensures match Examine(old(Machine()), in_)
              case Refuse(s, fault) => !ok && state == Fail(s, in_, fault)
              case Proceed(s) => ok && state == s
    {
      ok := false;
      if !active || !state.valid {
        var _ := Raise(in_, state.fault);
        return;
      }
      if !in_.AllFinite() {
        var _ := Raise(in_, Feedback);
        return;
      }
      var periodValid := PeriodValid(state, in_);
      state := CountPeriod(state, in_);
      if !periodValid {
        var _ := Raise(in_, Period);
        return;
      }
      if !p.bounds.ContainsNum(in_.position, origin) {
        var _ := Raise(in_, Bounds);
        return;
      }
      state := state.(measured := in_);
      if state.phase == Complete {
        if Abs(in_.velocity.value) > p.stationaryVelocity ||
           Abs(in_.position.value - state.referencePosition.value) > p.trackingTolerance {
          var _ := Raise(in_, Feedback);
          return;
        }
      }
      ok := true;
    }

    method Update(in_: Inputs) returns (out: Snapshot)
      requires Valid()
      modifies this, sequencer
      ensures Valid() && out == state
      ensures Machine() == Next(old(Machine()), in_)
    {
      var ok := Accept(in_);
      if ok && state.phase != Complete {
        MoveReference(in_);
      }
      return state;
    }
  }
}
