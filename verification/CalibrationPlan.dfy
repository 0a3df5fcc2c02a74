/** The references a calibration will ask for, computed from its settings alone, and
    the exact condition on them for the excursion check to keep its promise. */
module CalibrationPlan {
  import opened ControlTypes
  import opened Sequencer
  import opened CalibrationLogic
  import opened CalibrationRun

  /** One reference of the plan: the trajectory so far, the distance from the origin,
      and once the trajectory has finished the speed left and the settling updates. */
  datatype Plan = Plan(motion: Motion, offset: real, velocity: real, cycles: nat)

  /** The trajectory until it finishes, then settling until it times out; once
      stopped the reference stays where it is. */
  function Onward(p: CalibrationSettings, c: Plan): Plan
    requires p.Valid()
  {
    if !c.motion.finished then
      var m := Step(p.trajectory, c.motion);
      Plan(m, m.displacement, m.velocity, 0)
    else if TimedOut(p, c) then c
    else
      var v := CopySign(Max(0.0, Abs(c.velocity) - p.settlingAcceleration * DT), c.velocity);
      Plan(c.motion, c.offset + v * DT, v, c.cycles + 1)
  }

  predicate TimedOut(p: CalibrationSettings, c: Plan) {
    c.motion.finished && (c.cycles + 1) as real * DT > p.settlingTimeout
  }

  function PlanAt(p: CalibrationSettings, n: nat): Plan
    requires p.Valid()
  {
    if n == 0 then Plan(Start(p.trajectory), 0.0, 0.0, 0) else Onward(p, PlanAt(p, n - 1))
  }

  /** The bounds hold the tracking tolerance on both sides of a reference. */
  predicate Room(p: CalibrationSettings, origin: real, offset: real) {
    && p.bounds.Contains(origin + offset - p.trackingTolerance, origin)
    && p.bounds.Contains(origin + offset + p.trackingTolerance, origin)
  }

  ghost predicate PlanFits(p: CalibrationSettings, origin: real)
    requires p.Valid()
  {
    forall n: nat :: Room(p, origin, PlanAt(p, n).offset)
  }

  /** The plan's motion is the trajectory. */
  lemma {:induction false} PlannedMotion(p: CalibrationSettings, n: nat)
    requires p.Valid()
    ensures PlanAt(p, n).motion == Run(p.trajectory, n)
    ensures !Run(p.trajectory, n).finished ==> PlanAt(p, n).offset == Run(p.trajectory, n).displacement
  {
    if n > 0 {
      PlannedMotion(p, n - 1);
    }
  }

  // ----- the controller follows the plan -----

  /** A valid controller is at reference n of the plan. */
  ghost predicate OnPlan(l: Logic, p: CalibrationSettings, origin: real, n: nat)
    requires p.Valid()
  {
    && l.active && l.p == p && l.origin == origin
    && (l.state.valid ==> AtPlan(l, PlanAt(p, n)))
  }

  ghost predicate AtPlan(l: Logic, c: Plan) {
    && l.state.referencePosition == Finite(l.origin + c.offset)
    && l.state.phase in {Trajectory, Settling, Complete}
    && l.motion == c.motion
    && (if l.state.phase != Trajectory then c.motion.finished
        else !c.motion.finished && c.offset == c.motion.displacement && l.settlingCycles == 0)
    && (l.state.phase == Settling ==> l.state.referenceVelocity == c.velocity && l.settlingCycles == c.cycles)
  }

  lemma AdvanceOnPlan(l: Logic, in_: Inputs, c: Plan)
    requires l.active && l.p.Valid() && l.state.valid && AtPlan(l, c) && l.state.phase != Complete
    ensures var l' := Advance(l, in_);
            && (l'.state.valid ==> AtPlan(l', Onward(l.p, c)))
            && (l.p.bounds.Contains(l.origin + Onward(l.p, c).offset, l.origin) ==>
                  l'.state.fault == Bounds ==> l.state.fault == Bounds)
  {
    if l.state.phase == Trajectory {
      var m := Step(l.p.trajectory, l.motion);
      assert m.displacement == l.motion.displacement + m.velocity * DT;
      ReferenceVelocity(l.origin, l.motion.displacement, m.velocity);
    }
  }

  /** Tracked feedback is in bounds where the reference has room. */
  lemma TrackedInside(p: CalibrationSettings, origin: real, offset: real, at: real)
    requires p.trackingTolerance >= 0.0 && Room(p, origin, offset)
    requires Abs(at - (origin + offset)) <= p.trackingTolerance
    ensures p.bounds.Contains(at, origin)
  {
  }

  /** The reference stays where it is or moves on to the next of the plan; where both
      have room, tracked feedback raises no bounds fault. */
  lemma NextOnPlan(l: Logic, in_: Inputs, p: CalibrationSettings, origin: real, n: nat)
    requires Good(l) && p.Valid() && OnPlan(l, p, origin, n)
    ensures OnPlan(Next(l, in_), p, origin, n) || OnPlan(Next(l, in_), p, origin, n + 1)
    ensures Room(p, origin, PlanAt(p, n).offset) && Room(p, origin, PlanAt(p, n + 1).offset) ==>
            Near(l.state, in_, p.trackingTolerance) && Next(l, in_).state.fault == Bounds ==>
              l.state.fault == Bounds
  {
    var c := PlanAt(p, n);
    assert PlanAt(p, n + 1) == Onward(p, c);
    match Examine(l, in_)
    case Refuse(_, _) => RefusedInside(l, in_, p, origin, c.offset);
    case Proceed(s) =>
      if s.phase != Complete {
        AdvanceOnPlan(l.(state := s), in_, c);
        if Room(p, origin, Onward(p, c).offset) {
          TrackedInside(p, origin, Onward(p, c).offset, origin + Onward(p, c).offset);
        }
      }
  }

  /** Tracked feedback is refused for its position only where the reference has no
      room. */
  lemma RefusedInside(l: Logic, in_: Inputs, p: CalibrationSettings, origin: real, offset: real)
    requires l.active && l.p == p && l.origin == origin && p.Valid()
    requires l.state.valid ==> l.state.referencePosition == Finite(origin + offset)
    requires Examine(l, in_).Refuse?
    ensures Room(p, origin, offset) && Near(l.state, in_, p.trackingTolerance) && Examine(l, in_).fault == Bounds ==>
              l.state.fault == Bounds
  {
    if l.state.valid && in_.position.Finite? && Room(p, origin, offset) && Near(l.state, in_, p.trackingTolerance) {
      TrackedInside(p, origin, offset, in_.position.value);
    }
  }

  lemma ActivatedOnPlan(p: CalibrationSettings, in0: Inputs)
    requires Activatable(AllFinite(p), in0)
    ensures Good(Activated(p, in0)) && OnPlan(Activated(p, in0), p, in0.position.value, 0)
  {
  }

  /** Whatever is fed in, a valid controller's reference is one of the plan's. */
  lemma {:induction false} ReferenceIsPlanned(p: CalibrationSettings, in0: Inputs, inputs: seq<Inputs>)
    returns (n: nat)
    requires Activatable(AllFinite(p), in0)
    ensures Good(Activated(p, in0)) && n <= |inputs|
    ensures OnPlan(Feed(Activated(p, in0), inputs), p, in0.position.value, n)
    ensures var s := Feed(Activated(p, in0), inputs).state;
            s.valid ==> s.referencePosition == Finite(in0.position.value + PlanAt(p, n).offset)
    ensures PlanFits(p, in0.position.value) && Tracks(Activated(p, in0), inputs) ==>
              Feed(Activated(p, in0), inputs).state.fault != Bounds
  {
    ActivatedOnPlan(p, in0);
    var l0, origin := Activated(p, in0), in0.position.value;
    if inputs == [] {
      n := 0;
    } else {
      var k := |inputs| - 1;
      var before := ReferenceIsPlanned(p, in0, inputs[..k]);
      NextOnPlan(Feed(l0, inputs[..k]), inputs[k], p, origin, before);
      n := if OnPlan(Feed(l0, inputs), p, origin, before) then before else before + 1;
      if Tracks(l0, inputs) {
        TracksPrefix(l0, inputs);
      }
    }
  }

  // ----- and can be driven along it -----

  /** Feedback exactly on the reference, one nominal period later, and moving too
      fast for the calibration to complete. */
  function Ideal(s: Snapshot): Inputs {
    Inputs(s.referencePosition, Finite(1.0), Finite(0.0), s.measured.timeNs + 1_000_000, 1_000_000)
  }

  ghost function IdealInputs(l: Logic, n: nat): (inputs: seq<Inputs>)
    requires Good(l)
    ensures |inputs| == n
  {
    if n == 0 then [] else
    var before := IdealInputs(l, n - 1);
    before + [Ideal(Feed(l, before).state)]
  }

  lemma TracksMore(l: Logic, inputs: seq<Inputs>, in_: Inputs)
    requires Good(l) && Tracks(l, inputs)
    requires Near(Feed(l, inputs).state, in_, l.p.trackingTolerance)
    ensures Tracks(l, inputs + [in_])
  {
    var all := inputs + [in_];
    forall k | 0 <= k < |all| ensures Near(Feed(l, all[..k]).state, all[k], l.p.trackingTolerance) {
      if k < |inputs| {
        assert all[..k] == inputs[..k];
      } else {
        assert all[..k] == inputs;
      }
    }
  }

  lemma {:induction false} IdealTracks(l: Logic, n: nat)
    requires Good(l) && l.p.trackingTolerance >= 0.0
    ensures Tracks(l, IdealInputs(l, n))
  {
    if n > 0 {
      IdealTracks(l, n - 1);
      TracksMore(l, IdealInputs(l, n - 1), Ideal(Feed(l, IdealInputs(l, n - 1)).state));
    }
  }

  /** At reference n of the plan and still moving along it. */
  ghost predicate Going(l: Logic, p: CalibrationSettings, origin: real, n: nat)
    requires p.Valid()
  {
    && OnPlan(l, p, origin, n)
    && l.state.valid && l.state.fault == NoFault && l.state.phase != Complete
    && l.state.measured.timeNs >= 0
  }

  lemma AdvanceGoes(l: Logic, in_: Inputs, c: Plan)
    requires l.active && l.p.Valid() && l.state.valid && AtPlan(l, c) && l.state.phase != Complete
    requires !TimedOut(l.p, c) && in_.velocity == Finite(1.0)
    ensures var l' := Advance(l, in_);
            if l.p.bounds.Contains(l.origin + Onward(l.p, c).offset, l.origin) then
              && l'.state.valid && l'.state.fault == l.state.fault && l'.state.phase != Complete
              && l'.state.measured == l.state.measured
            else l'.state.fault == Bounds
  {
    AdvanceOnPlan(l, in_, c);
  }

  lemma GoingOn(l: Logic, p: CalibrationSettings, origin: real, n: nat)
    requires Good(l) && p.Valid() && Going(l, p, origin, n)
    requires Room(p, origin, PlanAt(p, n).offset) && !TimedOut(p, PlanAt(p, n))
    ensures var l' := Next(l, Ideal(l.state));
            if p.bounds.Contains(origin + PlanAt(p, n + 1).offset, origin) then Going(l', p, origin, n + 1)
            else l'.state.fault == Bounds
  {
    var c, in_ := PlanAt(p, n), Ideal(l.state);
    assert PlanAt(p, n + 1) == Onward(p, c);
    TrackedInside(p, origin, c.offset, in_.position.value);
    var s := CountPeriod(l.state, in_).(measured := in_);
    assert Next(l, in_) == Advance(l.(state := s), in_);
    AdvanceOnPlan(l.(state := s), in_, c);
    AdvanceGoes(l.(state := s), in_, c);
  }

  /** A plan that times out has come to its end. */
  lemma {:induction false} TimedOutStays(p: CalibrationSettings, k: nat, n: nat)
    requires p.Valid() && k <= n && TimedOut(p, PlanAt(p, k))
    ensures PlanAt(p, n) == PlanAt(p, k)
    decreases n
  {
    if k < n {
      TimedOutStays(p, k, n - 1);
    }
  }

  /** The plan has room up to reference n and none there. */
  ghost predicate FirstWithoutRoom(p: CalibrationSettings, origin: real, n: nat)
    requires p.Valid()
  {
    !Room(p, origin, PlanAt(p, n).offset) && forall k: nat :: k < n ==> Room(p, origin, PlanAt(p, k).offset)
  }

  lemma {:induction false} SomeFirst(p: CalibrationSettings, origin: real, n: nat) returns (first: nat)
    requires p.Valid() && !Room(p, origin, PlanAt(p, n).offset)
    ensures FirstWithoutRoom(p, origin, first)
  {
    if k: nat :| k < n && !Room(p, origin, PlanAt(p, k).offset) {
      first := SomeFirst(p, origin, k);
    } else {
      first := n;
    }
  }

  /** Before reference n the plan has room and is not at its end. */
  ghost predicate Reachable(p: CalibrationSettings, origin: real, n: nat)
    requires p.Valid()
  {
    forall k: nat :: k < n ==> Room(p, origin, PlanAt(p, k).offset) && !TimedOut(p, PlanAt(p, k))
  }

  /** Ideal feedback leads to it. */
  lemma {:induction false} IdealGoes(l0: Logic, p: CalibrationSettings, origin: real, n: nat)
    requires Good(l0) && p.Valid() && Going(l0, p, origin, 0)
    requires Reachable(p, origin, n)
    requires p.bounds.Contains(origin, origin)
    ensures var l := Feed(l0, IdealInputs(l0, n));
            if p.bounds.Contains(origin + PlanAt(p, n).offset, origin) then Going(l, p, origin, n)
            else l.state.fault == Bounds
  {
    if n > 0 {
      IdealGoes(l0, p, origin, n - 1);
      var before, offset := IdealInputs(l0, n - 1), PlanAt(p, n - 1).offset;
      TrackedInside(p, origin, offset, origin + offset);
      GoingOn(Feed(l0, before), p, origin, n - 1);
      FeedOne(l0, before, Ideal(Feed(l0, before).state));
    }
  }

  lemma FirstIsReachable(p: CalibrationSettings, origin: real, n: nat)
    requires p.Valid() && FirstWithoutRoom(p, origin, n)
    ensures Reachable(p, origin, n)
  {
    forall k: nat | k < n ensures !TimedOut(p, PlanAt(p, k)) {
      if TimedOut(p, PlanAt(p, k)) {
        TimedOutStays(p, k, n);
      }
    }
  }

  /** A reference of a plan with room everywhere is reached, or the plan comes to its
      end there before. */
  lemma {:induction false} SomeReachable(p: CalibrationSettings, origin: real, n: nat) returns (k: nat)
    requires p.Valid() && PlanFits(p, origin)
    ensures k <= n && Reachable(p, origin, k) && PlanAt(p, k).offset == PlanAt(p, n).offset
  {
    if j: nat :| j < n && TimedOut(p, PlanAt(p, j)) {
      TimedOutStays(p, j, n);
      k := SomeReachable(p, origin, j);
    } else {
      k := n;
    }
  }

  /** Feedback as far aside of the reference as the tracking tolerance allows. */
  lemma AsideFails(l: Logic, p: CalibrationSettings, origin: real, n: nat) returns (in_: Inputs)
    requires Good(l) && p.Valid() && Going(l, p, origin, n) && !Room(p, origin, PlanAt(p, n).offset)
    ensures in_.position.Finite? && l.state.referencePosition.Finite?
    ensures Abs(in_.position.value - l.state.referencePosition.value) <= p.trackingTolerance
    ensures Next(l, in_).state.fault == Bounds
  {
    var at, t := origin + PlanAt(p, n).offset, p.trackingTolerance;
    var aside := if p.bounds.Contains(at + t, origin) then at - t else at + t;
    in_ := Ideal(l.state).(position := Finite(aside));
  }

  lemma WithoutRoomFails(l0: Logic, p: CalibrationSettings, origin: real, n: nat)
    requires Good(l0) && p.Valid() && Going(l0, p, origin, 0) && p.bounds.Contains(origin, origin)
    requires !Room(p, origin, PlanAt(p, n).offset)
    ensures !NeverOutOfBounds(l0)
  {
    var first := SomeFirst(p, origin, n);
    FirstIsReachable(p, origin, first);
    IdealGoes(l0, p, origin, first);
    IdealTracks(l0, first);
    var inputs := IdealInputs(l0, first);
    var l := Feed(l0, inputs);
    if l.state.fault != Bounds {
      var aside := AsideFails(l, p, origin, first);
      TracksMore(l0, inputs, aside);
      FeedOne(l0, inputs, aside);
      assert Feed(l0, inputs + [aside]).state.fault == Bounds;
    }
  }

  lemma ActivatedGoes(p: CalibrationSettings, in0: Inputs)
    requires Activatable(AllFinite(p), in0)
    ensures Good(Activated(p, in0)) && Going(Activated(p, in0), p, in0.position.value, 0)
    ensures p.bounds.Contains(in0.position.value, in0.position.value)
  {
  }

  lemma EnvelopeOfAccepted(p: CalibrationSettings, in0: Inputs)
    requires Activatable(AllFinite(p), in0)
    ensures EnvelopePromise(p, in0) <==> PlanFits(p, in0.position.value)
  {
    var origin := in0.position.value;
    ActivatedGoes(p, in0);
    var l0 := Activated(p, in0);
    if PlanFits(p, origin) {
      forall inputs | Tracks(l0, inputs) ensures Feed(l0, inputs).state.fault != Bounds {
        var n := ReferenceIsPlanned(p, in0, inputs);
      }
    } else {
      var n: nat :| !Room(p, origin, PlanAt(p, n).offset);
      WithoutRoomFails(l0, p, origin, n);
    }
  }

  /** Envelope, exactly, for all settings and all feedback at activation: accepted or
      not, tracked feedback never raises the bounds fault if and only if every
      reference of an accepted plan leaves the tracking tolerance inside the bounds
      on both sides. */
  lemma EnvelopeExactlyWhen(p: CalibrationSettings, in0: Inputs)
    ensures EnvelopePromise(p, in0) <==>
              (Activatable(AllFinite(p), in0) ==> PlanFits(p, in0.position.value))
  {
    if Activatable(AllFinite(p), in0) {
      EnvelopeOfAccepted(p, in0);
    }
  }

  // ----- the excursion checked at activation -----

  /** Every reference of the plan is within that excursion. */
  ghost predicate PlanWithinExcursion(p: CalibrationSettings)
    requires p.Valid()
  {
    forall n: nat :: Abs(PlanAt(p, n).offset) + p.trackingTolerance <= p.RequiredExcursion()
  }

  /** With tracked feedback no reference leaves it, and no bounds fault is raised. */
  ghost predicate ExcursionPromise(p: CalibrationSettings, in0: Inputs) {
    EnvelopePromise(p, in0) && (Activatable(AllFinite(p), in0) ==> ReferencesWithin(p, Activated(p, in0)))
  }

  ghost predicate ReferencesWithin(p: CalibrationSettings, l0: Logic)
    requires p.Valid() && l0.p == p
  {
    Good(l0) ==>
      forall inputs {:trigger Tracks(l0, inputs)} :: Tracks(l0, inputs) ==>
        var s := Feed(l0, inputs).state;
        s.valid ==> WithinExcursion(p, s, l0.origin)
  }

  lemma ExcursionHasRoom(p: CalibrationSettings, origin: real)
    requires Preflight(p, origin) && PlanWithinExcursion(p)
    ensures PlanFits(p, origin)
  {
    forall n: nat ensures Room(p, origin, PlanAt(p, n).offset) {
      assert Abs(PlanAt(p, n).offset) + p.trackingTolerance <= p.RequiredExcursion();
    }
  }

  lemma ExcursionOfAccepted(p: CalibrationSettings, in0: Inputs)
    requires Activatable(AllFinite(p), in0)
    ensures ExcursionPromise(p, in0) <==> PlanWithinExcursion(p)
  {
    var origin := in0.position.value;
    ActivatedGoes(p, in0);
    ActivatedSafe(p, in0);
    EnvelopeOfAccepted(p, in0);
    if PlanWithinExcursion(p) {
      ExcursionHasRoom(p, origin);
      PlannedWithin(p, in0);
    } else if PlanFits(p, origin) {
      var n: nat :| Abs(PlanAt(p, n).offset) + p.trackingTolerance > p.RequiredExcursion();
      var k := SomeReachable(p, origin, n);
      BeyondExcursion(Activated(p, in0), p, k);
    }
  }

  /** The same with the references, too, held to the excursion. */
  lemma ExcursionExactlyWhen(p: CalibrationSettings, in0: Inputs)
    ensures ExcursionPromise(p, in0) <==> (Activatable(AllFinite(p), in0) ==> PlanWithinExcursion(p))
  {
    if Activatable(AllFinite(p), in0) {
      ExcursionOfAccepted(p, in0);
    }
  }

  lemma PlannedWithin(p: CalibrationSettings, in0: Inputs)
    requires Activatable(AllFinite(p), in0) && PlanWithinExcursion(p) && PlanFits(p, in0.position.value)
    ensures ReferencesWithin(p, Activated(p, in0))
  {
    var l0 := Activated(p, in0);
    ActivatedGoes(p, in0);
    forall inputs | Tracks(l0, inputs)
      ensures var s := Feed(l0, inputs).state;
              s.valid ==> WithinExcursion(p, s, l0.origin)
    {
      var n := ReferenceIsPlanned(p, in0, inputs);
      var offset := PlanAt(p, n).offset;
      TrackedInside(p, l0.origin, offset, l0.origin + offset);
    }
  }

  lemma BeyondExcursion(l0: Logic, p: CalibrationSettings, n: nat)
    requires Good(l0) && p.Valid() && l0.p == p && Going(l0, p, l0.origin, 0) && p.bounds.Contains(l0.origin, l0.origin)
    requires PlanFits(p, l0.origin) && Reachable(p, l0.origin, n)
    requires Abs(PlanAt(p, n).offset) + p.trackingTolerance > p.RequiredExcursion()
    ensures !ReferencesWithin(p, l0)
  {
    var offset := PlanAt(p, n).offset;
    TrackedInside(p, l0.origin, offset, l0.origin + offset);
    IdealGoes(l0, p, l0.origin, n);
    IdealTracks(l0, n);
    assert Going(Feed(l0, IdealInputs(l0, n)), p, l0.origin, n);
  }

  /** A trajectory that never leaps, so in particular one that passes the check on the
      settings, has such a plan. */
  lemma SteadyPlan(p: CalibrationSettings, in0: Inputs)
    requires Activatable(AllFinite(p), in0) && NeverLeaps(p.trajectory)
    ensures PlanWithinExcursion(p) && PlanFits(p, in0.position.value)
  {
    EnvelopeHolds(p, in0);
    ActivatedSafe(p, in0);
    var l0 := Activated(p, in0);
    forall inputs | Tracks(l0, inputs)
      ensures var s := Feed(l0, inputs).state;
              s.valid ==> WithinExcursion(p, s, l0.origin)
    {
      ReferenceInsideEnvelope(p, in0, inputs);
    }
    ExcursionExactlyWhen(p, in0);
    EnvelopeExactlyWhen(p, in0);
  }
}
