/** Whole runs of the calibration logic: the envelope, settling and completion. */
module CalibrationRun {
  import opened ControlTypes
  import opened RealArithmetic
  import opened Sequencer
  import opened Envelope
  import opened CalibrationLogic

  ghost predicate Good(l: Logic) {
    l.active ==> l.p.Valid() && (l.state.valid ==> l.state.referencePosition.Finite?)
  }

  lemma NextGood(l: Logic, in_: Inputs)
    requires Good(l)
    ensures Good(Next(l, in_))
    ensures var l' := Next(l, in_);
            l'.active == l.active && l'.p == l.p && l'.origin == l.origin && (!l.state.valid ==> !l'.state.valid)
  {
  }

  /** The controller after a sequence of updates. */
  ghost function Feed(l: Logic, inputs: seq<Inputs>): (l': Logic)
    requires Good(l)
    ensures Good(l') && l'.active == l.active && l'.p == l.p && l'.origin == l.origin
  {
    if inputs == [] then l else
    var before := Feed(l, inputs[..|inputs| - 1]);
    NextGood(before, inputs[|inputs| - 1]);
    Next(before, inputs[|inputs| - 1])
  }

  lemma FeedOne(l: Logic, inputs: seq<Inputs>, in_: Inputs)
    requires Good(l)
    ensures Feed(l, inputs + [in_]) == Next(Feed(l, inputs), in_)
  {
    assert (inputs + [in_])[..|inputs|] == inputs;
  }

  // ----- the envelope -----

  /** What activation leaves the settings and the origin with. */
  ghost predicate Preflight(p: CalibrationSettings, origin: real) {
    && p.Valid()
    && var reach := p.RequiredExcursion();
    && reach <= p.bounds.excursionLimit
    && (p.bounds.usePositionBounds ==> p.bounds.lower <= origin - reach && origin + reach <= p.bounds.upper)
  }

  /** The farthest a reference may be, leaving the tracking tolerance. */
  function Reach(p: CalibrationSettings): real
    requires p.Valid()
  {
    Turning(p.trajectory) + p.SettlingTravel()
  }

  /** A distance from the origin and a speed that settling can still absorb. */
  ghost predicate CanSettle(reach: real, deceleration: real, distance: real, speed: real) {
    distance <= reach && speed * speed <= 2.0 * deceleration * (reach - distance)
  }

  ghost predicate Safe(l: Logic) {
    && l.active && Preflight(l.p, l.origin)
    && Bounded(l.p.trajectory, FrameOf(l.p.trajectory), l.motion)
    && (l.state.valid ==>
          && l.state.phase in {Trajectory, Settling, Complete}
          && l.state.referencePosition.Finite?
          && (l.state.phase == Trajectory ==>
                !l.motion.finished && l.state.referencePosition.value == l.origin + l.motion.displacement)
          && (l.state.phase != Trajectory ==>
                CanSettle(Reach(l.p), l.p.settlingAcceleration,
                          Abs(l.state.referencePosition.value - l.origin), Abs(l.state.referenceVelocity))))
  }

  lemma SettlingTravelBound(p: CalibrationSettings, speed: real, distance: real)
    requires p.Valid() && FrameOf(p.trajectory).peak > 0.0
    requires 0.0 <= speed <= FrameOf(p.trajectory).peak && distance <= Turning(p.trajectory)
    ensures CanSettle(Reach(p), p.settlingAcceleration, distance, speed)
  {
    TravelCovers(speed, FrameOf(p.trajectory).peak, p.settlingAcceleration, distance, Turning(p.trajectory));
  }

  lemma TravelCovers(speed: real, peak: real, a: real, distance: real, edge: real)
    requires 0.0 <= speed <= peak && 0.0 < peak && a > 0.0 && distance <= edge
    ensures CanSettle(edge + StoppingDistance(peak, a), a, distance, speed)
  {
    var travel := StoppingDistance(peak, a);
    SquareOver(peak, 2.0 * a, travel);
    Products(speed, peak, speed, peak);
    Products(2.0 * a, 2.0 * a, travel, edge + travel - distance);
  }

  lemma Spend(a: real, c: real, u: real, w: real, room: real)
    requires a > 0.0 && c == a * DT && u == w + c && w > 0.0 && u * u <= 2.0 * a * room
    ensures w * w <= 2.0 * a * (room - w * DT) && room - w * DT >= 0.0
  {
    assert c > 0.0;
    assert u * u == w * w + 2.0 * w * c + c * c;
    assert 2.0 * a * (room - w * DT) == 2.0 * a * room - 2.0 * w * c;
    Positive(w, w, w * w);
    Positive(c, c, c * c);
    SignOfFactor(2.0 * a, room - w * DT);
  }

  /** One settling step spends no more of the room than it frees. */
  lemma SettleStep(reach: real, a: real, d: real, v: real)
    requires a > 0.0 && CanSettle(reach, a, Abs(d), Abs(v))
    ensures var v' := CopySign(Max(0.0, Abs(v) - a * DT), v);
            CanSettle(reach, a, Abs(d + v' * DT), Abs(v'))
  {
    var u, c := Abs(v), a * DT;
    if u > c {
      var w := u - c;
      var room := reach - Abs(d);
      Spend(a, c, u, w, room);
      var v' := CopySign(w, v);
      assert Abs(d + v' * DT) <= Abs(d) + w * DT;
      ShrinkDistance(reach, a, room - w * DT, reach - Abs(d + v' * DT), w * w);
    } else {
      StillRoom(reach, a, Abs(d), Abs(v));
    }
  }

  lemma StillRoom(reach: real, a: real, distance: real, speed: real)
    requires a > 0.0 && CanSettle(reach, a, distance, speed)
    ensures CanSettle(reach, a, distance, 0.0)
  {
    Products(0.0, 2.0 * a, 0.0, reach - distance);
  }

  lemma ShrinkDistance(reach: real, a: real, less: real, room: real, square: real)
    requires a > 0.0 && 0.0 <= less <= room && square <= 2.0 * a * less
    ensures square <= 2.0 * a * room
  {
    Products(2.0 * a, 2.0 * a, less, room);
  }

  lemma TrajectorySafe(l: Logic, in_: Inputs)
    requires Safe(l) && l.state.valid && l.state.phase == Trajectory
    requires !Leaps(l.p.trajectory, l.motion)
    ensures Safe(Advance(l, in_))
    ensures Advance(l, in_).state.valid
  {
    var t, f := l.p.trajectory, FrameOf(l.p.trajectory);
    FrameFits(t);
    var m' := Step(t, l.motion);
    if InCentre(t, l.motion) {
      CentreStepBounded(t, f, l.motion);
    } else {
      OuterStepBounded(t, f, l.motion);
    }
    BoundedInside(t, f, m');
    assert m'.displacement == l.motion.displacement + m'.velocity * DT;
    ReferenceVelocity(l.origin, l.motion.displacement, m'.velocity);
    SettlingTravelBound(l.p, 0.0, Abs(m'.displacement));
    if m'.finished {
      SettlingTravelBound(l.p, Abs(m'.velocity), Abs(m'.displacement));
    }
  }

  lemma ReferenceVelocity(origin: real, d: real, v: real)
    ensures ((origin + (d + v * DT)) - (origin + d)) / DT == v
  {
  }

  lemma SettlingSafe(l: Logic, in_: Inputs)
    requires Safe(l) && l.state.valid && l.state.phase == Settling
    ensures Safe(Advance(l, in_))
    ensures Advance(l, in_).state.fault != Bounds || l.state.fault == Bounds
  {
    SettleStep(Reach(l.p), l.p.settlingAcceleration, l.state.referencePosition.value - l.origin,
               l.state.referenceVelocity);
  }

  /** Where there is a reference and a position, they are this close. */
  predicate Near(s: Snapshot, in_: Inputs, tolerance: real) {
    s.valid && in_.position.Finite? && s.referencePosition.Finite? ==>
      Abs(in_.position.value - s.referencePosition.value) <= tolerance
  }

  /** No update takes the controller out of the safe states, and only feedback
      outside the tracking tolerance can raise the bounds fault. */
  lemma NextSafe(l: Logic, in_: Inputs)
    requires Safe(l) && !Leaps(l.p.trajectory, l.motion)
    ensures Safe(Next(l, in_))
    ensures Near(l.state, in_, l.p.trackingTolerance) && Next(l, in_).state.fault == Bounds ==>
              l.state.fault == Bounds
  {
    match Examine(l, in_)
    case Refuse(_, _) =>
      if l.state.valid && l.state.phase == Trajectory {
        SafeDistance(l);
      }
    case Proceed(s) =>
      var l1 := l.(state := s);
      if s.phase == Trajectory {
        TrajectorySafe(l1, in_);
      } else if s.phase == Settling {
        SettlingSafe(l1, in_);
      }
  }

  lemma SafeDistance(l: Logic)
    requires Safe(l) && l.state.valid
    ensures Abs(l.state.referencePosition.value - l.origin) <= Reach(l.p)
  {
    if l.state.phase == Trajectory {
      FrameFits(l.p.trajectory);
      BoundedInside(l.p.trajectory, FrameOf(l.p.trajectory), l.motion);
      SettlingTravelBound(l.p, 0.0, Abs(l.motion.displacement));
    }
  }

  lemma ActivatedSafe(p: CalibrationSettings, in0: Inputs)
    requires Activatable(AllFinite(p), in0)
    ensures Safe(Activated(p, in0)) && Good(Activated(p, in0))
    ensures in0.AllFinite()
  {
    FrameFits(p.trajectory);
  }

  /** The motion is always some point of the one trajectory these parameters have. */
  ghost predicate OnCourse(l: Logic, p: CalibrationSettings) {
    l.p == p && exists n: nat :: l.motion == Run(p.trajectory, n)
  }

  ghost predicate NeverLeaps(p: Parameters)
    requires p.Valid()
  {
    forall n: nat :: !Leaps(p, Run(p, n))
  }

  lemma CourseKept(l: Logic, p: CalibrationSettings, in_: Inputs)
    requires Good(l) && OnCourse(l, p)
    ensures OnCourse(Next(l, in_), p)
  {
    var n: nat :| l.motion == Run(p.trajectory, n);
    assert Run(p.trajectory, n + 1) == Step(p.trajectory, Run(p.trajectory, n));
  }

  lemma {:induction false} RunSafe(p: CalibrationSettings, in0: Inputs, inputs: seq<Inputs>)
    requires Activatable(AllFinite(p), in0) && NeverLeaps(p.trajectory)
    ensures Good(Activated(p, in0)) && Safe(Feed(Activated(p, in0), inputs))
    ensures OnCourse(Feed(Activated(p, in0), inputs), p)
  {
    ActivatedSafe(p, in0);
    if inputs != [] {
      var l := Feed(Activated(p, in0), inputs[..|inputs| - 1]);
      RunSafe(p, in0, inputs[..|inputs| - 1]);
      CourseKept(l, p, inputs[|inputs| - 1]);
      NextSafe(l, inputs[|inputs| - 1]);
    } else {
      assert Activated(p, in0).motion == Run(p.trajectory, 0);
    }
  }

  /** Envelope: whatever is fed in, every valid reference of the run, in any
      phase, keeps the tracking tolerance inside the excursion checked at
      activation, and inside the configured bounds. */
  lemma ReferenceInsideEnvelope(p: CalibrationSettings, in0: Inputs, inputs: seq<Inputs>)
    requires Activatable(AllFinite(p), in0) && NeverLeaps(p.trajectory)
    ensures Good(Activated(p, in0))
    ensures var s := Feed(Activated(p, in0), inputs).state;
            s.valid ==> WithinExcursion(p, s, in0.position.value)
  {
    RunSafe(p, in0, inputs);
    var l := Feed(Activated(p, in0), inputs);
    if l.state.valid {
      SafeWithin(l);
    }
  }

  ghost predicate WithinExcursion(p: CalibrationSettings, s: Snapshot, origin: real)
    requires p.Valid()
  {
    && s.referencePosition.Finite?
    && Abs(s.referencePosition.value - origin) + p.trackingTolerance <= p.RequiredExcursion()
    && p.bounds.Contains(s.referencePosition.value, origin)
  }

  lemma SafeWithin(l: Logic)
    requires Safe(l) && l.state.valid
    ensures WithinExcursion(l.p, l.state, l.origin)
  {
    SafeDistance(l);
  }

  /** Feedback that is never farther than the tracking tolerance from the
      reference in force when it arrives. */
  ghost predicate Tracks(l: Logic, inputs: seq<Inputs>)
    requires Good(l)
  {
    forall k :: 0 <= k < |inputs| ==> Near(Feed(l, inputs[..k]).state, inputs[k], l.p.trackingTolerance)
  }

  lemma TracksPrefix(l: Logic, inputs: seq<Inputs>)
    requires Good(l) && Tracks(l, inputs) && inputs != []
    ensures Tracks(l, inputs[..|inputs| - 1])
  {
    forall k | 0 <= k < |inputs| - 1 ensures inputs[..|inputs| - 1][..k] == inputs[..k] {}
  }

  /** Tracked feedback never raises the bounds fault. */
  lemma {:induction false} TrackedNeverOutOfBounds(p: CalibrationSettings, in0: Inputs, inputs: seq<Inputs>)
    requires Activatable(AllFinite(p), in0) && NeverLeaps(p.trajectory)
    requires Good(Activated(p, in0)) ==> Tracks(Activated(p, in0), inputs)
    ensures Good(Activated(p, in0)) && Feed(Activated(p, in0), inputs).state.fault != Bounds
  {
    ActivatedSafe(p, in0);
    var l0 := Activated(p, in0);
    if inputs != [] {
      var n := |inputs| - 1;
      TracksPrefix(l0, inputs);
      TrackedNeverOutOfBounds(p, in0, inputs[..n]);
      RunSafe(p, in0, inputs[..n]);
      NextSafe(Feed(l0, inputs[..n]), inputs[n]);
    }
  }

  /** What activation promises of these settings started from this feedback. */
  ghost predicate EnvelopePromise(p: CalibrationSettings, in0: Inputs) {
    Activatable(AllFinite(p), in0) ==> Good(Activated(p, in0)) && NeverOutOfBounds(Activated(p, in0))
  }

  ghost predicate NeverOutOfBounds(l: Logic)
    requires Good(l)
  {
    forall inputs {:trigger Tracks(l, inputs)} :: Tracks(l, inputs) ==> Feed(l, inputs).state.fault != Bounds
  }

  /** Envelope: activation keeps its promise whenever no step of the trajectory
      leaps the centre zone. */
  lemma EnvelopeHolds(p: CalibrationSettings, in0: Inputs)
    requires p.Valid() && NeverLeaps(p.trajectory)
    ensures EnvelopePromise(p, in0)
  {
    if Activatable(AllFinite(p), in0) {
      ActivatedSafe(p, in0);
      forall inputs | Tracks(Activated(p, in0), inputs)
        ensures Feed(Activated(p, in0), inputs).state.fault != Bounds
      {
        TrackedNeverOutOfBounds(p, in0, inputs);
      }
    }
  }

  /** And that is so whenever the closed-form check says that none can. */
  lemma EnvelopeChecked(p: CalibrationSettings, in0: Inputs)
    requires p.Valid() && CannotLeap(p.trajectory)
    ensures NeverLeaps(p.trajectory) && EnvelopePromise(p, in0)
  {
    forall n: nat ensures !Leaps(p.trajectory, Run(p.trajectory, n)) {
      StaysInside(p.trajectory, n);
    }
    EnvelopeHolds(p, in0);
  }

  // ----- settling and completion -----

  /** The number of settling updates the timeout allows. */
  function SettlingUpdates(p: CalibrationSettings): int {
    (p.settlingTimeout / DT).Floor
  }

  ghost predicate InSettling(l: Logic) {
    l.active && l.state.valid && l.state.phase == Settling
  }

  ghost predicate Ended(l: Logic) {
    l.active && (!l.state.valid || l.state.phase == Complete)
  }

  lemma EndedStays(l: Logic, in_: Inputs)
    requires Good(l) && Ended(l)
    ensures Ended(Next(l, in_))
  {
  }

  lemma SettlingNext(l: Logic, in_: Inputs)
    requires Good(l) && InSettling(l)
    ensures var l' := Next(l, in_);
            || Ended(l')
            || (InSettling(l') && l'.settlingCycles == l.settlingCycles + 1 &&
                l'.settlingCycles as real * DT <= l.p.settlingTimeout)
  {
  }

  lemma {:induction false} SettlingCounts(l: Logic, inputs: seq<Inputs>)
    requires Good(l) && InSettling(l)
    ensures var l' := Feed(l, inputs);
            || Ended(l')
            || (InSettling(l') && l'.settlingCycles == l.settlingCycles + |inputs| &&
                (inputs != [] ==> l'.settlingCycles as real * DT <= l.p.settlingTimeout))
  {
    if inputs != [] {
      var n := |inputs| - 1;
      SettlingCounts(l, inputs[..n]);
      var l' := Feed(l, inputs[..n]);
      if Ended(l') { EndedStays(l', inputs[n]); } else { SettlingNext(l', inputs[n]); }
    }
  }

  /** Settling ends, complete or faulted, within floor(timeout/dt)+1 updates. */
  lemma SettlingTerminates(l: Logic, inputs: seq<Inputs>)
    requires Good(l) && InSettling(l)
    requires |inputs| >= SettlingUpdates(l.p) + 1
    ensures Ended(Feed(l, inputs))
  {
    SettlingCounts(l, inputs);
  }

  /** Settling after k updates from a reference at r with velocity v: the speed
      has dropped by k steps of the deceleration, or is exactly zero. */
  function SettlingSpeed(p: CalibrationSettings, v: real, k: nat): real {
    CopySign(Max(0.0, Abs(v) - k as real * (p.settlingAcceleration * DT)), v)
  }

  ghost predicate StoppedWithin(p: CalibrationSettings, s0: Snapshot, s: Snapshot)
    requires s0.referencePosition.Finite? && s.referencePosition.Finite?
  {
    var travel := s.referencePosition.value - s0.referencePosition.value;
    && (s0.referenceVelocity >= 0.0 ==> travel >= 0.0)
    && (s0.referenceVelocity <= 0.0 ==> travel <= 0.0)
    && s.referenceVelocity * s.referenceVelocity + 2.0 * p.settlingAcceleration * Abs(travel)
       <= s0.referenceVelocity * s0.referenceVelocity
  }

  ghost predicate Moving(l: Logic) {
    l.active && l.state.valid && l.state.phase in {Settling, Complete} && l.state.referencePosition.Finite?
  }

  lemma SettlingSpeedStep(p: CalibrationSettings, v: real, k: nat)
    requires p.settlingAcceleration > 0.0
    ensures var u := SettlingSpeed(p, v, k);
            CopySign(Max(0.0, Abs(u) - p.settlingAcceleration * DT), u) == SettlingSpeed(p, v, k + 1)
  {
    var c := p.settlingAcceleration * DT;
    assert c > 0.0;
    assert (k + 1) as real * c == k as real * c + c;
  }

  lemma EnergyStep(a: real, e: real, travel: real, v: real)
    requires a > 0.0 && v * v + 2.0 * a * Abs(travel) <= e
    requires (travel > 0.0 ==> v >= 0.0) && (travel < 0.0 ==> v <= 0.0)
    ensures var v' := CopySign(Max(0.0, Abs(v) - a * DT), v);
            v' * v' + 2.0 * a * Abs(travel + v' * DT) <= e
  {
    var w := Max(0.0, Abs(v) - a * DT);
    var v' := CopySign(w, v);
    var c := a * DT;
    assert c > 0.0;
    assert Abs(travel + v' * DT) == Abs(travel) + w * DT;
    if Abs(v) > c {
      assert v * v == (w + c) * (w + c) == w * w + 2.0 * w * c + c * c;
      assert 2.0 * a * (Abs(travel) + w * DT) == 2.0 * a * Abs(travel) + 2.0 * w * c;
    }
  }

  /** What settling has done to the reference of s0 after n updates. */
  ghost predicate Settled(p: CalibrationSettings, s0: Snapshot, s: Snapshot, n: nat)
    requires s0.referencePosition.Finite?
  {
    && s.valid && s.phase in {Settling, Complete} && s.referencePosition.Finite?
    && s.referenceVelocity == (if s.phase == Complete then 0.0 else SettlingSpeed(p, s0.referenceVelocity, n))
    && StoppedWithin(p, s0, s)
  }

  lemma SettledStep(l: Logic, s0: Snapshot, in_: Inputs, n: nat)
    requires l.p.settlingAcceleration > 0.0 && l.p.stationaryDuration > 0.0
    requires s0.referencePosition.Finite? && l.state.phase == Settling && Settled(l.p, s0, l.state, n)
    ensures Settled(l.p, s0, Settle(l, in_).state, n + 1)
  {
    SettlingSpeedStep(l.p, s0.referenceVelocity, n);
    EnergyStep(l.p.settlingAcceleration, s0.referenceVelocity * s0.referenceVelocity,
               l.state.referencePosition.value - s0.referencePosition.value, l.state.referenceVelocity);
  }

  lemma SettledAdvance(l: Logic, s0: Snapshot, in_: Inputs, n: nat)
    requires Good(l) && InSettling(l) && s0.referencePosition.Finite?
    requires Settled(l.p, s0, l.state, n)
    ensures var s := Advance(l, in_).state;
            s.valid ==> Settled(l.p, s0, s, n + 1)
  {
    SettledStep(l, s0, in_, n);
    var s := Settle(l, in_).state;
    SettledIgnores(l.p, s0, s, Advance(l, in_).state, n + 1);
  }

  ghost predicate SameReference(s: Snapshot, s': Snapshot) {
    s'.valid && s'.phase == s.phase && s'.referencePosition == s.referencePosition &&
    s'.referenceVelocity == s.referenceVelocity
  }

  /** Settled reads only the phase and the reference. */
  lemma SettledIgnores(p: CalibrationSettings, s0: Snapshot, s: Snapshot, s': Snapshot, n: nat)
    requires s0.referencePosition.Finite? && Settled(p, s0, s, n)
    ensures SameReference(s, s') ==> Settled(p, s0, s', n)
    ensures s.phase == Complete ==> Settled(p, s0, s, n + 1)
  {
  }

  lemma SettledNext(l: Logic, s0: Snapshot, in_: Inputs, n: nat)
    requires Good(l) && l.active && s0.referencePosition.Finite?
    requires Settled(l.p, s0, l.state, n)
    ensures var s := Next(l, in_).state;
            s.valid ==> Settled(l.p, s0, s, n + 1)
  {
    match Examine(l, in_)
    case Refuse(_, _) =>
    case Proceed(s) =>
      SettledIgnores(l.p, s0, l.state, s, n);
      if s.phase == Settling {
        SettledAdvance(l.(state := s), s0, in_, n);
      } else {
        SettledIgnores(l.p, s0, s, s, n);
      }
  }

  /** While settling, the reference speed drops by one deceleration step an
      update to exactly zero, never reverses, and never moves the reference
      backwards or farther than the stopping distance. */
  lemma {:induction false} SettlingStops(l0: Logic, inputs: seq<Inputs>)
    requires Good(l0) && InSettling(l0)
    ensures var s := Feed(l0, inputs).state;
            s.valid ==> Settled(l0.p, l0.state, s, |inputs|)
  {
    if inputs == [] {
      assert SettlingSpeed(l0.p, l0.state.referenceVelocity, 0) == l0.state.referenceVelocity;
    } else {
      var n := |inputs| - 1;
      SettlingStops(l0, inputs[..n]);
      var l := Feed(l0, inputs[..n]);
      if l.state.valid {
        SettledNext(l, l0.state, inputs[n], n);
      } else {
        NextGood(l, inputs[n]);
      }
    }
  }

  /** The same travel bound in closed form. */
  lemma StoppingTravel(p: CalibrationSettings, s0: Snapshot, s: Snapshot, n: nat)
    requires p.Valid() && s0.referencePosition.Finite? && Settled(p, s0, s, n)
    ensures Abs(s.referencePosition.value - s0.referencePosition.value)
            <= StoppingDistance(s0.referenceVelocity, p.settlingAcceleration)
    ensures n as real * (p.settlingAcceleration * DT) >= Abs(s0.referenceVelocity) ==> s.referenceVelocity == 0.0
  {
    Spent(s.referenceVelocity, s0.referenceVelocity, p.settlingAcceleration,
          Abs(s.referencePosition.value - s0.referencePosition.value));
  }

  lemma Spent(v: real, v0: real, deceleration: real, travel: real)
    requires deceleration > 0.0 && v * v + 2.0 * deceleration * travel <= v0 * v0
    ensures travel <= StoppingDistance(v0, deceleration)
  {
    var e, a := v0 * v0, 2.0 * deceleration;
    assert v * v >= 0.0;
    EnergySpent(e, a, e / a, travel);
  }

  lemma EnergySpent(e: real, a: real, q: real, travel: real)
    requires a > 0.0 && q == e / a && a * travel <= e
    ensures travel <= q
  {
    assert q * a == e;
    SignOfFactor(a, q - travel);
  }

  /** Once complete, the reference stays where it is for as long as the state is
      valid. */
  lemma {:induction false} HoldNeverMoves(l: Logic, inputs: seq<Inputs>)
    requires Good(l) && l.active && l.state.valid && l.state.phase == Complete
    ensures var s := Feed(l, inputs).state;
            s.valid ==> s.phase == Complete && s.referencePosition == l.state.referencePosition &&
                        s.referenceVelocity == l.state.referenceVelocity
  {
    if inputs != [] {
      var n := |inputs| - 1;
      HoldNeverMoves(l, inputs[..n]);
      NextGood(Feed(l, inputs[..n]), inputs[n]);
    }
  }

  /** The number of consecutive stationary updates completion has to see. */
  function StationaryUpdates(p: CalibrationSettings): int {
    -((-p.stationaryDuration / DT).Floor)
  }

  /** Update j left a zero reference velocity and arrived with feedback that was
      stationary and in tolerance of the reference it left. */
  ghost predicate EarnedAt(l0: Logic, inputs: seq<Inputs>, j: int)
    requires Good(l0) && 0 <= j < |inputs|
  {
    var l := Feed(l0, inputs[..j + 1]);
    l.state.valid && l.state.referencePosition.Finite? && l.state.referenceVelocity == 0.0 &&
    Stationary(l, inputs[j], l.state.referencePosition.value)
  }

  ghost predicate EarnedSince(l0: Logic, inputs: seq<Inputs>, from: int)
    requires Good(l0)
  {
    0 <= from <= |inputs| && forall j :: from <= j < |inputs| ==> EarnedAt(l0, inputs, j)
  }

  ghost predicate NotYetComplete(l: Logic) {
    l.active && l.state.valid && l.state.phase in {Trajectory, Settling}
  }

  lemma EarnedExtends(l0: Logic, inputs: seq<Inputs>, in_: Inputs, from: int)
    requires Good(l0) && EarnedSince(l0, inputs, from)
    requires EarnedAt(l0, inputs + [in_], |inputs|)
    ensures EarnedSince(l0, inputs + [in_], from)
  {
    forall j | from <= j < |inputs| + 1 ensures EarnedAt(l0, inputs + [in_], j) {
      if j < |inputs| {
        assert (inputs + [in_])[..j + 1] == inputs[..j + 1];
        assert EarnedAt(l0, inputs, j);
      }
    }
  }

  lemma StationaryStep(l: Logic, in_: Inputs)
    requires Good(l) && NotYetComplete(l)
    requires l.state.phase == Trajectory ==> l.stationaryCycles == 0
    ensures var l' := Next(l, in_);
            && (!l'.state.valid || l'.state.phase in {Trajectory, Settling, Complete})
            && (l'.state.valid ==>
                  && (l'.stationaryCycles == 0 ||
                      (l'.stationaryCycles == l.stationaryCycles + 1 && l'.state.referencePosition.Finite? &&
                       l'.state.referenceVelocity == 0.0 && Stationary(l', in_, l'.state.referencePosition.value)))
                  && (l'.state.phase == Trajectory ==> l'.stationaryCycles == 0)
                  && (l'.state.phase == Complete ==>
                        l'.stationaryCycles as real * DT >= l.p.stationaryDuration))
  {
  }

  lemma {:induction false} StationaryHistory(l0: Logic, inputs: seq<Inputs>)
    requires Good(l0) && NotYetComplete(l0) && l0.stationaryCycles == 0
    ensures var l := Feed(l0, inputs);
            NotYetComplete(l) ==>
              && EarnedSince(l0, inputs, |inputs| - l.stationaryCycles)
              && (l.state.phase == Trajectory ==> l.stationaryCycles == 0)
  {
    if inputs != [] {
      var n := |inputs| - 1;
      var before := Feed(l0, inputs[..n]);
      NextGood(before, inputs[n]);
      assert inputs == inputs[..n] + [inputs[n]];
      if NotYetComplete(before) {
        StationaryHistory(l0, inputs[..n]);
        StationaryStep(before, inputs[n]);
        EarnedStep(l0, inputs[..n], inputs[n]);
      }
    }
  }

  lemma EarnedStep(l0: Logic, inputs: seq<Inputs>, in_: Inputs)
    requires Good(l0)
    requires var before := Feed(l0, inputs);
             && NotYetComplete(before) && EarnedSince(l0, inputs, |inputs| - before.stationaryCycles)
             && (before.state.phase == Trajectory ==> before.stationaryCycles == 0)
    ensures var l := Feed(l0, inputs + [in_]);
            l.state.valid ==> EarnedSince(l0, inputs + [in_], |inputs| + 1 - l.stationaryCycles)
  {
    var before := Feed(l0, inputs);
    FeedOne(l0, inputs, in_);
    StationaryStep(before, in_);
    var all := inputs + [in_];
    assert all[..|inputs| + 1] == all;
    var l := Feed(l0, all);
    if l.state.valid && l.stationaryCycles > 0 {
      EarnedExtends(l0, inputs, in_, |inputs| - before.stationaryCycles);
    }
  }

  /** Completion is earned: the update that completes is the last of at least
      ceil(stationary duration / dt) consecutive updates with a zero reference
      velocity and stationary, in-tolerance feedback. */
  lemma CompletionEarned(l0: Logic, inputs: seq<Inputs>, in_: Inputs)
    requires Good(l0) && NotYetComplete(l0) && l0.stationaryCycles == 0
    requires NotYetComplete(Feed(l0, inputs))
    requires var s := Feed(l0, inputs + [in_]).state;
             s.valid && s.phase == Complete
    ensures EarnedSince(l0, inputs + [in_], |inputs| + 1 - StationaryUpdates(l0.p))
  {
    StationaryHistory(l0, inputs);
    EarnedStep(l0, inputs, in_);
    FeedOne(l0, inputs, in_);
    StationaryStep(Feed(l0, inputs), in_);
    EnoughUpdates(l0.p, Feed(l0, inputs + [in_]).stationaryCycles);
  }

  lemma EnoughUpdates(p: CalibrationSettings, cycles: nat)
    requires cycles as real * DT >= p.stationaryDuration && p.stationaryDuration > 0.0
    ensures 0 < StationaryUpdates(p) <= cycles
  {
    var q := -p.stationaryDuration / DT;
    assert q * DT == -p.stationaryDuration;
    assert -(cycles as real) <= q < 0.0;
  }
}
