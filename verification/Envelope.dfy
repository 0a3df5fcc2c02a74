/** The excursion envelope: the closed form checked once before motion bounds
    every position the trajectory recurrence can reach. */
module Envelope {
  import opened ControlTypes
  import opened RealArithmetic
  import opened Sequencer

  /** The constants an excursion is measured against. */
  datatype Frame = Frame(jerk: real, peak: real, top: real, low: real, brake: real, edge: real)

  /** peak bounds the speed of an outward leg while the acceleration is still
      being ramped round to oppose it, brake is the distance needed to stop from
      that speed at the lowest acceleration limit, and edge is the furthest
      point: the turning part of the envelope. */
  function MakeFrame(speed: real, jerk: real, top: real, low: real, halfWidth: real): Frame
    requires jerk > 0.0 && low > 0.0
  {
    var peak := speed + top * top / (2.0 * jerk) + top * DT;
    var rampTime := 2.0 * top / jerk;
    var brake := peak * peak / (2.0 * low);
    Frame(jerk, peak, top, low, brake, halfWidth + peak * (rampTime + 3.0 * DT) + brake)
  }

  function FrameOf(p: Parameters): Frame
    requires p.Valid()
  {
    MakeFrame(p.Speed(), p.jerk, p.maxAcceleration, p.initialAcceleration, p.halfWidth)
  }

  function Turning(p: Parameters): real
    requires p.Valid()
  {
    FrameOf(p).edge
  }

  /** The speed at which one step covers the whole centre zone. */
  function LeapSpeed(p: Parameters): real {
    2.0 * p.Zone() / DT
  }

  /** The leap speed, less what one step can add. */
  function LeapMargin(p: Parameters): real {
    LeapSpeed(p) - p.maxAcceleration * DT
  }

  /** No fall from the edge of the frame is as fast as the margin. */
  predicate FallsShort(f: Frame, margin: real) {
    margin > 0.0 && margin * margin >= 2.0 * f.top * f.edge
  }

  /** What a caller can check beforehand to know that no return leg is ever fast
      enough to pass over the whole centre zone in one step. */
  predicate CannotLeap(p: Parameters)
    requires p.Valid()
  {
    FallsShort(FrameOf(p), LeapMargin(p))
  }

  /** One step carried the carriage from one side of the centre zone to the other. */
  predicate Leaps(p: Parameters, m: Motion) {
    !m.finished && !InCentre(p, m) && !InCentre(p, Step(p, m)) &&
    (m.displacement > 0.0) != (Step(p, m).displacement > 0.0)
  }

  // ----- one excursion, in the coordinates of its own side -----

  ghost predicate Sound(f: Frame) {
    && f.jerk > 0.0 && f.peak > 0.0 && 0.0 < f.low <= f.top
    && f.brake > 0.0 && 2.0 * f.low * f.brake == f.peak * f.peak
  }

  /** On the way out: distance x, outward speed w > 0, outward acceleration b.
      The distance still to be covered fits inside the edge. */
  ghost predicate Outward(f: Frame, limit: real, x: real, w: real, b: real) {
    && w > 0.0
    && (if b > 0.0 then b * b <= 2.0 * f.jerk * (f.peak - w) else w <= f.peak)
    && (b > -limit ==> RampFits(f, limit, x, b))
    && (b == -limit ==> w * w <= 2.0 * limit * (f.edge - x))
  }

  /** On the way back: the return speed is no more than the fall from the edge
      would give. */
  ghost predicate Inward(f: Frame, x: real, w: real, b: real) {
    w <= 0.0 && b <= 0.0 && x <= f.edge && w * w <= 2.0 * f.top * (f.edge - x)
  }

  ghost predicate Excursion(f: Frame, limit: real, x: real, w: real, b: real) {
    && f.low <= limit <= f.top
    && -limit <= b <= limit
    && (Outward(f, limit, x, w, b) || Inward(f, x, w, b))
  }

  /** A leg that starts no further out than start, no faster than speed, fits. */
  ghost predicate StartsFit(f: Frame, start: real, speed: real) {
    && f.peak >= speed > 0.0
    && f.edge >= start
    && 2.0 * f.jerk * (f.peak - speed) >= f.top * f.top
    && f.jerk * (f.edge - f.brake - f.peak * DT - start) >= f.peak * (2.0 * f.top)
  }

  lemma SpeedBelowPeak(f: Frame, w: real, b: real)
    requires f.jerk > 0.0
    requires if b > 0.0 then b * b <= 2.0 * f.jerk * (f.peak - w) else w <= f.peak
    ensures w <= f.peak
  {
    if b > 0.0 {
      Positive(b, b, b * b);
      SignOfFactor(2.0 * f.jerk, f.peak - w);
    }
  }

  lemma RampRoomLeft(f: Frame, x: real, turn: real)
    requires f.jerk > 0.0 && f.peak > 0.0 && turn > 0.0
    requires f.peak * turn <= f.jerk * (f.edge - f.brake - x - f.peak * DT)
    ensures x + f.peak * DT + f.brake <= f.edge
  {
    Positive(f.peak, turn, f.peak * turn);
    SignOfFactor(f.jerk, f.edge - f.brake - x - f.peak * DT);
  }

  lemma BrakeRoomLeft(f: Frame, limit: real, x: real, w: real)
    requires limit > 0.0 && w > 0.0 && w * w <= 2.0 * limit * (f.edge - x)
    ensures x <= f.edge
  {
    Positive(w, w, w * w);
    SignOfFactor(2.0 * limit, f.edge - x);
  }

  /** Outward, the speed is below the peak and the distance covered is inside
      the edge. */
  lemma OutwardInside(f: Frame, limit: real, x: real, w: real, b: real)
    requires Sound(f) && f.low <= limit && -limit <= b <= limit
    requires Outward(f, limit, x, w, b)
    ensures w <= f.peak && x <= f.edge
    ensures b > -limit ==> x + f.peak * DT + f.brake <= f.edge
  {
    SpeedBelowPeak(f, w, b);
    if b > -limit {
      RampRoomLeft(f, x, b + limit);
    } else {
      BrakeRoomLeft(f, limit, x, w);
    }
  }

  /** One outward step while the acceleration ramps. */
  lemma RampStep(f: Frame, limit: real, x: real, w: real, b: real)
    requires Sound(f) && f.low <= limit <= f.top && -limit < b <= limit
    requires Outward(f, limit, x, w, b)
    requires b - f.jerk * DT > -limit
    ensures var b' := b - f.jerk * DT;
            var w' := w + b' * DT;
            w' > 0.0 ==> Outward(f, limit, x + w' * DT, w', b')
  {
    var b' := b - f.jerk * DT;
    var w' := w + b' * DT;
    if w' > 0.0 {
      SpeedHeld(f, w, b);
      RampKeeps(f, limit, x, w', b);
    }
  }

  ghost predicate RampFits(f: Frame, limit: real, x: real, b: real) {
    f.peak * (b + limit) <= f.jerk * (f.edge - f.brake - x - f.peak * DT)
  }

  lemma RampKeeps(f: Frame, limit: real, x: real, w: real, b: real)
    requires f.jerk > 0.0 && w <= f.peak && RampFits(f, limit, x, b)
    ensures RampFits(f, limit, x + w * DT, b - f.jerk * DT)
  {
    var turn, room := b + limit, f.edge - f.brake - x - f.peak * DT;
    RampLeft(f.jerk, f.peak, turn, room, w);
    assert b - f.jerk * DT + limit == turn - f.jerk * DT;
    assert f.edge - f.brake - (x + w * DT) - f.peak * DT == room - w * DT;
  }

  /** The room a ramp needs shrinks by no less than the step taken meanwhile. */
  lemma RampLeft(jerk: real, peak: real, turn: real, room: real, w: real)
    requires jerk > 0.0 && w <= peak && peak * turn <= jerk * room
    ensures peak * (turn - jerk * DT) <= jerk * (room - w * DT)
  {
    assert peak * (turn - jerk * DT) == peak * turn - jerk * (peak * DT);
    assert jerk * (room - w * DT) == jerk * room - jerk * (w * DT);
    Products(jerk, jerk, 0.0, peak * DT - w * DT);
  }

  /** The ramp converts acceleration into at most the speed set aside for it. */
  lemma SpeedHeld(f: Frame, w: real, b: real)
    requires Sound(f)
    requires if b > 0.0 then b * b <= 2.0 * f.jerk * (f.peak - w) else w <= f.peak
    ensures var b' := b - f.jerk * DT;
            var w' := w + b' * DT;
            if b' > 0.0 then b' * b' <= 2.0 * f.jerk * (f.peak - w') else w' <= f.peak
    ensures w + (b - f.jerk * DT) * DT <= f.peak
  {
  }

  lemma RoomToBrake(f: Frame, limit: real, w: real, room: real)
    requires Sound(f) && f.low <= limit && 0.0 < w <= f.peak && f.brake <= room
    ensures w * w <= 2.0 * limit * room
  {
    Products(w, f.peak, w, f.peak);
    Products(2.0 * f.low, 2.0 * limit, f.brake, room);
  }

  /** The outward step on which the acceleration reaches its limit. */
  lemma LimitStep(f: Frame, limit: real, x: real, w: real)
    requires Sound(f) && f.low <= limit <= f.top
    requires w <= f.peak && x + f.peak * DT + f.brake <= f.edge
    ensures var w' := w - limit * DT;
            w' > 0.0 ==> Outward(f, limit, x + w' * DT, w', -limit)
  {
    var w' := w - limit * DT;
    if w' > 0.0 {
      assert w' * DT <= f.peak * DT;
      RoomToBrake(f, limit, w', f.edge - (x + w' * DT));
    }
  }

  /** One outward step with the acceleration at its limit. */
  lemma BrakeStep(f: Frame, limit: real, x: real, w: real)
    requires Sound(f) && f.low <= limit <= f.top
    requires Outward(f, limit, x, w, -limit)
    ensures var w' := w - limit * DT;
            w' > 0.0 ==> Outward(f, limit, x + w' * DT, w', -limit)
  {
    var l := limit * DT;
    var w' := w - l;
    if w' > 0.0 {
      var room := f.edge - x;
      assert w * w == w' * w' + 2.0 * w' * l + l * l;
      assert 2.0 * limit * (room - w' * DT) == 2.0 * limit * room - 2.0 * w' * l;
      assert l * l >= 0.0;
    }
  }

  /** The step that turns the leg round. */
  lemma TurnStep(f: Frame, limit: real, x: real, w: real, b': real)
    requires Sound(f) && limit <= f.top
    requires x <= f.edge && w > 0.0
    requires -limit <= b' <= limit && w + b' * DT <= 0.0
    ensures Inward(f, x + (w + b' * DT) * DT, w + b' * DT, b')
  {
    var w' := w + b' * DT;
    var x' := x + w' * DT;
    assert b' < 0.0;
    Products(-w', -b' * DT, -w', -w');
    Products(-w' * DT, -w' * DT, -b', f.top);
    Products(0.0, f.top, -w' * DT, f.edge - x');
    assert w' * w' <= (-b' * DT) * (-w');
    assert (-w' * DT) * (-b') == (-b' * DT) * (-w');
    assert 2.0 * f.top * (f.edge - x') == 2.0 * (f.top * (f.edge - x'));
    Products(f.top, f.top, -w' * DT, f.edge - x');
    assert f.top * (-w' * DT) == (-w' * DT) * f.top;
  }

  /** One step of the return. */
  lemma InwardStep(f: Frame, x: real, w: real, b: real, b': real)
    requires Sound(f)
    requires Inward(f, x, w, b)
    requires -f.top <= b' <= 0.0
    ensures Inward(f, x + (w + b' * DT) * DT, w + b' * DT, b')
  {
    var v, c := -w, -b' * DT;
    var w' := w + b' * DT;
    var x' := x + w' * DT;
    assert x' == x - (v + c) * DT;
    assert w' * w' == v * v + 2.0 * v * c + c * c;
    Products(v, v, c, f.top * DT);
    Products(c, c, c, f.top * DT);
    assert 2.0 * f.top * (f.edge - x') ==
           2.0 * f.top * (f.edge - x) + 2.0 * (v * (f.top * DT)) + 2.0 * (c * (f.top * DT));
  }

  /** One step outside the centre zone, seen from its own side: still out there
      within the edge, or back at a speed the edge accounts for. */
  lemma ExcursionStep(f: Frame, limit: real, x: real, w: real, b: real)
    requires Sound(f) && Excursion(f, limit, x, w, b)
    ensures var b' := Clamp(b - f.jerk * DT, -limit, limit);
            var w' := w + b' * DT;
            Excursion(f, limit, x + w' * DT, w', b') && x <= f.edge
  {
    var b' := Clamp(b - f.jerk * DT, -limit, limit);
    var w' := w + b' * DT;
    if Outward(f, limit, x, w, b) {
      OutwardInside(f, limit, x, w, b);
      if w' <= 0.0 {
        TurnStep(f, limit, x, w, b');
      } else if b - f.jerk * DT > -limit {
        RampStep(f, limit, x, w, b);
      } else if b > -limit {
        LimitStep(f, limit, x, w);
      } else {
        BrakeStep(f, limit, x, w);
      }
    } else {
      InwardStep(f, x, w, b, b');
    }
  }

  /** A return step from anywhere inside the edge is slower than the leap speed. */
  lemma ReturnSpeed(f: Frame, x: real, w: real, b: real, margin: real)
    requires Sound(f) && Inward(f, x, w, b)
    requires x > 0.0 && FallsShort(f, margin)
    ensures -w < margin
  {
    Products(0.0, 2.0 * f.top, 0.0, x);
    assert 2.0 * f.top * (f.edge - x) == 2.0 * f.top * f.edge - 2.0 * f.top * x;
    assert 2.0 * f.top * x > 0.0;
    assert (margin - w) * (margin + w) == margin * margin - w * w;
    assert (margin - w) * (margin + w) > 0.0;
    SignOfFactor(margin - w, margin + w);
  }

  lemma LegSpeed(f: Frame, w: real, b: real, speed: real)
    requires Sound(f) && w <= speed && b <= f.top
    requires 2.0 * f.jerk * (f.peak - speed) >= f.top * f.top
    ensures w <= f.peak && (b > 0.0 ==> b * b <= 2.0 * f.jerk * (f.peak - w))
  {
    assert f.top * f.top > 0.0;
    SignOfFactor(2.0 * f.jerk, f.peak - speed);
    if b > 0.0 {
      Products(b, f.top, b, f.top);
      Products(2.0 * f.jerk, 2.0 * f.jerk, f.peak - speed, f.peak - w);
    }
  }

  lemma LegRoom(f: Frame, limit: real, x: real, b: real, start: real)
    requires Sound(f) && limit <= f.top && -limit <= b <= limit && x <= start
    requires f.jerk * (f.edge - f.brake - f.peak * DT - start) >= f.peak * (2.0 * f.top)
    ensures f.peak * (b + limit) <= f.jerk * (f.edge - f.brake - x - f.peak * DT)
    ensures f.brake <= f.edge - x
  {
    var room := f.edge - f.brake - f.peak * DT - start;
    Products(f.peak, f.peak, b + limit, 2.0 * f.top);
    SignOfFactor(f.jerk, room);
    Products(f.jerk, f.jerk, room, f.edge - f.brake - x - f.peak * DT);
  }

  /** A leg leaving the centre zone at no more than the base speed fits, whatever
      acceleration the previous leg left behind. */
  lemma LegStarts(f: Frame, limit: real, x: real, w: real, b: real, start: real, speed: real)
    requires Sound(f) && f.low <= limit <= f.top && -limit <= b <= limit
    requires 0.0 < w <= speed && x <= start
    requires StartsFit(f, start, speed)
    ensures Outward(f, limit, x, w, b)
  {
    LegSpeed(f, w, b, speed);
    if b > -limit {
      LegRoom(f, limit, x, b, start);
    } else {
      LegBrake(f, limit, x, w, start);
    }
  }

  lemma LegBrake(f: Frame, limit: real, x: real, w: real, start: real)
    requires Sound(f) && f.low <= limit <= f.top && 0.0 < w <= f.peak && x <= start
    requires f.jerk * (f.edge - f.brake - f.peak * DT - start) >= f.peak * (2.0 * f.top)
    ensures w * w <= 2.0 * limit * (f.edge - x)
  {
    LegRoom(f, limit, x, -limit, start);
    RoomToBrake(f, limit, w, f.edge - x);
  }

  // ----- the whole run -----

  /** The frame of a valid calibration fits its legs. */
  ghost predicate Fits(p: Parameters, f: Frame) {
    && Sound(f) && f.jerk == p.jerk && f.top == p.maxAcceleration && f.low == p.initialAcceleration
    && StartsFit(f, p.halfWidth + p.Speed() * DT, p.Speed())
  }

  lemma FrameFits(p: Parameters)
    requires p.Valid()
    ensures Fits(p, FrameOf(p))
  {
    FrameSound(p.Speed(), p.jerk, p.maxAcceleration, p.initialAcceleration, p.halfWidth);
    FrameStarts(p.Speed(), p.jerk, p.maxAcceleration, p.initialAcceleration, p.halfWidth);
  }

  lemma FrameSound(speed: real, jerk: real, top: real, low: real, halfWidth: real)
    requires speed > 0.0 && jerk > 0.0 && 0.0 < low <= top
    ensures Sound(MakeFrame(speed, jerk, top, low, halfWidth))
  {
    var f := MakeFrame(speed, jerk, top, low, halfWidth);
    SquareOver(top, 2.0 * jerk, top * top / (2.0 * jerk));
    SquareOver(f.peak, 2.0 * low, f.brake);
  }

  lemma FrameStarts(speed: real, jerk: real, top: real, low: real, halfWidth: real)
    requires speed > 0.0 && jerk > 0.0 && 0.0 < low <= top && halfWidth > 0.0
    requires Sound(MakeFrame(speed, jerk, top, low, halfWidth))
    ensures StartsFit(MakeFrame(speed, jerk, top, low, halfWidth), halfWidth + speed * DT, speed)
  {
    var f := MakeFrame(speed, jerk, top, low, halfWidth);
    var r, t := top * top / (2.0 * jerk), 2.0 * top / jerk;
    SquareOver(top, 2.0 * jerk, r);
    Quotient(2.0 * top, jerk, t);
    TurningProducts(f, speed, r, t, top * DT, halfWidth);
  }

  lemma TurningProducts(f: Frame, s: real, r: real, t: real, a: real, h: real)
    requires f.jerk > 0.0 && f.brake > 0.0 && s > 0.0 && r > 0.0 && t > 0.0 && a > 0.0
    requires r * (2.0 * f.jerk) == f.top * f.top && t * f.jerk == 2.0 * f.top
    requires f.peak == s + r + a && f.edge == h + f.peak * (t + 3.0 * DT) + f.brake
    ensures StartsFit(f, h + s * DT, s)
  {
    PeakRoom(f.jerk, f.top, s, r, a, f.peak);
    RampRoom(f.jerk, f.top, f.peak, s, t, h, f.brake, f.edge);
  }

  lemma PeakRoom(J: real, A: real, s: real, r: real, a: real, P: real)
    requires J > 0.0 && a > 0.0 && r * (2.0 * J) == A * A && P == s + r + a
    ensures 2.0 * J * (P - s) >= A * A
  {
    assert 2.0 * J * (P - s) == r * (2.0 * J) + 2.0 * (J * a);
    SignOfFactor(J, a);
  }

  lemma RampRoom(J: real, A: real, P: real, s: real, t: real, h: real, q: real, edge: real)
    requires J > 0.0 && P >= s > 0.0 && t > 0.0 && q > 0.0 && t * J == 2.0 * A
    requires edge == h + P * (t + 3.0 * DT) + q
    ensures J * (edge - q - P * DT - (h + s * DT)) >= P * (2.0 * A)
    ensures edge >= h + s * DT
  {
    var d := P * (3.0 * DT);
    assert P * (t + 3.0 * DT) == P * t + d;
    SignOfFactor(P, t);
    var slack := d - P * DT - s * DT;
    assert slack > 0.0;
    assert J * (P * t + slack) == P * (t * J) + J * slack;
    SignOfFactor(J, slack);
  }

  /** Where a valid trajectory is between updates: in the centre zone, or on an
      excursion that fits its frame; a finished one is still near the zone and no
      faster than the base speed. */
  ghost predicate Bounded(p: Parameters, f: Frame, m: Motion) {
    if m.finished then
      Abs(m.displacement) <= p.halfWidth + p.Speed() * DT && Abs(m.velocity) <= p.Speed()
    else
      && f.low <= m.limit <= f.top
      && -m.limit <= m.acceleration <= m.limit
      && (!InCentre(p, m) ==>
            if m.displacement > 0.0
            then Excursion(f, m.limit, m.displacement, m.velocity, m.acceleration)
            else Excursion(f, m.limit, -m.displacement, -m.velocity, -m.acceleration))
  }

  lemma CentreMove(p: Parameters, d: real, v: real)
    requires p.Valid() && Abs(d) < p.Zone() && Abs(v) <= p.Speed()
    ensures Abs(d + v * DT) <= p.halfWidth + p.Speed() * DT
    ensures d + v * DT >= p.Zone() ==> v > 0.0
    ensures d + v * DT <= -p.Zone() ==> v < 0.0
  {
  }

  lemma CentreStepBounded(p: Parameters, f: Frame, m: Motion)
    requires p.Valid() && Fits(p, f) && !m.finished && InCentre(p, m) && Bounded(p, f, m)
    ensures Bounded(p, f, Step(p, m))
  {
    var m', v := Step(p, m), CentreVelocity(p, m);
    var start := p.halfWidth + p.Speed() * DT;
    CentreMove(p, m.displacement, v);
    LimitHeld(p, m);
    if !m'.finished && !InCentre(p, m') {
      if m'.displacement > 0.0 {
        LegStarts(f, m'.limit, m'.displacement, v, m'.acceleration, start, p.Speed());
      } else {
        LegStarts(f, m'.limit, -m'.displacement, -v, -m'.acceleration, start, p.Speed());
      }
    }
  }

  lemma LimitHeld(p: Parameters, m: Motion)
    requires p.Valid() && !m.finished && InCentre(p, m)
    requires p.initialAcceleration <= m.limit <= p.maxAcceleration
    requires -m.limit <= m.acceleration <= m.limit
    ensures var m' := Step(p, m);
            && m'.acceleration == m.acceleration && m'.limit >= m.limit
            && (!m'.finished ==> m'.limit <= p.maxAcceleration)
  {
  }

  lemma OuterStepBounded(p: Parameters, f: Frame, m: Motion)
    requires p.Valid() && Fits(p, f) && !m.finished && !InCentre(p, m) && Bounded(p, f, m)
    ensures Abs(m.displacement) <= f.edge
    ensures !Leaps(p, m) ==> Bounded(p, f, Step(p, m))
  {
    if m.displacement > 0.0 {
      ExcursionStep(f, m.limit, m.displacement, m.velocity, m.acceleration);
    } else {
      ExcursionStep(f, m.limit, -m.displacement, -m.velocity, -m.acceleration);
    }
  }

  /** A bounded trajectory is inside the edge of its frame. */
  lemma BoundedInside(p: Parameters, f: Frame, m: Motion)
    requires p.Valid() && Fits(p, f) && Bounded(p, f, m)
    ensures Abs(m.displacement) <= f.edge
  {
    if !m.finished && !InCentre(p, m) {
      OuterStepBounded(p, f, m);
    }
  }

  /** Every position up to and including the first step that leaps the centre
      zone is inside the turning envelope. */
  lemma {:induction false} InsideUntilLeap(p: Parameters, n: nat)
    requires p.Valid()
    requires forall k: nat :: k < n ==> !Leaps(p, Run(p, k))
    ensures Bounded(p, FrameOf(p), Run(p, n))
    ensures Abs(Run(p, n).displacement) <= Turning(p)
  {
    var f := FrameOf(p);
    FrameFits(p);
    if n > 0 {
      InsideUntilLeap(p, n - 1);
      var m := Run(p, n - 1);
      if !m.finished {
        if InCentre(p, m) {
          CentreStepBounded(p, f, m);
        } else {
          OuterStepBounded(p, f, m);
        }
      }
    }
    BoundedInside(p, f, Run(p, n));
  }

  /** A margin no return leg of the frame reaches keeps a step from leaping. */
  lemma BoundedDoesNotLeap(p: Parameters, f: Frame, m: Motion)
    requires p.Valid() && Fits(p, f) && Bounded(p, f, m)
    requires FallsShort(f, LeapMargin(p))
    ensures !Leaps(p, m)
  {
    if !m.finished && !InCentre(p, m) {
      if m.displacement > 0.0 {
        SpeedInside(f, m.limit, m.displacement, m.velocity, m.acceleration, LeapMargin(p));
        StepTooShort(p, m.limit, m.displacement, m.velocity, m.acceleration);
      } else {
        SpeedInside(f, m.limit, -m.displacement, -m.velocity, -m.acceleration, LeapMargin(p));
        StepTooShort(p, m.limit, -m.displacement, -m.velocity, -m.acceleration);
      }
    }
  }

  lemma StepTooShort(p: Parameters, limit: real, x: real, w: real, b: real)
    requires w > -LeapMargin(p) && 0.0 < limit <= p.maxAcceleration && x >= p.Zone()
    ensures x + (w + Clamp(b - p.jerk * DT, -limit, limit) * DT) * DT > -p.Zone()
  {
    Slower(w, Clamp(b - p.jerk * DT, -limit, limit), p.maxAcceleration, LeapSpeed(p), p.Zone());
  }

  lemma SpeedInside(f: Frame, limit: real, x: real, w: real, b: real, margin: real)
    requires Sound(f) && Excursion(f, limit, x, w, b) && x > 0.0
    requires FallsShort(f, margin)
    ensures w > -margin
  {
    if Inward(f, x, w, b) {
      ReturnSpeed(f, x, w, b, margin);
    }
  }

  lemma Slower(w: real, b: real, top: real, leap: real, zone: real)
    requires w > -(leap - top * DT) && b >= -top && leap == 2.0 * zone / DT
    ensures (w + b * DT) * DT > -2.0 * zone
  {
    assert b * DT >= -top * DT;
    var v := w + b * DT;
    assert v > -leap;
    assert v * DT > -leap * DT;
  }

  /** The envelope theorem: when the check holds before motion, no update of the
      whole run ever leaves the turning envelope. */
  lemma {:induction false} StaysInside(p: Parameters, n: nat)
    requires p.Valid() && CannotLeap(p)
    ensures Bounded(p, FrameOf(p), Run(p, n)) && !Leaps(p, Run(p, n))
    ensures Abs(Run(p, n).displacement) <= Turning(p)
  {
    forall k: nat | k < n ensures !Leaps(p, Run(p, k)) {
      StaysInside(p, k);
    }
    InsideUntilLeap(p, n);
    FrameFits(p);
    BoundedDoesNotLeap(p, FrameOf(p), Run(p, n));
  }

  /** The built-in default parameters and the launched profile. */
  const DEFAULTS := Parameters(0.0002, 0.1, 1000.0, 0.2, 0.2, 2.0, 5)
  const LAUNCHED := Parameters(0.0002, 0.005, 10.0, 0.05, 0.05, 0.25, 3)

  /** Both meet the check. */
  lemma ShippedCannotLeap()
    ensures DEFAULTS.Valid() && CannotLeap(DEFAULTS)
    ensures LAUNCHED.Valid() && CannotLeap(LAUNCHED)
  {
    var f, g := FrameOf(DEFAULTS), FrameOf(LAUNCHED);
    assert f.peak == 0.104 && f.brake == 0.02704 && f.edge == 0.027968;
    assert g.peak == 0.008375 && g.brake == 0.00070140625 && g.edge == 0.00134528125;
    assert LeapMargin(DEFAULTS) > 0.39 && LeapMargin(LAUNCHED) > 0.39;
    SquareAbove(LeapMargin(DEFAULTS));
    SquareAbove(LeapMargin(LAUNCHED));
  }

  lemma SquareAbove(x: real)
    requires x > 0.39
    ensures x * x > 0.1521
  {
    assert (x - 0.39) * (x + 0.39) > 0.0;
  }
}
