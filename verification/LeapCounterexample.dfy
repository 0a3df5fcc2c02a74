/** Valid settings, accepted by activation, whose trajectory leaves the envelope
    although the feedback tracks perfectly: a return leg passes over the whole
    centre zone in one step, so its speed is never clipped. */
module LeapCounterexample {
  import opened ControlTypes
  import opened Sequencer
  import opened Envelope
  import opened CalibrationLogic
  import opened CalibrationRun
  import opened CalibrationPlan

  const NARROW := Parameters(0.0000001, 0.006, 10000.0, 20.0, 20.0, 20.0, 5)

  const SETTINGS :=
    CalibrationSettings(NARROW, MotionBounds(0.0004, false, 0.0, 0.5), 100.0, 5.0, 0.001, 0.000001, 0.1)

  const AT_REST := Inputs(Finite(0.0), Finite(0.0), Finite(0.0), 0, 1_000_000)

  /** The first seventeen positions, velocities and accelerations. */
  const NARROW_RUN: seq<Motion> := [
    Motion(0.0, 0.0, 0.0, 20.0, 0, true, false),
    Motion(0.000006, 0.006, 0.0, 20.0, 0, true, false),
    Motion(0.000002, -0.004, -10.0, 20.0, 0, false, false),
    Motion(-0.000022, -0.024, -20.0, 20.0, 0, false, false),
    Motion(-0.000056, -0.034, -10.0, 20.0, 0, false, false),
    Motion(-0.00009, -0.034, 0.0, 20.0, 0, false, false),
    Motion(-0.000114, -0.024, 10.0, 20.0, 0, false, false),
    Motion(-0.000118, -0.004, 20.0, 20.0, 0, false, false),
    Motion(-0.000102, 0.016, 20.0, 20.0, 0, false, false),
    Motion(-0.000066, 0.036, 20.0, 20.0, 0, false, false),
    Motion(-0.00001, 0.056, 20.0, 20.0, 0, false, false),
    Motion(0.000066, 0.076, 20.0, 20.0, 0, false, false),
    Motion(0.000152, 0.086, 10.0, 20.0, 0, false, false),
    Motion(0.000238, 0.086, 0.0, 20.0, 0, false, false),
    Motion(0.000314, 0.076, -10.0, 20.0, 0, false, false),
    Motion(0.00037, 0.056, -20.0, 20.0, 0, false, false),
    Motion(0.000406, 0.036, -20.0, 20.0, 0, false, false)]

  /** One step outside the centre zone of NARROW. */
  lemma NarrowStep(m: Motion, m': Motion)
    requires (m.displacement >= 0.000001 || m.displacement <= -0.000001) && m.limit == 20.0 && !m.finished
    requires m'.acceleration == Clamp(m.acceleration - (if m.displacement > 0.0 then 10.0 else -10.0), -20.0, 20.0)
    requires m'.velocity == m.velocity + m'.acceleration / 1000.0
    requires m'.displacement == m.displacement + m'.velocity / 1000.0
    requires m'.limit == 20.0 && m'.cycles == m.cycles && !m'.counted && !m'.finished
    ensures m' == Step(NARROW, m)
  {
  }

  lemma NarrowRun()
    ensures forall k: nat :: k <= 16 ==> Run(NARROW, k) == NARROW_RUN[k]
  {
    var run := NARROW_RUN;
    assert run[1] == Step(NARROW, run[0]);
    forall k | 2 <= k <= 16 ensures run[k] == Step(NARROW, run[k - 1]) {
      NarrowStep(run[k - 1], run[k]);
    }
    RunIs(NARROW, run);
  }

  /** A sequence whose neighbours are one step apart is the run. */
  lemma {:induction false} RunIs(p: Parameters, run: seq<Motion>)
    requires run != [] && run[0] == Start(p)
    requires forall k :: 0 < k < |run| ==> run[k] == Step(p, run[k - 1])
    ensures forall k :: 0 <= k < |run| ==> run[k] == Run(p, k)
  {
    if |run| > 1 {
      RunIs(p, run[..|run| - 1]);
      var k := |run| - 1;
      assert run[k - 1] == run[..k][k - 1] == Run(p, k - 1);
    }
  }

  lemma NarrowExcursion()
    ensures SETTINGS.Valid() && SETTINGS.RequiredExcursion() == 0.00038658
    ensures Turning(NARROW) == 0.00037500
  {
    assert StoppingDistance(0.046, 100.0) == 0.00001058;
    assert MakeFrame(0.006, 10000.0, 20.0, 20.0, 0.0000001) ==
           Frame(10000.0, 0.046, 20.0, 20.0, 0.0000529, 0.000375);
  }

  lemma LeapBetween(m: Motion, m': Motion)
    requires m' == Step(NARROW, m) && !m.finished
    requires if m.displacement > 0.0 then m.displacement >= 0.000001 && m'.displacement <= -0.000001
             else m.displacement <= -0.000001 && m'.displacement >= 0.000001
    ensures Leaps(NARROW, m)
  {
  }

  /** Steps 2 and 10 each pass over the whole zone, and the check on the settings says
      that some could. */
  lemma NarrowLeaps()
    ensures Leaps(NARROW, Run(NARROW, 2)) && Leaps(NARROW, Run(NARROW, 10))
    ensures !CannotLeap(NARROW)
  {
    NarrowLeap(2);
    NarrowLeap(10);
    NarrowFails();
  }

  lemma NarrowLeap(k: nat)
    requires k == 2 || k == 10
    ensures Leaps(NARROW, Run(NARROW, k))
  {
    NarrowRun();
    LeapBetween(Run(NARROW, k), Run(NARROW, k + 1));
  }

  lemma NarrowFails()
    ensures !CannotLeap(NARROW)
  {
    NarrowExcursion();
    assert LeapMargin(NARROW) < 0.0;
  }

  lemma Accepted()
    ensures Activatable(AllFinite(SETTINGS), AT_REST)
  {
    NarrowExcursion();
  }

  /** At the seventeenth position of the trajectory the bounds have no room. */
  lemma LeavesAtSixteen(n: nat)
    requires n == 16
    ensures SETTINGS.Valid() && !Room(SETTINGS, 0.0, PlanAt(SETTINGS, n).offset)
  {
    NarrowExcursion();
    NarrowRun();
    PlannedMotion(SETTINGS, n);
    assert Run(NARROW, n) == NARROW_RUN[n];
  }

  /** The promise is false for these settings, with the bounds, the activation and
      the tracking all as the controller asks: the return legs leap, and the leg
      after them leaves the bounds. */
  lemma EnvelopeCanFail()
    ensures Activatable(AllFinite(SETTINGS), AT_REST) && !EnvelopePromise(SETTINGS, AT_REST)
  {
    Accepted();
    var n: nat := 16;
    LeavesAtSixteen(n);
    EnvelopeExactlyWhen(SETTINGS, AT_REST);
  }
}
