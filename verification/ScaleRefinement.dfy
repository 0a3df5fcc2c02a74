/** The SI recurrence against the integer encoder-count recurrence it replaced:
    run with count-equivalent parameters, it is the count run times the scale. */
module ScaleRefinement {
  import opened ControlTypes
  import opened RealArithmetic
  import opened Sequencer

  /** Parameters in encoder counts, counts per update and so on. */
  datatype CountParameters = CountParameters(
    halfWidth: int,
    velocity: int,
    jerk: int,
    initial: int,
    increment: int,
    maximum: int,
    cycles: int)
  {
    /** Small enough that neither roundoff guard of the SI form reaches a count. */
    predicate Valid() {
      && 0 < halfWidth < 1_000_000_000
      && velocity != 0
      && jerk > 0
      && 0 < initial <= maximum < 70_368_744_177_664
      && increment > 0
      && cycles >= 1
    }
  }

  /** The parameters of the recurrence frozen in the regression test. */
  const LEGACY := CountParameters(1000, 500, 5, 1, 1, 10, 5)

  datatype CountMotion = CountMotion(
    position: int,
    velocity: int,
    acceleration: int,
    limit: int,
    cycles: int,
    counted: bool,
    finished: bool)

  function CountStart(c: CountParameters): CountMotion {
    CountMotion(0, 0, 0, c.initial, 0, true, false)
  }

  function ClampInt(x: int, lo: int, hi: int): int {
    if x < lo then lo else if x > hi then hi else x
  }

  function Magnitude(x: int): int {
    if x < 0 then -x else x
  }

  predicate AtCentre(c: CountParameters, m: CountMotion) {
    Magnitude(m.position) < c.halfWidth
  }

  function AtCentreVelocity(c: CountParameters, m: CountMotion): int {
    ClampInt(if m.velocity == 0 then c.velocity else m.velocity, -Magnitude(c.velocity), Magnitude(c.velocity))
  }

  function CountThePass(c: CountParameters, m: CountMotion): CountMotion {
    if m.cycles + 1 >= c.cycles then
      m.(cycles := 0, limit := m.limit + c.increment, finished := m.limit + c.increment >= c.maximum, counted := true)
    else
      m.(cycles := m.cycles + 1, counted := true)
  }

  function TurnedAcceleration(c: CountParameters, m: CountMotion): int {
    var direction := if m.position >= 0 then 1 else -1;
    ClampInt(m.acceleration - direction * c.jerk, -m.limit, m.limit)
  }

  function CountStep(c: CountParameters, m: CountMotion): CountMotion {
    if m.finished then m
    else if AtCentre(c, m) then
      var v := AtCentreVelocity(c, m);
      var passed := if !m.counted && v * c.velocity > 0 then CountThePass(c, m) else m;
      passed.(velocity := v, position := m.position + v)
    else
      var a := TurnedAcceleration(c, m);
      m.(counted := false, acceleration := a, velocity := m.velocity + a, position := m.position + m.velocity + a)
  }

  function CountRun(c: CountParameters, n: nat): CountMotion {
    if n == 0 then CountStart(c) else CountStep(c, CountRun(c, n - 1))
  }

  // ----- scaling -----

  /** Metres for a count, metres per second for a count per update and metres
      per second squared for a count per update per update. */
  function Metres(s: real, x: int): real { s * x as real }
  function Speed(s: real, x: int): real { 1000.0 * Metres(s, x) }
  function Acceleration(s: real, x: int): real { 1000000.0 * Metres(s, x) }

  function Scaled(s: real, c: CountParameters): Parameters {
    var a := Abs(s);
    Parameters(Metres(a, c.halfWidth), Speed(s, c.velocity), 1000.0 * Acceleration(a, c.jerk),
               Acceleration(a, c.initial), Acceleration(a, c.increment), Acceleration(a, c.maximum), c.cycles)
  }

  function ScaledMotion(s: real, m: CountMotion): Motion {
    Motion(Metres(s, m.position), Speed(s, m.velocity), Acceleration(s, m.acceleration),
           Acceleration(Abs(s), m.limit), m.cycles, m.counted, m.finished)
  }

  lemma MetresOrder(s: real, x: int, y: int)
    requires s > 0.0
    ensures Metres(s, x) < Metres(s, y) <==> x < y
    ensures Metres(s, x) == Metres(s, y) <==> x == y
  {
    var d := (y - x) as real;
    assert Metres(s, y) - Metres(s, x) == s * d;
    assert d > 0.0 ==> s * d > 0.0;
    assert d < 0.0 ==> s * d < 0.0;
  }

  lemma MetresAdd(s: real, x: int, y: int)
    ensures Metres(s, x + y) == Metres(s, x) + Metres(s, y)
    ensures Metres(s, -x) == -Metres(s, x)
    ensures Metres(-s, x) == -Metres(s, x)
  {
  }

  lemma MetresAbs(s: real, x: int)
    requires s != 0.0
    ensures Abs(Metres(s, x)) == Metres(Abs(s), Magnitude(x)) >= 0.0
  {
    var a := Abs(s);
    MetresOrder(a, 0, Magnitude(x));
    MetresAdd(a, 0, x);
    MetresAdd(s, 0, x);
    MetresAdd(a, 0, 0);
  }

  lemma MetresClamp(s: real, x: int, limit: int)
    requires s != 0.0 && limit >= 0
    ensures Clamp(Metres(s, x), -Metres(Abs(s), limit), Metres(Abs(s), limit)) == Metres(s, ClampInt(x, -limit, limit))
  {
    var a := Abs(s);
    MetresAdd(a, 0, x);
    MetresAdd(a, 0, limit);
    MetresAdd(s, 0, limit);
    MetresOrder(a, x, limit);
    MetresOrder(a, x, -limit);
    MetresOrder(a, -x, limit);
    MetresOrder(a, -x, -limit);
    MetresOrder(a, -limit, limit);
  }

  /** A guard worth less than one count does not move a comparison of counts. */
  lemma GuardedOrder(a: real, x: int, y: int, guard: real)
    requires a > 0.0 && 0.0 <= guard * y as real < 1.0
    ensures Metres(a, x) < Metres(a, y) - guard * Metres(a, y) <==> x < y
  {
    var g := guard * y as real;
    assert guard * Metres(a, y) == a * g;
    var d := (y - x) as real;
    assert Metres(a, y) - guard * Metres(a, y) - Metres(a, x) == a * (d - g);
    if x < y {
      assert d - g > 0.0;
      assert a * (d - g) > 0.0;
    } else {
      assert a * (g - d) >= 0.0;
    }
  }

  lemma CentreAgrees(s: real, c: CountParameters, m: CountMotion)
    requires s != 0.0 && c.Valid()
    ensures InCentre(Scaled(s, c), ScaledMotion(s, m)) <==> AtCentre(c, m)
  {
    MetresAbs(s, m.position);
    GuardedOrder(Abs(s), Magnitude(m.position), c.halfWidth, CENTRE_GUARD);
  }

  lemma VelocityAgrees(s: real, c: CountParameters, m: CountMotion)
    requires s != 0.0 && c.Valid()
    ensures CentreVelocity(Scaled(s, c), ScaledMotion(s, m)) == Speed(s, AtCentreVelocity(c, m))
  {
    var x := if m.velocity == 0 then c.velocity else m.velocity;
    MetresAbs(s, c.velocity);
    MetresClamp(s, x, Magnitude(c.velocity));
    MetresAbs(s, m.velocity);
    MetresOrder(Abs(s), Magnitude(m.velocity), 0);
    MetresAdd(Abs(s), 0, 0);
    assert Speed(s, m.velocity) == 0.0 <==> m.velocity == 0;
    assert Abs(Speed(s, c.velocity)) == Speed(Abs(s), Magnitude(c.velocity));
  }

  lemma ForwardAgrees(s: real, v: int, b: int)
    requires s != 0.0
    ensures Speed(s, v) * Speed(s, b) > 0.0 <==> v * b > 0
  {
    var q := s * s;
    var w := v * b;
    assert Speed(s, v) * Speed(s, b) == 1000000.0 * (q * w as real) by {
      assert (v as real) * (b as real) == w as real;
      assert Metres(s, v) * Metres(s, b) == q * ((v as real) * (b as real));
    }
    SquarePositive(s, q);
    assert w > 0 ==> q * w as real > 0.0;
    assert w <= 0 ==> q * w as real <= 0.0;
  }

  lemma SquarePositive(s: real, q: real)
    requires s != 0.0 && q == s * s
    ensures q > 0.0
  {
    var a := Abs(s);
    assert q == a * a;
    Positive(a, a, q);
  }

  /** The signed jerk of one update outside the centre zone, in counts. */
  function Turn(c: CountParameters, position: int): int {
    if position >= 0 then c.jerk else -c.jerk
  }

  lemma TurnAgrees(s: real, c: CountParameters, position: int)
    requires s != 0.0 && position != 0
    ensures var direction := if Metres(s, position) >= 0.0 then 1.0 else -1.0;
            direction * (1000.0 * Acceleration(Abs(s), c.jerk)) * DT == Acceleration(s, Turn(c, position))
  {
    var a := Abs(s);
    MetresAdd(a, 0, c.jerk);
    MetresAdd(s, 0, c.jerk);
    MetresAdd(a, 0, position);
    MetresOrder(a, position, 0);
    MetresAdd(a, 0, 0);
  }

  lemma AccelerationAgrees(s: real, c: CountParameters, m: CountMotion)
    requires s != 0.0 && c.Valid() && m.position != 0 && m.limit >= 0
    ensures OuterAcceleration(Scaled(s, c), ScaledMotion(s, m)) == Acceleration(s, TurnedAcceleration(c, m))
  {
    TurnAgrees(s, c, m.position);
    var x := m.acceleration - Turn(c, m.position);
    MetresAdd(s, m.acceleration, -Turn(c, m.position));
    MetresAdd(s, Turn(c, m.position), 0);
    MetresClamp(s, x, m.limit);
    AccelerationClamp(s, x, m.limit);
  }

  lemma AccelerationClamp(s: real, x: int, limit: int)
    requires Clamp(Metres(s, x), -Metres(Abs(s), limit), Metres(Abs(s), limit)) == Metres(s, ClampInt(x, -limit, limit))
    ensures Clamp(Acceleration(s, x), -Acceleration(Abs(s), limit), Acceleration(Abs(s), limit)) ==
            Acceleration(s, ClampInt(x, -limit, limit))
  {
  }

  lemma PassAgrees(s: real, c: CountParameters, m: CountMotion)
    requires s != 0.0 && c.Valid()
    ensures CountPass(Scaled(s, c), ScaledMotion(s, m)) == ScaledMotion(s, CountThePass(c, m))
  {
    var a := Abs(s);
    MetresAdd(a, m.limit, c.increment);
    GuardedOrder(a, m.limit + c.increment, c.maximum, LIMIT_TOLERANCE);
  }

  lemma StepAgrees(s: real, c: CountParameters, m: CountMotion)
    requires s != 0.0 && c.Valid() && m.limit >= 0
    ensures Step(Scaled(s, c), ScaledMotion(s, m)) == ScaledMotion(s, CountStep(c, m))
    ensures CountStep(c, m).limit >= 0
  {
    CentreAgrees(s, c, m);
    if !m.finished {
      if AtCentre(c, m) {
        var v := AtCentreVelocity(c, m);
        VelocityAgrees(s, c, m);
        ForwardAgrees(s, v, c.velocity);
        PassAgrees(s, c, m);
        MetresAdd(s, m.position, v);
      } else {
        AccelerationAgrees(s, c, m);
        var a := TurnedAcceleration(c, m);
        MetresAdd(s, m.velocity, a);
        MetresAdd(s, m.position, m.velocity + a);
      }
    }
  }

  /** Scale refinement: for a scale of either sign the SI run is the scaled count
      run at every update, through the finishing update and the hold after it. */
  lemma {:induction false} RunAgrees(s: real, c: CountParameters, n: nat)
    requires s != 0.0 && c.Valid()
    ensures Run(Scaled(s, c), n) == ScaledMotion(s, CountRun(c, n))
    ensures CountRun(c, n).limit >= 0
  {
    if n == 0 {
      MetresAdd(s, 0, 0);
    } else {
      RunAgrees(s, c, n - 1);
      StepAgrees(s, c, CountRun(c, n - 1));
    }
  }

  /** In particular for the frozen recurrence of the regression test. */
  lemma LegacyAgrees(s: real, n: nat)
    requires s != 0.0
    ensures LEGACY.Valid()
    ensures Run(Scaled(s, LEGACY), n) == ScaledMotion(s, CountRun(LEGACY, n))
  {
    RunAgrees(s, LEGACY, n);
  }
}
