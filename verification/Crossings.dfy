/** What the acceleration limit counts: passes through the centre zone in the
    direction of the first leg, one for each excursion outside it. */
module Crossings {
  import opened ControlTypes
  import opened IntArithmetic
  import opened Sequencer

  /** Update n steps through the centre zone in the first leg's direction. */
  ghost predicate Passes(p: Parameters, n: nat) {
    !Run(p, n).finished && Forward(p, Run(p, n))
  }

  ghost predicate StepsOutside(p: Parameters, n: nat) {
    !Run(p, n).finished && !InCentre(p, Run(p, n))
  }

  /** The latest excursion before update n has not been followed by a pass yet. */
  ghost predicate Outstanding(p: Parameters, n: nat) {
    exists j: nat :: j < n && StepsOutside(p, j) && NoPass(p, j, n)
  }

  ghost predicate NoPass(p: Parameters, j: nat, n: nat) {
    forall i :: j < i < n ==> !Passes(p, i)
  }

  /** Update n is the first pass after an excursion.  The pass that starts the
      run has no excursion before it, and a second pass has another pass since. */
  ghost predicate Crosses(p: Parameters, n: nat) {
    Passes(p, n) && Outstanding(p, n)
  }

  ghost function CrossingCount(p: Parameters, n: nat): (c: nat)
    ensures c <= n
  {
    if n == 0 then 0 else CrossingCount(p, n - 1) + if Crosses(p, n - 1) then 1 else 0
  }

  lemma OutstandingAfterOutside(p: Parameters, n: nat)
    requires StepsOutside(p, n)
    ensures Outstanding(p, n + 1)
  {
    assert NoPass(p, n, n + 1);
  }

  lemma OutstandingAfterInside(p: Parameters, n: nat)
    requires !StepsOutside(p, n)
    ensures Outstanding(p, n + 1) <==> Outstanding(p, n) && !Passes(p, n)
  {
    if Outstanding(p, n + 1) {
      var j: nat :| j < n + 1 && StepsOutside(p, j) && NoPass(p, j, n + 1);
      assert j < n && NoPass(p, j, n);
    }
    if Outstanding(p, n) && !Passes(p, n) {
      var j: nat :| j < n && StepsOutside(p, j) && NoPass(p, j, n);
      assert NoPass(p, j, n + 1);
    }
  }

  lemma StepFlag(p: Parameters, m: Motion)
    requires !m.finished
    ensures Step(p, m).counted ==
            (InCentre(p, m) && (m.counted || Forward(p, m)))
  {
  }

  lemma OutstandingNext(p: Parameters, n: nat)
    requires !Run(p, n).finished
    ensures Outstanding(p, n + 1) <==>
            (!InCentre(p, Run(p, n)) || (Outstanding(p, n) && !Forward(p, Run(p, n))))
  {
    if InCentre(p, Run(p, n)) {
      OutstandingAfterInside(p, n);
    } else {
      OutstandingAfterOutside(p, n);
    }
  }

  lemma Unfinished(p: Parameters, n: nat)
    requires n > 0 && !Run(p, n).finished
    ensures !Run(p, n - 1).finished
  {
  }

  /** The flag the recurrence keeps says whether an excursion is outstanding. */
  lemma {:induction false} FlagIsOutstanding(p: Parameters, n: nat)
    requires !Run(p, n).finished
    ensures Run(p, n).counted <==> !Outstanding(p, n)
  {
    if n > 0 {
      Unfinished(p, n);
      FlagIsOutstanding(p, n - 1);
      StepFlag(p, Run(p, n - 1));
      OutstandingNext(p, n - 1);
    }
  }

  lemma CrossesWhenCounted(p: Parameters, n: nat)
    requires !Run(p, n).finished
    ensures Crosses(p, n) <==> CountsPass(p, Run(p, n))
  {
    FlagIsOutstanding(p, n);
  }

  function RaisedLimit(p: Parameters, raises: nat): real {
    p.initialAcceleration + raises as real * p.accelerationIncrement
  }

  /** The limit after a number of counted crossings. */
  function LimitAfter(p: Parameters, crossings: nat): real
    requires p.cyclesPerIncrease >= 1
  {
    RaisedLimit(p, crossings / p.cyclesPerIncrease)
  }

  /** N is the least number of raises that reaches the maximum. */
  ghost predicate RaisesNeeded(p: Parameters, N: nat) {
    && N >= 1
    && RaisedLimit(p, N) >= p.Threshold()
    && forall m: nat :: 1 <= m < N ==> RaisedLimit(p, m) < p.Threshold()
  }

  /** Some number of raises always suffices. */
  lemma RaisesExist(p: Parameters)
    requires p.Valid()
    ensures exists N: nat :: RaisesNeeded(p, N)
  {
    var q := (p.maxAcceleration - p.initialAcceleration) / p.accelerationIncrement;
    assert q * p.accelerationIncrement == p.maxAcceleration - p.initialAcceleration;
    assert q >= 0.0 by {
      assert q < 0.0 ==> -q * p.accelerationIncrement > 0.0;
    }
    var enough: nat := q.Floor + 1;
    assert (enough as real - q) * p.accelerationIncrement > 0.0;
    assert RaisedLimit(p, enough) > p.maxAcceleration;
    LeastRaises(p, enough);
  }

  lemma {:induction false} LeastRaises(p: Parameters, enough: nat)
    requires enough >= 1 && RaisedLimit(p, enough) >= p.Threshold()
    ensures exists N: nat :: RaisesNeeded(p, N)
  {
    if m: nat :| 1 <= m < enough && RaisedLimit(p, m) >= p.Threshold() {
      LeastRaises(p, m);
    } else {
      assert RaisesNeeded(p, enough);
    }
  }

  lemma RaiseBelow(p: Parameters, N: nat, m: nat)
    requires p.Valid() && RaisesNeeded(p, N) && m >= 1
    ensures RaisedLimit(p, m) >= p.Threshold() <==> m >= N
  {
    if m >= N {
      assert (m - N) as real * p.accelerationIncrement >= 0.0;
      assert m as real * p.accelerationIncrement ==
             N as real * p.accelerationIncrement + (m - N) as real * p.accelerationIncrement;
    }
  }

  lemma NextCrossing(c: int, k: int)
    requires c >= 0 && k >= 1
    ensures if c % k + 1 >= k then (c + 1) % k == 0 && (c + 1) / k == c / k + 1
            else (c + 1) % k == c % k + 1 && (c + 1) / k == c / k
  {
    var q, r := c / k, c % k;
    assert c == q * k + r;
    if r + 1 >= k {
      assert c + 1 == (q + 1) * k;
      Quotients(c + 1, k, q + 1, 0);
    } else {
      Quotients(c + 1, k, q, r + 1);
    }
  }

  /** The recurrence's counters after c crossings, N raises being needed. */
  ghost predicate Counted(p: Parameters, N: nat, m: Motion, c: nat)
    requires p.Valid()
  {
    && m.limit == LimitAfter(p, c)
    && m.cycles == c % p.cyclesPerIncrease
    && c <= N * p.cyclesPerIncrease
    && (m.finished <==> c == N * p.cyclesPerIncrease)
  }

  /** The acceleration limit is the initial one plus an increment for every
      completed group of crossings, the group in progress is the remainder, and
      the trajectory finishes exactly at crossing N * cycles. */
  lemma {:induction false} LimitFollowsCrossings(p: Parameters, N: nat, n: nat)
    requires p.Valid() && RaisesNeeded(p, N)
    ensures Counted(p, N, Run(p, n), CrossingCount(p, n))
  {
    if n == 0 {
      Quotients(0, p.cyclesPerIncrease, 0, 0);
      Product(N, p.cyclesPerIncrease);
    } else {
      LimitFollowsCrossings(p, N, n - 1);
      var m, c := Run(p, n - 1), CrossingCount(p, n - 1);
      if !m.finished {
        CrossesWhenCounted(p, n - 1);
        StepCounts(p, N, m, c);
      }
    }
  }

  lemma Product(a: int, b: int)
    requires a >= 1 && b >= 1
    ensures a * b >= 1
  {
    assert (a - 1) * (b - 1) >= 0;
  }

  lemma StepCounts(p: Parameters, N: nat, m: Motion, c: nat)
    requires p.Valid() && RaisesNeeded(p, N) && !m.finished && Counted(p, N, m, c)
    ensures Counted(p, N, Step(p, m), if CountsPass(p, m) then c + 1 else c)
  {
    if CountsPass(p, m) {
      RaiseStep(p, N, m, c);
    }
  }

  lemma RaiseStep(p: Parameters, N: nat, m: Motion, c: nat)
    requires p.Valid() && RaisesNeeded(p, N) && !m.finished && Counted(p, N, m, c)
    ensures Counted(p, N, CountPass(p, m), c + 1)
  {
    var k := p.cyclesPerIncrease;
    NextCrossing(c, k);
    if c % k + 1 >= k {
      var raises := c / k + 1;
      RaiseBelow(p, N, raises);
      assert RaisedLimit(p, raises) == RaisedLimit(p, c / k) + p.accelerationIncrement by {
        assert raises as real == (c / k) as real + 1.0;
      }
      assert c + 1 == raises * k;
      SameMultiple(raises, N, k);
    } else if c + 1 == N * k {
      Quotients(c + 1, k, N, 0);
    }
  }

  lemma SameMultiple(a: int, b: int, k: int)
    requires k >= 1
    ensures a * k == b * k <==> a == b
    ensures a * k <= b * k <==> a <= b
  {
    var d := b - a;
    assert b * k - a * k == d * k;
    assert d >= 0 ==> d * k >= 0;
    assert d <= -1 ==> d * k <= -k by {
      assert d <= -1 ==> (-d - 1) * k >= 0;
    }
    assert d >= 1 ==> d * k >= k by {
      assert d >= 1 ==> (d - 1) * k >= 0;
    }
  }

  /** Reported progress never decreases and is complete exactly at the end. */
  lemma ProgressGrows(p: Parameters, n: nat)
    requires p.Valid()
    ensures 0.0 <= Progress(p, Run(p, n)) <= Progress(p, Run(p, n + 1)) <= 1.0
  {
    var m, m' := Run(p, n), Run(p, n + 1);
    var range := p.maxAcceleration - p.initialAcceleration;
    if !m'.finished && range > 0.0 {
      assert m'.limit >= m.limit;
      Monotone(m.limit - p.initialAcceleration, m'.limit - p.initialAcceleration, range);
    }
  }

  /** The share of the range of limits that the completed groups of crossings have raised,
      and the whole of it once finished. */
  ghost predicate ShareOf(p: Parameters, N: nat, progress: real, crossings: nat)
    requires p.Valid()
  {
    var range := p.maxAcceleration - p.initialAcceleration;
    var raised := LimitAfter(p, crossings) - p.initialAcceleration;
    if crossings == N * p.cyclesPerIncrease then progress == 1.0
    else if range == 0.0 then progress == 0.0
    else progress * range == if raised > range then range else raised
  }

  lemma ProgressCounts(p: Parameters, N: nat, n: nat)
    requires p.Valid() && RaisesNeeded(p, N)
    ensures ShareOf(p, N, Progress(p, Run(p, n)), CrossingCount(p, n))
  {
    LimitFollowsCrossings(p, N, n);
    ProgressAfter(p, N, Run(p, n), CrossingCount(p, n));
  }

  lemma ProgressAfter(p: Parameters, N: nat, m: Motion, crossings: nat)
    requires p.Valid() && Counted(p, N, m, crossings)
    ensures ShareOf(p, N, Progress(p, m), crossings)
  {
    Raised(p, crossings / p.cyclesPerIncrease);
    ProgressOf(p, m);
  }

  lemma Raised(p: Parameters, raises: nat)
    requires p.Valid()
    ensures RaisedLimit(p, raises) >= p.initialAcceleration
  {
    assert raises as real * p.accelerationIncrement >= 0.0;
  }

  lemma ProgressOf(p: Parameters, m: Motion)
    requires p.Valid() && m.limit >= p.initialAcceleration
    ensures var range, raised := p.maxAcceleration - p.initialAcceleration, m.limit - p.initialAcceleration;
            if m.finished then Progress(p, m) == 1.0
            else if range == 0.0 then Progress(p, m) == 0.0
            else Progress(p, m) * range == if raised > range then range else raised
  {
    var range := p.maxAcceleration - p.initialAcceleration;
    if range > 0.0 {
      Share(m.limit - p.initialAcceleration, range);
    }
  }

  lemma Share(raised: real, range: real)
    requires range > 0.0 && raised >= 0.0
    ensures Clamp(raised / range, 0.0, 1.0) * range == if raised > range then range else raised
  {
    var q := raised / range;
    assert q * range == raised;
    assert q > 1.0 ==> (q - 1.0) * range > 0.0;
    assert q < 0.0 ==> -q * range > 0.0;
    assert q <= 1.0 ==> (1.0 - q) * range >= 0.0;
  }

  lemma Monotone(a: real, b: real, range: real)
    requires a <= b && range > 0.0
    ensures a / range <= b / range
  {
    var d := b / range - a / range;
    assert d * range == b - a;
    assert d < 0.0 ==> -d * range > 0.0;
  }
}
