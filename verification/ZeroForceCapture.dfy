/** What the compliant controller captures: the baseline is the mean of exactly the
    samples it was meant to average, and the noise their root mean square about it. */
module ZeroForceCapture {
  import opened ControlTypes
  import opened ZeroForce
  import opened ZeroForceRun

  function Sum(forces: seq<real>): real {
    if forces == [] then 0.0 else Sum(forces[..|forces| - 1]) + forces[|forces| - 1]
  }

  function Square(x: real): real {
    x * x
  }

  function SquaredDeviations(forces: seq<real>, centre: real): real {
    if forces == [] then 0.0
    else
      SquaredDeviations(forces[..|forces| - 1], centre)
      + Square(forces[|forces| - 1] - centre)
  }

  function LargestDeviation(forces: seq<real>, centre: real): real {
    if forces == [] then 0.0
    else Max(LargestDeviation(forces[..|forces| - 1], centre), Abs(forces[|forces| - 1] - centre))
  }

  function BaselineSamples(p: ZeroForceSettings): int {
    Ceil(p.baselineDuration / DT)
  }

  function NoiseSamples(p: ZeroForceSettings): int {
    Ceil(p.noiseDuration / DT)
  }

  lemma AtLeastOne(duration: real)
    requires duration >= DT
    ensures Ceil(duration / DT) >= 1
    ensures Ceil(duration / DT) as real * DT >= duration
    ensures (Ceil(duration / DT) - 1) as real * DT < duration
  {
  }

  // ----- the running mean -----

  ghost predicate MeanOf(mean: real, count: nat, total: real) {
    mean * count as real == total
  }

  ghost predicate RmsOf(rms: real, count: nat, squares: real) {
    rms >= 0.0 && rms * rms * count as real == squares
  }

  lemma MeanStep(mean: real, count: nat, total: real, force: real)
    requires MeanOf(mean, count, total)
    ensures MeanOf(RunningMean(mean, force, count + 1), count + 1, total + force)
  {
    var n := (count + 1) as real;
    assert (force - mean) / n * n == force - mean;
    assert (mean + (force - mean) / n) * n == mean * n + (force - mean) / n * n;
  }

  // ----- the scaled sum -----

  /** The scale and the sum stand for a sum of squares. */
  ghost predicate StandsFor(scale: real, sum: real, squares: real) {
    scale >= 0.0 && sum >= 0.0 && scale * scale * sum == squares && (scale == 0.0 ==> sum == 0.0)
  }

  lemma RatioSquare(a: real, b: real)
    requires b > 0.0
    ensures b * b * (Ratio(a, b) * Ratio(a, b)) == a * a
  {
    var r := Ratio(a, b);
    assert r * b == a;
    assert b * b * (r * r) == (r * b) * (r * b);
  }

  lemma AccumulatedStandsFor(scale: real, sum: real, squares: real, deviation: real)
    requires StandsFor(scale, sum, squares) && deviation >= 0.0
    ensures var (scale', sum') := Accumulated(scale, sum, deviation);
            StandsFor(scale', sum', squares + Square(deviation)) && scale' == Max(scale, deviation)
  {
    if deviation > scale {
      RescaledStandsFor(scale, sum, squares, deviation);
    } else if deviation > 0.0 {
      AddedStandsFor(scale, sum, squares, deviation);
    }
  }

  lemma RescaledStandsFor(scale: real, sum: real, squares: real, deviation: real)
    requires StandsFor(scale, sum, squares) && deviation > scale
    ensures StandsFor(deviation, Rescaled(sum, Ratio(scale, deviation)), squares + Square(deviation))
  {
    var r := Ratio(scale, deviation);
    RatioSquare(scale, deviation);
    var square := r * r;
    assert square >= 0.0;
    assert Rescaled(sum, r) == 1.0 + sum * square;
    assert sum * square >= 0.0;
    Factor(deviation * deviation, sum, square, scale * scale);
  }

  lemma Factor(d: real, sum: real, square: real, s: real)
    requires d * square == s
    ensures d * (1.0 + sum * square) == d + s * sum
  {
    assert d * (sum * square) == d * square * sum;
  }

  lemma AddedStandsFor(scale: real, sum: real, squares: real, deviation: real)
    requires StandsFor(scale, sum, squares) && 0.0 < deviation <= scale
    ensures StandsFor(scale, Added(sum, Ratio(deviation, scale)), squares + Square(deviation))
  {
    var r := Ratio(deviation, scale);
    RatioSquare(deviation, scale);
    var square := r * r;
    assert square >= 0.0;
    assert scale * scale * (sum + square) == scale * scale * sum + scale * scale * square;
  }

  lemma RmsIs(platform: Platform, scale: real, sum: real, squares: real, count: nat)
    requires platform.Sound() && StandsFor(scale, sum, squares) && count > 0
    ensures RmsOf(Rms(platform, scale, sum, count), count, squares)
  {
    var n := count as real;
    var mean := sum / n;
    assert mean * n == sum && mean >= 0.0;
    var root := platform.root(mean);
    assert root >= 0.0 && root * root == mean;
    Regroup(scale, root, n, mean, sum, squares);
  }

  lemma Regroup(scale: real, root: real, n: real, mean: real, sum: real, squares: real)
    requires scale >= 0.0 && root >= 0.0 && root * root == mean && mean * n == sum && scale * scale * sum == squares
    ensures scale * root >= 0.0
    ensures (scale * root) * (scale * root) * n == squares
  {
    assert (scale * root) * (scale * root) == scale * scale * (root * root);
    assert scale * scale * mean * n == scale * scale * (mean * n);
  }

  // ----- whole runs -----

  function ForceOf(in_: Inputs): real {
    if in_.force.Finite? then in_.force.value else 0.0
  }

  function Forces(inputs: seq<Inputs>): (forces: seq<real>)
    ensures |forces| == |inputs|
  {
    if inputs == [] then [] else Forces(inputs[..|inputs| - 1]) + [ForceOf(inputs[|inputs| - 1])]
  }

  ghost predicate IsMean(value: real, forces: seq<real>) {
    MeanOf(value, |forces|, Sum(forces))
  }

  ghost predicate IsNoise(rms: real, scale: real, sum: real, forces: seq<real>, centre: real) {
    && StandsFor(scale, sum, SquaredDeviations(forces, centre))
    && scale == LargestDeviation(forces, centre)
    && RmsOf(rms, |forces|, SquaredDeviations(forces, centre))
  }

  ghost predicate Averaging(c: Controller, forces: seq<real>) {
    && c.count == |forces| < BaselineSamples(c.p)
    && IsMean(c.mean, forces) && c.state.baselineForce == c.mean
    && c.noiseScale == c.noiseSum == c.state.noiseRms == 0.0
  }

  ghost predicate Measuring(c: Controller, forces: seq<real>) {
    var n := BaselineSamples(c.p);
    && 0 < n <= |forces| < n + NoiseSamples(c.p)
    && c.count == |forces| - n
    && IsMean(c.state.baselineForce, forces[..n])
    && IsNoise(c.state.noiseRms, c.noiseScale, c.noiseSum, forces[n..], c.state.baselineForce)
  }

  ghost predicate Measured(c: Controller, forces: seq<real>) {
    var n, m := BaselineSamples(c.p), NoiseSamples(c.p);
    && 0 < n && 0 < m && n + m <= |forces|
    && IsMean(c.state.baselineForce, forces[..n])
    && IsNoise(c.state.noiseRms, c.noiseScale, c.noiseSum, forces[n..n + m], c.state.baselineForce)
  }

  /** What has been captured after these forces, phase by phase. */
  ghost predicate Captured(c: Controller, forces: seq<real>) {
    match c.state.phase
    case Baseline => Averaging(c, forces)
    case Noise => Measuring(c, forces)
    case Compliant => Measured(c, forces)
    case _ => false
  }

  lemma SumMore(forces: seq<real>, force: real)
    ensures Sum(forces + [force]) == Sum(forces) + force
  {
    assert (forces + [force])[..|forces|] == forces;
  }

  lemma DeviationsMore(forces: seq<real>, force: real, centre: real)
    ensures SquaredDeviations(forces + [force], centre)
         == SquaredDeviations(forces, centre) + Square(Abs(force - centre))
    ensures LargestDeviation(forces + [force], centre) == Max(LargestDeviation(forces, centre), Abs(force - centre))
  {
    assert (forces + [force])[..|forces|] == forces;
    assert Square(Abs(force - centre)) == Square(force - centre);
  }

  lemma BaselineStep(c: Controller, forces: seq<real>, force: real)
    requires c.p.Valid() && c.state.phase == Baseline && Averaging(c, forces)
    ensures Captured(SampleBaseline(c, force), forces + [force])
  {
    var all := forces + [force];
    SumMore(forces, force);
    MeanStep(c.mean, c.count, Sum(forces), force);
    AtLeastOne(c.p.baselineDuration);
    AtLeastOne(c.p.noiseDuration);
    var c' := SampleBaseline(c, force);
    if c'.state.phase == Noise {
      assert all[..|all|] == all && all[|all|..] == [];
    }
  }

  lemma NoiseAccumulates(platform: Platform, c: Controller, forces: seq<real>, force: real)
    requires platform.Sound()
    requires IsNoise(c.state.noiseRms, c.noiseScale, c.noiseSum, forces, c.state.baselineForce) && c.count == |forces|
    ensures var c' := SampleNoise(platform, c, force);
            IsNoise(c'.state.noiseRms, c'.noiseScale, c'.noiseSum, forces + [force], c.state.baselineForce)
  {
    var deviation := Abs(force - c.state.baselineForce);
    var squares := SquaredDeviations(forces, c.state.baselineForce);
    DeviationsMore(forces, force, c.state.baselineForce);
    AccumulatedStandsFor(c.noiseScale, c.noiseSum, squares, deviation);
    var (scale, sum) := Accumulated(c.noiseScale, c.noiseSum, deviation);
    RmsIs(platform, scale, sum, squares + Square(deviation), c.count + 1);
  }

  lemma NoiseStep(platform: Platform, c: Controller, forces: seq<real>, force: real)
    requires platform.Sound() && c.p.Valid() && c.state.phase == Noise && Measuring(c, forces)
    ensures Captured(SampleNoise(platform, c, force), forces + [force])
  {
    var all, n := forces + [force], BaselineSamples(c.p);
    NoiseAccumulates(platform, c, forces[n..], force);
    AtLeastOne(c.p.noiseDuration);
    assert all[..n] == forces[..n];
    assert all[n..] == forces[n..] + [force];
    assert all[n..|all|] == all[n..];
  }

  lemma MeasuredMore(c: Controller, forces: seq<real>, force: real)
    requires Measured(c, forces)
    ensures Measured(c, forces + [force])
  {
    var all, n, m := forces + [force], BaselineSamples(c.p), NoiseSamples(c.p);
    assert all[..n] == forces[..n];
    assert all[n..n + m] == forces[n..n + m];
  }

  lemma UpdateCaptures(platform: Platform, c: Controller, in_: Inputs, forces: seq<real>)
    requires platform.Sound() && c.p.Valid() && Usable(c) && c.active && c.state.valid && Captured(c, forces)
    requires Next(platform, c, in_).state.valid
    ensures Captured(Next(platform, c, in_), forces + [ForceOf(in_)])
  {
    match Examine(c, in_)
    case Proceed(s) =>
      var held := c.(state := s.(referencePosition := in_.position));
      if s.phase == Baseline {
        BaselineStep(held, forces, in_.force.value);
      } else if s.phase == Noise {
        NoiseStep(platform, held, forces, in_.force.value);
      } else {
        MeasuredMore(c, forces, in_.force.value);
      }
    case Refuse(_, _) => assert false;
  }

  lemma StartCaptures(p: ZeroForceSettings, start: Inputs)
    requires Activatable(AllFinite(p), start) && !p.holdOnly
    ensures Captured(Activated(p, start), [])
  {
    AtLeastOne(p.baselineDuration);
  }

  /** Whatever the forces, a run that is still valid has averaged exactly the first
      baseline samples, then measured exactly the noise samples about that average,
      and has kept both ever since. */
  lemma {:induction false} CaptureExact(platform: Platform, p: ZeroForceSettings, start: Inputs, inputs: seq<Inputs>)
    requires platform.Sound() && Activatable(AllFinite(p), start) && !p.holdOnly
    requires Run(platform, p, start, inputs).state.valid
    ensures Captured(Run(platform, p, start, inputs), Forces(inputs))
  {
    if inputs == [] {
      StartCaptures(p, start);
    } else {
      var front := inputs[..|inputs| - 1];
      ValidBefore(platform, p, start, inputs, |front|);
      CaptureExact(platform, p, start, front);
      RunSafe(platform, p, start, front);
      UpdateCaptures(platform, Run(platform, p, start, front), inputs[|inputs| - 1], Forces(front));
    }
  }

  /** So compliance begins with the update that completes both counts, no earlier
      and no later, and yields about that baseline beyond that noise. */
  lemma CompliesExactlyWhen(platform: Platform, p: ZeroForceSettings, start: Inputs, inputs: seq<Inputs>)
    requires platform.Sound() && Activatable(AllFinite(p), start) && !p.holdOnly
    requires Run(platform, p, start, inputs).state.valid
    ensures var c, n, m := Run(platform, p, start, inputs), BaselineSamples(p), NoiseSamples(p);
            && (c.state.phase == Compliant <==> |inputs| >= n + m)
            && (|inputs| >= n + m ==>
                  && MeanOf(c.state.baselineForce, n, Sum(Forces(inputs)[..n]))
                  && RmsOf(c.state.noiseRms, m, SquaredDeviations(Forces(inputs)[n..n + m], c.state.baselineForce)))
  {
    CaptureExact(platform, p, start, inputs);
    RunSafe(platform, p, start, inputs);
    AtLeastOne(p.baselineDuration);
    AtLeastOne(p.noiseDuration);
  }
}
