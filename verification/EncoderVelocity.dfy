/** What the encoder session lets through, in whole counts and nanoseconds, and the
    velocity it gives. */
module EncoderVelocity {
  import opened ControlTypes
  import opened DriveProfile
  import opened CountConversion

  /** An observation after another is accepted if and only if it is later and its count is
      no farther than the bound, times the elapsed milliseconds if that is more than one
      and the session was not suspended. */
  lemma AcceptedExactly(s: Session, counts: Counts, now: int, bound: int)
    requires s.haveRead && bound >= 0
    ensures var delta, elapsed := counts - s.previous, now - s.lastNs;
            Accepted(s, counts, now, bound) <==>
              && elapsed > 0
              && if s.suspended || elapsed <= 1_000_000 then -bound <= delta <= bound
                 else -bound * elapsed <= delta * 1_000_000 <= bound * elapsed
  {
    var delta, elapsed := counts - s.previous, now - s.lastNs;
    if elapsed > 1_000_000 && !s.suspended {
      Scaled(CountAbs(delta), bound, elapsed);
    }
  }

  lemma Scaled(delta: nat, bound: int, elapsed: int)
    requires elapsed > 1_000_000 && bound >= 0
    ensures delta as real <= Allowance(false, elapsed, bound) <==> delta * 1_000_000 <= bound * elapsed
  {
    var ratio := elapsed as real / 1_000_000.0;
    assert ratio >= 1.0;
    var allowed := bound as real * ratio;
    assert allowed * 1_000_000.0 == bound as real * elapsed as real;
    assert (bound * elapsed) as real == bound as real * elapsed as real;
  }

  /** A reference is set once: setting it again never changes it, and agrees with it or
      says that it does not. */
  lemma ReferenceSetOnce(c: Calibration, counts: Counts, again: Counts)
    ensures var (ok, c') := c.SetReference(counts);
            && c'.referenceValid && (ok <==> !c.referenceValid || c.reference == counts)
            && c'.reference == (if c.referenceValid then c.reference else counts)
            && c'.SetReference(again) == (c'.reference == again, c')
            && c'.ClearReference().SetReference(again) == (true, c'.(reference := again))
  {
  }

  /** Metres from one accepted observation to the next, by velocity and time. */
  function Moved(s: Session, s': Session): real {
    if s'.velocity.Finite? then s'.velocity.value * ((s'.lastNs - s.lastNs) as real * 0.000000001) else 0.0
  }

  /** The sum of those over a session. */
  function Travelled(uses: seq<Use>, scale: real, bound: int): real {
    if uses == [] then 0.0
    else
      var before, u := UsedAll(uses[..|uses| - 1], scale, bound), uses[|uses| - 1];
      Travelled(uses[..|uses| - 1], scale, bound)
      + (if u.Observation? && before.haveRead && Accepted(before, u.counts, u.now, bound)
         then Moved(before, Used(before, u, scale, bound)) else 0.0)
  }

  function Metres(scale: real, counts: int): real {
    scale * counts as real
  }

  lemma RateTimes(scale: real, delta: int, elapsed: int)
    requires elapsed > 0
    ensures Rate(scale, delta, elapsed) * (elapsed as real * 0.000000001) == Metres(scale, delta)
  {
    var seconds := elapsed as real * 0.000000001;
    assert seconds > 0.0;
    assert scale * delta as real / seconds * seconds == scale * delta as real;
  }

  lemma MovedIs(s: Session, u: Use, scale: real, bound: int)
    requires u.Observation? && s.haveRead && Accepted(s, u.counts, u.now, bound)
    ensures Moved(s, Used(s, u, scale, bound)) == Metres(scale, u.counts - s.previous)
  {
    RateTimes(scale, u.counts - s.previous, u.now - s.lastNs);
  }

  /** The velocity integrates to the distance: over any session, with whatever was refused
      and suspended in it, the velocities times their times add up to the scale times the
      counts moved since the first accepted observation. */
  lemma {:induction false} VelocityIntegrates(uses: seq<Use>, scale: real, bound: int)
    ensures var taken := Taken(uses, scale, bound);
            if taken == [] then Travelled(uses, scale, bound) == 0.0
            else
              && taken[0].Observation?
              && Travelled(uses, scale, bound)
                 == Metres(scale, UsedAll(uses, scale, bound).previous - taken[0].counts)
  {
    if uses != [] {
      var front, u := uses[..|uses| - 1], uses[|uses| - 1];
      var before, taken := UsedAll(front, scale, bound), Taken(front, scale, bound);
      VelocityIntegrates(front, scale, bound);
      LatestTaken(front, scale, bound);
      if u.Observation? && Accepted(before, u.counts, u.now, bound) {
        assert Taken(uses, scale, bound) == taken + [u];
        if before.haveRead {
          MovedIs(before, u, scale, bound);
          Adds(scale, before.previous - taken[0].counts, u.counts - before.previous);
        } else {
          assert Metres(scale, 0) == 0.0;
        }
      }
    }
  }

  lemma Adds(scale: real, a: int, b: int)
    ensures Metres(scale, a) + Metres(scale, b) == Metres(scale, a + b)
  {
  }
}
