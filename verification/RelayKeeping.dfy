/** What the plot relay keeps of each sample, and what it shows when it has nothing fresh:
    the fallback. */
module RelayKeeping {
  import opened Options
  import opened Relay

  predicate WellFormed(m: Sample) {
    m.trial > 0 && m.sequence > 0 && m.stamp.Some?
  }

  /** Of a later trial than the last one accepted, or of the same with a later number. */
  predicate Newer(c: Channel, m: Sample) {
    m.trial > c.seen.trial || (m.trial == c.seen.trial && m.sequence > c.seen.sequence)
  }

  /** Dated before the latest sample of its own trial. */
  predicate Reversed(c: Channel, m: Sample)
    requires m.stamp.Some?
  {
    c.latest.Some? && c.latest.value.sample.trial == m.trial && m.stamp.value < c.latest.value.stamp
  }

  /** Of another trial than the last one kept. */
  predicate FirstOfTrial(c: Channel, m: Sample) {
    c.decimated.None? || c.decimated.value.trial != m.trial
  }

  predicate Due(c: Channel, m: Sample, periodNs: int)
    requires m.stamp.Some?
  {
    FirstOfTrial(c, m) || m.stamp.value >= c.decimated.value.stamp + periodNs
  }

  /** An accepted sample that is the first of its trial, or at least a period after the
      last one kept, becomes the last entry of the queue, alone in it if it is the first,
      and in front of nothing that is lost but the oldest of a full queue; any other
      leaves the queue.  Either way it is the latest. */
  lemma AcceptedIsKept(events: seq<Event>, m: Sample, at: int, periodNs: int)
    requires WellFormed(m) && Newer(Run(events, periodNs), m) && !Reversed(Run(events, periodNs), m)
    requires periodNs >= 0
    ensures var c, c' := Run(events, periodNs), Run(events + [Arrives(m, at)], periodNs);
            var e := Entry(m, m.stamp.value, at);
            && c'.latest == Some(e) && c'.seen == Mark(m.trial, m.sequence)
            && c'.published == c.published && c'.sent == c.sent
            && if Due(c, m, periodNs) then
                 && c'.decimated == Some(Kept(m.trial, m.stamp.value))
                 && c'.queue == (if FirstOfTrial(c, m) then []
                                 else if |c.queue| == 32 then c.queue[1..] else c.queue) + [e]
                 && c'.selected == (if FirstOfTrial(c, m) then None else c.selected)
               else c'.queue == c.queue && c'.decimated == c.decimated && c'.selected == c.selected
  {
    assert (events + [Arrives(m, at)])[..|events|] == events;
    RunInv(events, periodNs);
  }

  /** A malformed sample only makes the relay forget the latest one; one that is not
      newer than the last accepted changes nothing; one dated back makes it forget the
      latest, the queue and the one selected. */
  lemma OthersAreNot(events: seq<Event>, m: Sample, at: int, periodNs: int)
    ensures var c, c' := Run(events, periodNs), Run(events + [Arrives(m, at)], periodNs);
            && (!WellFormed(m) ==> c' == c.(latest := None))
            && (WellFormed(m) && !Newer(c, m) ==> c' == c)
            && (WellFormed(m) && Newer(c, m) && Reversed(c, m) ==>
                  c' == c.(latest := None, queue := [], selected := None))
  {
    assert (events + [Arrives(m, at)])[..|events|] == events;
  }

  // ----- the fallback -----

  /** The latest sample may be plotted: it is fresh in both clocks and the hardware is
      fit. */
  predicate Plottable(c: Channel, t: Tick) {
    && t.hardwareOk && c.latest.Some?
    && t.now - c.latest.value.arrival < t.timeoutNs
    && 0 <= t.ros - c.latest.value.stamp && t.ros - c.latest.value.stamp < t.timeoutNs
  }

  /** What was sent last is what was published last. */
  predicate SentIs(c: Channel) {
    match c.sent
    case None => c.published == []
    case Some(Idle(key)) => c.published != [] && c.published[|c.published| - 1] == Fallback(key)
    case Some(Taken(trial, sequence)) =>
      && c.published != []
      && var p := c.published[|c.published| - 1];
         p.Plotted? && p.entry.sample.trial == trial && p.entry.sample.sequence == sequence
  }

  lemma PublishSent(c: Channel, t: Tick)
    requires SentIs(c)
    ensures SentIs(Publish(c, t))
  {
  }

  lemma {:induction false} RunSent(events: seq<Event>, periodNs: int)
    ensures SentIs(Run(events, periodNs))
  {
    if events != [] {
      var front, e := events[..|events| - 1], events[|events| - 1];
      RunSent(front, periodNs);
      match e
      case Arrives(sample, at) =>
      case Ticks(tick) => PublishSent(Run(front, periodNs), tick);
    }
  }

  /** Whenever the latest sample is missing or stale in either clock, or the hardware is
      not fit, the tick leaves the fallback of its key as the last publication, and
      forgets what was queued; and then only. */
  lemma FallbackExactlyWhen(events: seq<Event>, t: Tick, periodNs: int)
    ensures var c, c' := Run(events, periodNs), Run(events + [Ticks(t)], periodNs);
            && (!Plottable(c, t) ==>
                  && c'.published != [] && c'.published[|c'.published| - 1] == Fallback(t.key)
                  && c'.queue == [] && c'.selected == None
                  && (c'.published == c.published || c'.published == c.published + [Fallback(t.key)]))
            && (Plottable(c, t) && c'.published != c.published ==> c'.published[|c'.published| - 1].Plotted?)
  {
    assert (events + [Ticks(t)])[..|events|] == events;
    RunSent(events, periodNs);
    RunSent(events + [Ticks(t)], periodNs);
  }

  /** So a malformed sample has the fallback shown at the next tick. */
  lemma MalformedFallsBack(events: seq<Event>, m: Sample, at: int, t: Tick, periodNs: int)
    requires !WellFormed(m)
    ensures var c := Run(events + [Arrives(m, at)] + [Ticks(t)], periodNs);
            c.published != [] && c.published[|c.published| - 1] == Fallback(t.key)
  {
    OthersAreNot(events, m, at, periodNs);
    FallbackExactlyWhen(events + [Arrives(m, at)], t, periodNs);
  }
}
