/** The plot relay: samples of each controller are decimated in source time on
    arrival and published one per tick while they are fresh. */
module Relay {
  import opened Options

  const QUEUE_LENGTH: nat := 32

  /** A sample as it arrives; its source time may be malformed, its fields not
      finite. */
  datatype Sample = Sample(trial: nat, sequence: nat, stamp: Option<int>, valid: bool, finite: bool)

  /** An accepted sample with its source time and its arrival. */
  datatype Entry = Entry(sample: Sample, stamp: int, arrival: int)

  datatype Token = Idle(key: int) | Taken(trial: nat, sequence: nat)

  datatype Mark = Mark(trial: nat, sequence: nat)

  datatype Kept = Kept(trial: nat, stamp: int)

  /** What went out: a controller's sample, with the time of both clocks and the
      validity it was given, or the idle fallback. */
  datatype Publication = Fallback(key: int) | Plotted(entry: Entry, valid: bool, now: int, ros: int)

  datatype Channel = Channel(
    latest: Option<Entry>,
    seen: Mark,
    queue: seq<Entry>,
    selected: Option<Entry>,
    decimated: Option<Kept>,
    sent: Option<Token>,
    published: seq<Publication>)

  const EMPTY_CHANNEL := Channel(None, Mark(0, 0), [], None, None, None, [])

  /** A bounded queue loses its oldest. */
  function Bounded(queue: seq<Entry>): seq<Entry> {
    if |queue| > QUEUE_LENGTH then queue[|queue| - QUEUE_LENGTH..] else queue
  }

  predicate Late(seen: Mark, m: Sample) {
    m.trial < seen.trial || (m.trial == seen.trial && m.sequence <= seen.sequence)
  }

  function Decimate(c: Channel, e: Entry, periodNs: int): Channel {
    var newTrial := c.decimated.None? || c.decimated.value.trial != e.sample.trial;
    var queue := if newTrial then [] else c.queue;
    var selected := if newTrial then None else c.selected;
    if newTrial || e.stamp - c.decimated.value.stamp >= periodNs then
      c.(queue := Bounded(queue + [e]), selected := selected, decimated := Some(Kept(e.sample.trial, e.stamp)))
    else c.(queue := queue, selected := selected)
  }

  function Take(c: Channel, m: Sample, arrival: int, periodNs: int): Channel {
    if m.trial == 0 || m.sequence == 0 || m.stamp.None? then c.(latest := None)
    else if Late(c.seen, m) then c
    else
      var e := Entry(m, m.stamp.value, arrival);
      if c.latest.Some? && m.trial == c.latest.value.sample.trial && e.stamp < c.latest.value.stamp then
        c.(latest := None, queue := [], selected := None)
      else Decimate(c.(latest := Some(e), seen := Mark(m.trial, m.sequence)), e, periodNs)
  }

  datatype Arrival = Arrival(sample: Sample, at: int)

  function TakeAll(c: Channel, batch: seq<Arrival>, periodNs: int): Channel
    decreases |batch|
  {
    if batch == [] then c else TakeAll(Take(c, batch[0].sample, batch[0].at, periodNs), batch[1..], periodNs)
  }

  // ----- publishing -----

  /** One tick: both clocks, the timeout, whether the hardware is fit to plot and
      the identity of the idle fallback. */
  datatype Tick = Tick(now: int, ros: int, timeoutNs: int, hardwareOk: bool, key: int)

  predicate Fresh(e: Entry, t: Tick) {
    t.now - e.arrival < t.timeoutNs && 0 <= t.ros - e.stamp < t.timeoutNs
  }

  function FromFresh(queue: seq<Entry>, t: Tick): seq<Entry>
    decreases |queue|
  {
    if queue != [] && !Fresh(queue[0], t) then FromFresh(queue[1..], t) else queue
  }

  function Select(c: Channel, t: Tick): Channel {
    var queue := FromFresh(c.queue, t);
    if queue == [] then c.(queue := []) else c.(queue := queue[1..], selected := Some(queue[0]))
  }

  function Send(c: Channel, token: Token, p: Publication): Channel {
    if c.sent == Some(token) then c else c.(sent := Some(token), published := c.published + [p])
  }

  function Publish(c: Channel, t: Tick): Channel {
    if t.hardwareOk && c.latest.Some? && Fresh(c.latest.value, t) then
      var c1 := Select(c, t);
      if c1.selected.None? then c1
      else
        var e := c1.selected.value;
        Send(c1, Taken(e.sample.trial, e.sample.sequence), Plotted(e, e.sample.valid && e.sample.finite, t.now, t.ros))
    else Send(c.(queue := [], selected := None), Idle(t.key), Fallback(t.key))
  }

  // ----- the node -----

  datatype Name = ZeroForceController | CalibrationController

  class PlotRelay {
    const periodNs: int
    var controllers: map<Name, Entry>
    var trials: map<Name, Mark>
    var queues: map<Name, seq<Entry>>
    var selected: map<Name, Entry>
    var decimated: map<Name, Kept>
    var sent: map<Name, Token>
    ghost var published: map<Name, seq<Publication>>

    static function Get<T>(m: map<Name, T>, name: Name): Option<T> {
      if name in m then Some(m[name]) else None
    }

    ghost predicate Valid()
      reads this
    {
      forall name: Name :: name in queues && name in published
    }

    ghost function View(name: Name): Channel
      reads this
      requires Valid()
    {
      Channel(Get(controllers, name), if name in trials then trials[name] else Mark(0, 0), queues[name],
              Get(selected, name), Get(decimated, name), Get(sent, name), published[name])
    }

    constructor (periodNs: int)
      ensures Valid() && this.periodNs == periodNs
      ensures forall name: Name :: View(name) == EMPTY_CHANNEL
    {
      this.periodNs := periodNs;
      controllers, trials, selected, decimated, sent := map[], map[], map[], map[], map[];
      queues := map[ZeroForceController := [], CalibrationController := []];
      published := map[ZeroForceController := [], CalibrationController := []];
      new;
      forall name: Name ensures name in queues && name in published {
        assert name == ZeroForceController || name == CalibrationController;
      }
    }

    method Receive(name: Name, batch: seq<Arrival>)
      requires Valid()
      modifies this
      ensures Valid()
      ensures View(name) == TakeAll(old(View(name)), batch, periodNs)
      ensures forall other: Name :: other != name ==> View(other) == old(View(other))
    {
      var i := 0;
      while i < |batch|
        invariant i <= |batch| && Valid()
        invariant TakeAll(old(View(name)), batch, periodNs) == TakeAll(View(name), batch[i..], periodNs)
        invariant forall other: Name :: other != name ==> View(other) == old(View(other))
      {
        assert batch[i..][1..] == batch[i + 1..];
        TakeOne(name, batch[i].sample, batch[i].at);
        i := i + 1;
      }
    }

    method TakeOne(name: Name, m: Sample, arrival: int)
      requires Valid()
      modifies this
      ensures Valid()
      ensures View(name) == Take(old(View(name)), m, arrival, periodNs)
      ensures forall other: Name :: other != name ==> View(other) == old(View(other))
    {
      if m.trial == 0 || m.sequence == 0 || m.stamp.None? {
        Forget(name);
        return;
      }
      var seen := if name in trials then trials[name] else Mark(0, 0);
      if Late(seen, m) {
        return;
      }
      var e := Entry(m, m.stamp.value, arrival);
      if name in controllers && m.trial == controllers[name].sample.trial && e.stamp < controllers[name].stamp {
        Forget(name);
        Discard(name);
      } else {
        Note(name, e);
        Keep(name, e);
      }
    }

    method Forget(name: Name)
      requires Valid()
      modifies `controllers
      ensures Valid()
      ensures View(name) == old(View(name)).(latest := None)
      ensures forall other: Name :: other != name ==> View(other) == old(View(other))
    {
      controllers := controllers - {name};
    }

    method Note(name: Name, e: Entry)
      requires Valid()
      modifies `controllers, `trials
      ensures Valid()
      ensures View(name) == old(View(name)).(latest := Some(e), seen := Mark(e.sample.trial, e.sample.sequence))
      ensures forall other: Name :: other != name ==> View(other) == old(View(other))
    {
      trials := trials[name := Mark(e.sample.trial, e.sample.sequence)];
      controllers := controllers[name := e];
    }

    method Discard(name: Name)
      requires Valid()
      modifies `queues, `selected
      ensures Valid()
      ensures View(name) == old(View(name)).(queue := [], selected := None)
      ensures forall other: Name :: other != name ==> View(other) == old(View(other))
    {
      queues := queues[name := []];
      selected := selected - {name};
    }

    method Enqueue(name: Name, e: Entry)
      requires Valid()
      modifies `queues, `decimated
      ensures Valid()
      ensures View(name) == old(View(name)).(queue := Bounded(old(View(name)).queue + [e]),
                                             decimated := Some(Kept(e.sample.trial, e.stamp)))
      ensures forall other: Name :: other != name ==> View(other) == old(View(other))
    {
      queues := queues[name := Bounded(queues[name] + [e])];
      decimated := decimated[name := Kept(e.sample.trial, e.stamp)];
    }

    method Keep(name: Name, e: Entry)
      requires Valid()
      modifies `queues, `selected, `decimated
      ensures Valid()
      ensures View(name) == Decimate(old(View(name)), e, periodNs)
      ensures forall other: Name :: other != name ==> View(other) == old(View(other))
    {
      var newTrial := name !in decimated || decimated[name].trial != e.sample.trial;
      if newTrial {
        Discard(name);
      }
      if newTrial || e.stamp - decimated[name].stamp >= periodNs {
        Enqueue(name, e);
      }
    }

    method PublishOne(name: Name, t: Tick)
      requires Valid()
      modifies this
      ensures Valid()
      ensures View(name) == Publish(old(View(name)), t)
      ensures forall other: Name :: other != name ==> View(other) == old(View(other))
    {
      if t.hardwareOk && name in controllers && Fresh(controllers[name], t) {
        Choose(name, t);
        if name in selected {
          var e := selected[name];
          Emit(name, Taken(e.sample.trial, e.sample.sequence),
            Plotted(e, e.sample.valid && e.sample.finite, t.now, t.ros));
        }
      } else {
        Discard(name);
        Emit(name, Idle(t.key), Fallback(t.key));
      }
    }

    method Choose(name: Name, t: Tick)
      requires Valid()
      modifies `queues, `selected
      ensures Valid()
      ensures View(name) == Select(old(View(name)), t)
      ensures forall other: Name :: other != name ==> View(other) == old(View(other))
    {
      ghost var queue := queues[name];
      while queues[name] != [] && !Fresh(queues[name][0], t)
        invariant Valid() && selected == old(selected)
        invariant FromFresh(queue, t) == FromFresh(queues[name], t)
        invariant forall other: Name :: other != name ==> View(other) == old(View(other))
        decreases |queues[name]|
      {
        queues := queues[name := queues[name][1..]];
      }
      if queues[name] != [] {
        selected := selected[name := queues[name][0]];
        queues := queues[name := queues[name][1..]];
      }
    }

    method Emit(name: Name, token: Token, p: Publication)
      requires Valid()
      modifies `sent, `published
      ensures Valid()
      ensures View(name) == Send(old(View(name)), token, p)
      ensures forall other: Name :: other != name ==> View(other) == old(View(other))
    {
      if name in sent && sent[name] == token {
        return;
      }
      published := published[name := published[name] + [p]];
      sent := sent[name := token];
    }

    method PublishAll(t: Tick)
      requires Valid()
      modifies this
      ensures Valid()
      ensures forall name: Name :: View(name) == Publish(old(View(name)), t)
    {
      PublishOne(ZeroForceController, t);
      PublishOne(CalibrationController, t);
    }
  }

  // ----- order, spacing and freshness -----

  /** A later sample of the stream: of a later trial, or of the same one with a
      larger sequence number and at least a period on in source time. */
  predicate Follows(a: Entry, b: Entry, periodNs: int) {
    || a.sample.trial < b.sample.trial
    || (a.sample.trial == b.sample.trial && a.sample.sequence < b.sample.sequence && b.stamp - a.stamp >= periodNs)
  }

  ghost predicate Ordered(entries: seq<Entry>, periodNs: int) {
    forall i, j :: 0 <= i < j < |entries| ==> Follows(entries[i], entries[j], periodNs)
  }

  /** The controllers' samples among what was published. */
  function Plots(published: seq<Publication>): seq<Entry> {
    if published == [] then []
    else
      var last := published[|published| - 1];
      Plots(published[..|published| - 1]) + (if last.Plotted? then [last.entry] else [])
  }

  /** Nothing on record is beyond what was last seen and last kept. */
  ghost predicate Behind(seen: Mark, decimated: Option<Kept>, e: Entry) {
    && decimated.Some?
    && e.sample.trial <= decimated.value.trial <= seen.trial
    && (e.sample.trial == seen.trial ==> e.sample.sequence <= seen.sequence)
    && (e.sample.trial == decimated.value.trial ==> e.stamp <= decimated.value.stamp)
  }

  ghost predicate AllBehind(seen: Mark, decimated: Option<Kept>, entries: seq<Entry>) {
    forall x :: x in entries ==> Behind(seen, decimated, x)
  }

  function TokenOf(e: Entry): Token {
    Taken(e.sample.trial, e.sample.sequence)
  }

  /** The token of a sample is that of the last one plotted, and a sample still
      selected has been sent. */
  ghost predicate Tokens(sent: Option<Token>, selected: Option<Entry>, plots: seq<Entry>) {
    && (sent.Some? && sent.value.Taken? ==> plots != [] && sent.value == TokenOf(plots[|plots| - 1]))
    && (selected.Some? ==> sent == Some(TokenOf(selected.value)))
  }

  ghost predicate Inv(c: Channel, periodNs: int) {
    && Ordered(Plots(c.published) + c.queue, periodNs)
    && AllBehind(c.seen, c.decimated, Plots(c.published) + c.queue)
    && (c.decimated.Some? ==> c.decimated.value.trial <= c.seen.trial)
    && |c.queue| <= QUEUE_LENGTH
    && Tokens(c.sent, c.selected, Plots(c.published))
  }

  /** Leaving entries out of the queue keeps the order. */
  lemma Fewer(plots: seq<Entry>, queue: seq<Entry>, n: nat, periodNs: int)
    requires n <= |queue| && Ordered(plots + queue, periodNs)
    ensures Ordered(plots + queue[n..], periodNs)
    ensures n < |queue| ==> Ordered(plots + [queue[n]] + queue[n + 1..], periodNs)
  {
    var all, fewer := plots + queue, plots + queue[n..];
    forall i, j | 0 <= i < j < |fewer| ensures Follows(fewer[i], fewer[j], periodNs) {
      var i' := if i < |plots| then i else i + n;
      var j' := if j < |plots| then j else j + n;
      assert fewer[i] == all[i'] && fewer[j] == all[j'];
    }
    assert n < |queue| ==> plots + [queue[n]] + queue[n + 1..] == fewer;
  }

  lemma PlotsMore(published: seq<Publication>, p: Publication)
    ensures Plots(published + [p]) == Plots(published) + (if p.Plotted? then [p.entry] else [])
  {
  }

  /** An entry not late, kept because of its trial or its distance, follows all. */
  lemma KeptFollows(seen: Mark, decimated: Option<Kept>, e: Entry, x: Entry, periodNs: int)
    requires Behind(seen, decimated, x) && !Late(seen, e.sample)
    requires decimated.value.trial != e.sample.trial || e.stamp - decimated.value.stamp >= periodNs
    ensures Follows(x, e, periodNs)
  {
  }

  lemma OrderedMore(entries: seq<Entry>, e: Entry, periodNs: int)
    requires Ordered(entries, periodNs) && forall i :: 0 <= i < |entries| ==> Follows(entries[i], e, periodNs)
    ensures Ordered(entries + [e], periodNs)
  {
  }

  lemma NoQueue(plots: seq<Entry>, queue: seq<Entry>, seen: Mark, decimated: Option<Kept>, periodNs: int)
    requires Ordered(plots + queue, periodNs) && AllBehind(seen, decimated, plots + queue)
    ensures Ordered(plots, periodNs) && AllBehind(seen, decimated, plots) && plots + [] == plots
  {
    Fewer(plots, queue, |queue|, periodNs);
    assert plots + queue[|queue|..] == plots;
    assert forall x :: x in plots ==> x in plots + queue;
  }

  lemma Cleared(c: Channel, periodNs: int)
    requires Inv(c, periodNs)
    ensures Inv(c.(latest := None, queue := [], selected := None), periodNs)
    ensures Inv(c.(queue := [], selected := None), periodNs)
  {
    NoQueue(Plots(c.published), c.queue, c.seen, c.decimated, periodNs);
  }

  predicate Keeps(decimated: Option<Kept>, e: Entry, periodNs: int) {
    decimated.None? || decimated.value.trial != e.sample.trial || e.stamp - decimated.value.stamp >= periodNs
  }

  /** One more entry in the queue, which may have been emptied and is bounded. */
  lemma Appended(plots: seq<Entry>, queue: seq<Entry>, seen: Mark, decimated: Option<Kept>, e: Entry, periodNs: int)
    requires Ordered(plots + queue, periodNs) && AllBehind(seen, decimated, plots + queue)
    requires !Late(seen, e.sample) && Keeps(decimated, e, periodNs)
    ensures Ordered(plots + Bounded(queue + [e]), periodNs)
  {
    var all := plots + queue;
    forall i | 0 <= i < |all| ensures Follows(all[i], e, periodNs) {
      assert all[i] in all;
      KeptFollows(seen, decimated, e, all[i], periodNs);
    }
    OrderedMore(all, e, periodNs);
    assert all + [e] == plots + (queue + [e]);
    if |queue| + 1 > QUEUE_LENGTH {
      Fewer(plots, queue + [e], |queue| + 1 - QUEUE_LENGTH, periodNs);
    }
  }

  lemma StillBehind(plots: seq<Entry>, queue: seq<Entry>, seen: Mark, decimated: Option<Kept>, e: Entry, periodNs: int)
    requires AllBehind(seen, decimated, plots + queue) && !Late(seen, e.sample)
    requires decimated.Some? ==> decimated.value.trial <= seen.trial
    requires Keeps(decimated, e, periodNs) && periodNs >= 0
    ensures AllBehind(Mark(e.sample.trial, e.sample.sequence), Some(Kept(e.sample.trial, e.stamp)),
                      plots + Bounded(queue + [e]))
  {
    forall x | x in plots + Bounded(queue + [e])
      ensures Behind(Mark(e.sample.trial, e.sample.sequence), Some(Kept(e.sample.trial, e.stamp)), x) {
      assert x == e || x in plots + queue;
    }
  }

  lemma SeenMore(entries: seq<Entry>, seen: Mark, decimated: Option<Kept>, m: Sample)
    requires AllBehind(seen, decimated, entries) && !Late(seen, m)
    ensures AllBehind(Mark(m.trial, m.sequence), decimated, entries)
  {
  }

  lemma DecimateInv(c: Channel, m: Sample, arrival: int, periodNs: int)
    requires Inv(c, periodNs) && !Late(c.seen, m) && m.stamp.Some? && periodNs >= 0
    ensures var e := Entry(m, m.stamp.value, arrival);
            Inv(Decimate(c.(latest := Some(e), seen := Mark(m.trial, m.sequence)), e, periodNs), periodNs)
  {
    var e := Entry(m, m.stamp.value, arrival);
    var plots := Plots(c.published);
    NoQueue(plots, c.queue, c.seen, c.decimated, periodNs);
    if Keeps(c.decimated, e, periodNs) {
      var queue := if c.decimated.None? || c.decimated.value.trial != m.trial then [] else c.queue;
      Appended(plots, queue, c.seen, c.decimated, e, periodNs);
      StillBehind(plots, queue, c.seen, c.decimated, e, periodNs);
    } else {
      SeenMore(plots + c.queue, c.seen, c.decimated, m);
    }
  }

  lemma TakeInv(c: Channel, m: Sample, arrival: int, periodNs: int)
    requires Inv(c, periodNs) && periodNs >= 0
    ensures Inv(Take(c, m, arrival, periodNs), periodNs)
  {
    Cleared(c, periodNs);
    if m.stamp.Some? && !Late(c.seen, m) {
      DecimateInv(c, m, arrival, periodNs);
    }
  }

  /** Stale entries go from the front. */
  lemma {:induction false} FromFreshIs(queue: seq<Entry>, t: Tick)
    ensures exists n: nat {:trigger queue[n..]} :: n <= |queue| && FromFresh(queue, t) == queue[n..]
    ensures FromFresh(queue, t) != [] ==> Fresh(FromFresh(queue, t)[0], t)
    decreases |queue|
  {
    if queue != [] && !Fresh(queue[0], t) {
      FromFreshIs(queue[1..], t);
      var n: nat :| n <= |queue| - 1 && FromFresh(queue[1..], t) == queue[1..][n..];
      assert queue[1..][n..] == queue[n + 1..];
    } else {
      assert queue[0..] == queue;
    }
  }

  lemma DroppedInv(c: Channel, n: nat, periodNs: int)
    requires Inv(c, periodNs) && n <= |c.queue|
    ensures Inv(c.(queue := c.queue[n..]), periodNs)
  {
    Fewer(Plots(c.published), c.queue, n, periodNs);
    assert forall x :: x in Plots(c.published) + c.queue[n..] ==> x in Plots(c.published) + c.queue;
  }

  /** Dropping what is stale. */
  lemma FreshInv(c: Channel, t: Tick, periodNs: int)
    requires Inv(c, periodNs)
    ensures Inv(c.(queue := FromFresh(c.queue, t)), periodNs)
  {
    FromFreshIs(c.queue, t);
    var n: nat :| n <= |c.queue| && FromFresh(c.queue, t) == c.queue[n..];
    DroppedInv(c, n, periodNs);
  }

  /** The front of the queue has not been sent, so it is, and goes on record. */
  lemma FrontUnsent(c: Channel, periodNs: int)
    requires Inv(c, periodNs) && c.queue != []
    ensures c.sent != Some(TokenOf(c.queue[0]))
  {
    var plots := Plots(c.published);
    var entries := plots + c.queue;
    if plots != [] {
      assert Follows(entries[|plots| - 1], entries[|plots|], periodNs);
    }
  }

  lemma FrontInv(c: Channel, p: Publication, periodNs: int)
    requires Inv(c, periodNs) && c.queue != [] && p.Plotted? && p.entry == c.queue[0]
    ensures Inv(Send(c.(queue := c.queue[1..], selected := Some(c.queue[0])), TokenOf(c.queue[0]), p), periodNs)
  {
    FrontUnsent(c, periodNs);
    PlotsMore(c.published, p);
    Fewer(Plots(c.published), c.queue, 0, periodNs);
    assert c.queue[0..] == c.queue;
    assert Plots(c.published) + [c.queue[0]] + c.queue[1..] == Plots(c.published) + c.queue;
  }

  lemma FallbackInv(c: Channel, key: int, periodNs: int)
    requires Inv(c, periodNs) && c.selected.None?
    ensures Inv(Send(c, Idle(key), Fallback(key)), periodNs)
  {
    PlotsMore(c.published, Fallback(key));
    assert Plots(c.published) + [] == Plots(c.published);
  }

  lemma PublishInv(c: Channel, t: Tick, periodNs: int)
    requires Inv(c, periodNs)
    ensures Inv(Publish(c, t), periodNs)
  {
    if t.hardwareOk && c.latest.Some? && Fresh(c.latest.value, t) {
      FreshInv(c, t, periodNs);
      var queue := FromFresh(c.queue, t);
      if queue != [] {
        FrontInv(c.(queue := queue), Plotted(queue[0], queue[0].sample.valid && queue[0].sample.finite, t.now, t.ros),
          periodNs);
      }
    } else {
      Cleared(c, periodNs);
      FallbackInv(c.(queue := [], selected := None), t.key, periodNs);
    }
  }

  // ----- any stream -----

  datatype Event = Arrives(sample: Sample, at: int) | Ticks(tick: Tick)

  function React(c: Channel, e: Event, periodNs: int): Channel {
    match e
    case Arrives(sample, at) => Take(c, sample, at, periodNs)
    case Ticks(tick) => Publish(c, tick)
  }

  function Run(events: seq<Event>, periodNs: int): Channel {
    if events == [] then EMPTY_CHANNEL
    else React(Run(events[..|events| - 1], periodNs), events[|events| - 1], periodNs)
  }

  lemma {:induction false} RunInv(events: seq<Event>, periodNs: int)
    requires periodNs >= 0
    ensures Inv(Run(events, periodNs), periodNs)
  {
    if events != [] {
      var before, e := Run(events[..|events| - 1], periodNs), events[|events| - 1];
      RunInv(events[..|events| - 1], periodNs);
      match e
      case Arrives(sample, at) => TakeInv(before, sample, at, periodNs);
      case Ticks(tick) => PublishInv(before, tick, periodNs);
    }
  }

  /** However late, doubled, reversed or malformed the stream, and however the clocks
      jump, the samples plotted go on strictly: each of a later trial than any
      before it, or of the same one with a larger sequence number and at least a
      period on in source time. */
  lemma PlotsFollow(events: seq<Event>, periodNs: int, i: nat, j: nat)
    requires periodNs >= 0 && i < j < |Plots(Run(events, periodNs).published)|
    ensures var plots := Plots(Run(events, periodNs).published);
            Follows(plots[i], plots[j], periodNs)
  {
    RunInv(events, periodNs);
    var c := Run(events, periodNs);
    var entries := Plots(c.published) + c.queue;
    assert Follows(entries[i], entries[j], periodNs);
  }

  /** What one tick adds: a sample fresh in both clocks, marked invalid unless it
      was valid and finite, or the idle fallback. */
  ghost predicate FreshAddition(t: Tick, p: Publication) {
    match p
    case Fallback(key) => key == t.key
    case Plotted(e, valid, now, ros) =>
      && now == t.now && ros == t.ros && t.hardwareOk
      && Fresh(e, t)
      && (valid <==> e.sample.valid && e.sample.finite)
  }

  /** A sample is plotted only while it is fresh: one left over from an earlier tick
      has been sent already and is not sent again. */
  lemma TickAddsFresh(events: seq<Event>, t: Tick, periodNs: int)
    requires periodNs >= 0
    ensures var before, after := Run(events, periodNs), Run(events + [Ticks(t)], periodNs);
            || after.published == before.published
            || (exists p :: after.published == before.published + [p] && FreshAddition(t, p))
  {
    assert (events + [Ticks(t)])[..|events|] == events;
    RunInv(events, periodNs);
    var c := Run(events, periodNs);
    if t.hardwareOk && c.latest.Some? && Fresh(c.latest.value, t) {
      FromFreshIs(c.queue, t);
      var c1 := Select(c, t);
      if c1.selected.Some? && Publish(c, t).published != c.published {
        var e := c1.selected.value;
        assert FreshAddition(t, Plotted(e, e.sample.valid && e.sample.finite, t.now, t.ros));
      }
    } else {
      assert FreshAddition(t, Fallback(t.key));
    }
  }

  /** And nothing fresh is held back: with the latest sample fresh, a tick plots the
      oldest fresh one of the queue. */
  lemma OldestFreshPlotted(events: seq<Event>, t: Tick, periodNs: int)
    requires periodNs >= 0 && t.hardwareOk
    requires Run(events, periodNs).latest.Some? && Fresh(Run(events, periodNs).latest.value, t)
    requires FromFresh(Run(events, periodNs).queue, t) != []
    ensures var before, after := Run(events, periodNs), Run(events + [Ticks(t)], periodNs);
            var queue := FromFresh(before.queue, t);
            && after.queue == queue[1..]
            && Plots(after.published) == Plots(before.published) + [queue[0]]
  {
    assert (events + [Ticks(t)])[..|events|] == events;
    var before := Run(events, periodNs);
    RunInv(events, periodNs);
    FreshInv(before, t, periodNs);
    FrontUnsent(before.(queue := FromFresh(before.queue, t)), periodNs);
    var e := FromFresh(before.queue, t)[0];
    PlotsMore(before.published, Plotted(e, e.sample.valid && e.sample.finite, t.now, t.ros));
  }
}
