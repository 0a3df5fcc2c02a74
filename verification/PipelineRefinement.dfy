/** The publisher's two threads down to the single loads and stores of the capture:
    each of their steps is an event of the pipeline or none, so what holds of every
    run of events holds of every interleaving.  Only the dropped count that a live
    batch shows can be behind. */
module PipelineRefinement {
  import opened ControlTypes
  import opened IntArithmetic
  import opened Options
  import opened CaptureRing
  import Capture
  import P = TelemetryPipeline
  import RingCapacity

  /** beginning: a begin has taken the gate and not started its trial yet; shown: the
      dropped count loaded for the batch in hand; decided: the last sample that was
      queued or dropped. */
  datatype Threads = Threads(
    ring: Ring,
    gate: bool,
    beginning: bool,
    drain: P.Drain,
    shown: Option<nat>,
    consumerTrial: nat,
    failures: nat,
    statusPending: bool,
    pendingStatus: P.Status,
    batches: seq<P.Batch>,
    thrown: seq<P.Batch>,
    statuses: seq<P.Status>)

  datatype Act =
    | TakeGate
    | Producer(a: Action)
    | Wake
    | OpenSlice
    | Consumer(a: Action)
    | CloseFull
    | LoadDrops
    | Publish(ok: bool)
    | Report(ok: bool)

  const IDLE := Threads(Empty(P.QUEUE_CAPACITY), true, false, P.Waiting, None, 0, 0, false, P.NO_STATUS, [], [], [])

  /** The act is the next one of its thread. */
  predicate Ready(m: Threads, act: Act) {
    match act
    case TakeGate => m.ring.producer == ProducerIdle && !m.beginning && m.gate
    case Producer(a) => ProducerAction(a) && Enabled(m.ring, a) && ProducerReady(m, a)
    case Wake => m.drain == P.Waiting
    case OpenSlice => m.drain.NextBatch?
    case Consumer(a) => !ProducerAction(a) && Enabled(m.ring, a) && ConsumerReady(m, a)
    case CloseFull => m.drain.Filling? && |m.drain.samples| == P.BATCH_SIZE && m.ring.consumer == ConsumerIdle
    case LoadDrops => m.drain.Publishing? && m.shown.None?
    case Publish(_) => m.drain.Publishing? && m.drain.samples != [] && m.shown.Some?
    case Report(_) => m.drain == P.Reporting
  }

  /** The producer's calls are serialized, and trial ids increase. */
  predicate ProducerReady(m: Threads, a: Action) {
    match a
    case BeginLoadPending(trial) => m.beginning && trial > m.ring.trial
    case AppendLoadWrite(_) => !m.beginning
    case FinishStoreTerminal(_) => !m.beginning
    case _ => true
  }

  predicate ConsumerReady(m: Threads, a: Action) {
    match a
    case PopLoadRead => m.drain.Filling? && |m.drain.samples| < P.BATCH_SIZE
    case CompletionLoadPending => m.drain == P.Completing
    case _ => true
  }

  function Closed(d: P.Drain): P.Drain
    requires d.Filling?
  {
    if d.samples == [] then P.Completing else P.Publishing(d.consumed + |d.samples|, d.samples)
  }

  /** What the timer does with what the consumer's step came to. */
  function Drained(m: Threads, a: Action, ring: Ring): Threads {
    var m1 := m.(ring := ring);
    match a
    case PopLoadWrite => if ring.consumer == ConsumerIdle && m.drain.Filling? then m1.(drain := Closed(m.drain)) else m1
    case PopStoreRead =>
      if m.drain.Filling? && m.ring.consumer.PopTaken?
      then m1.(drain := P.Filling(m.drain.consumed, m.drain.samples + [m.ring.consumer.out])) else m1
    case CompletionLoadPending => if ring.consumer == ConsumerIdle then m1.(drain := P.Reporting) else m1
    case CompletionLoadIndices => if ring.consumer == ConsumerIdle then m1.(drain := P.Reporting) else m1
    case CompletionStorePending =>
      if m.ring.consumer.CompletionTaken?
      then m1.(pendingStatus := P.StatusOf(m.ring.consumer.done, m.failures), statusPending := true,
               drain := P.Reporting) else m1
    case _ => m1
  }

  /** A begin that was refused gives the gate back; one that started is over. */
  function Called(m: Threads, a: Action, ring: Ring): Threads {
    var m1 := m.(ring := ring);
    match a
    case BeginLoadPending(_) => if ring.producer == ProducerIdle then m1.(gate := true, beginning := false) else m1
    case BeginStoreDrops => m1.(beginning := false)
    case _ => m1
  }

  function Published(m: Threads, samples: seq<CaptureRecord>, shown: nat, ok: bool): Threads
    requires samples != []
  {
    var failures := if m.consumerTrial != samples[0].trial then 0 else m.failures;
    var batch := P.Batch(samples, shown, failures);
    var m1 := m.(consumerTrial := samples[0].trial, shown := None);
    if ok then m1.(failures := failures, batches := m.batches + [batch])
    else m1.(failures := failures + |samples|, thrown := m.thrown + [batch])
  }

  function Next(m: Threads, act: Act): (m': Threads)
    requires |m.ring.slots| == P.QUEUE_CAPACITY
    ensures |m'.ring.slots| == P.QUEUE_CAPACITY
  {
    if !Ready(m, act) then m else
    match act
    case TakeGate => m.(gate := false, beginning := true)
    case Producer(a) => Called(m, a, Step(P.QUEUE_CAPACITY, m.ring, a))
    case Wake => m.(drain := P.NextBatch(0))
    case OpenSlice => m.(drain := P.Sliced(m.drain))
    case Consumer(a) => Drained(m, a, Step(P.QUEUE_CAPACITY, m.ring, a))
    case CloseFull => m.(drain := Closed(m.drain))
    case LoadDrops => m.(shown := Some(m.ring.publishedDrops))
    case Publish(ok) =>
      Published(m, m.drain.samples, m.shown.value, ok).(drain := P.NextBatch(m.drain.consumed))
    case Report(ok) =>
      if m.statusPending && ok then
        m.(statuses := m.statuses + [m.pendingStatus], statusPending := false, gate := true, drain := P.Waiting)
      else m.(drain := P.Waiting)
  }

  function Interleave(acts: seq<Act>): (m: Threads)
    ensures |m.ring.slots| == P.QUEUE_CAPACITY
  {
    if acts == [] then IDLE else Next(Interleave(acts[..|acts| - 1]), acts[|acts| - 1])
  }

  // ----- the events they stand for -----

  /** A sample has been numbered and neither queued nor dropped yet. */
  predicate Undecided(p: Producer) {
    p.AppendLoaded? || p.AppendRoom? || p.AppendWritten?
  }

  /** A drop decided on but not counted yet. */
  function Uncounted(p: Producer): nat {
    if p == AppendFull then 1 else 0
  }

  ghost predicate SameTrial(r: Ring, s: P.Pipe) {
    && s.trial == r.trial
    && s.running == (r.running || r.producer == FinishFilled)
    && s.drops == r.drops + Uncounted(r.producer)
    && s.terminalPending == r.terminalPending
    && (r.producer != FinishFilled ==> s.terminal == r.terminal)
    && (if Undecided(r.producer) then r.last == CaptureRecord(s.trial, s.last.sequence + 1, r.last.state)
        else s.last == r.last)
  }

  ghost predicate SameQueue(r: Ring, s: P.Pipe) {
    |r.popped| <= |r.accepted| && s.queue == r.accepted[|r.popped|..]
  }

  ghost predicate SameTimer(m: Threads, s: P.Pipe) {
    && s.drain == m.drain && s.consumerTrial == m.consumerTrial && s.failures == m.failures
    && s.statusPending == m.statusPending && s.pendingStatus == m.pendingStatus && s.statuses == m.statuses
    && s.ready == (m.gate || m.beginning) && !(m.gate && m.beginning)
    && P.Behind(m.batches, s.batches) && P.Behind(m.thrown, s.thrown)
  }

  predicate Popping(c: Consumer) {
    c.PopLoaded? || c.PopAvailable? || c.PopTaken?
  }

  predicate Ending(c: Consumer) {
    c.CompletionPending? || c.CompletionDrained? || c.CompletionTaken?
  }

  /** Where the threads can be in their own steps. */
  predicate ConsumerAt(c: Consumer, d: P.Drain) {
    && (Popping(c) ==> d.Filling? && |d.samples| < P.BATCH_SIZE)
    && (Ending(c) ==> d == P.Completing)
  }

  predicate ProducerAt(p: Producer, beginning: bool, trial: nat) {
    && (p.BeginAccepted? ==> beginning && p.trial > trial)
    && (beginning ==> p == ProducerIdle || p.BeginAccepted?)
  }

  predicate ShownAt(shown: Option<nat>, d: P.Drain, drops: nat) {
    shown.Some? ==> d.Publishing? && shown.value <= drops
  }

  ghost predicate InStep(m: Threads, s: P.Pipe) {
    && ConsumerAt(m.ring.consumer, m.drain)
    && ProducerAt(m.ring.producer, m.beginning, m.ring.trial)
    && ShownAt(m.shown, m.drain, s.drops)
  }

  ghost predicate Stands(m: Threads, s: P.Pipe) {
    && Inv(P.QUEUE_CAPACITY, m.ring) && P.Inv(s)
    && SameTrial(m.ring, s) && SameQueue(m.ring, s) && SameTimer(m, s) && InStep(m, s)
  }

  lemma IdleStands()
    ensures Stands(IDLE, P.IDLE_PIPE)
  {
    RingCapacity.PipelineCapacity();
    EmptyInv(P.QUEUE_CAPACITY);
    P.IdleInv();
  }

  /** The event that an act is, if it is one. */
  function EventOf(m: Threads, act: Act): Option<P.Event>
    requires |m.ring.slots| == P.QUEUE_CAPACITY
  {
    if !Ready(m, act) then None else
    match act
    case TakeGate => None
    case Producer(a) => ProducerEvent(m.ring, a, Step(P.QUEUE_CAPACITY, m.ring, a))
    case Wake => Some(P.Timer)
    case OpenSlice => Some(P.TakeSlice)
    case Consumer(a) => ConsumerEvent(m.ring, a, Step(P.QUEUE_CAPACITY, m.ring, a))
    case CloseFull => Some(P.PopOne)
    case LoadDrops => None
    case Publish(ok) => Some(P.PublishBatch(ok))
    case Report(ok) => Some(P.PublishStatus(ok))
  }

  function ProducerEvent(r: Ring, a: Action, r': Ring): Option<P.Event> {
    match a
    case BeginStoreDrops => Some(P.Begin(r'.trial))
    case AppendLoadRead => if r'.producer == AppendFull then Some(P.Sample(r.last.state)) else None
    case AppendStoreWrite => Some(P.Sample(r.last.state))
    case FinishStorePending => Some(P.Finish(r.terminal.completed))
    case _ => None
  }

  function ConsumerEvent(r: Ring, a: Action, r': Ring): Option<P.Event> {
    match a
    case PopLoadWrite => if r'.consumer == ConsumerIdle then Some(P.PopOne) else None
    case PopStoreRead => Some(P.PopOne)
    case CompletionLoadPending => if r'.consumer == ConsumerIdle then Some(P.TakeTerminal) else None
    case CompletionLoadIndices => if r'.consumer == ConsumerIdle then Some(P.TakeTerminal) else None
    case CompletionStorePending => Some(P.TakeTerminal)
    case _ => None
  }

  function Taken(s: P.Pipe, e: Option<P.Event>): P.Pipe {
    if e.None? then s else P.Next(s, e.value)
  }

  lemma RingKept(r: Ring, a: Action)
    requires Inv(P.QUEUE_CAPACITY, r)
    ensures Inv(P.QUEUE_CAPACITY, Step(P.QUEUE_CAPACITY, r, a))
  {
    RingCapacity.PipelineCapacity();
    Capture.StepKeepsInv(P.QUEUE_CAPACITY, r, a);
  }

  lemma PipeKept(s: P.Pipe, e: Option<P.Event>)
    requires P.Inv(s)
    ensures P.Inv(Taken(s, e))
  {
    if e.Some? {
      P.KeepsInv(s, e.value);
    }
  }

  /** What the ring's step does to what was accepted and popped. */
  lemma RingMoves(r: Ring, a: Action)
    requires Inv(P.QUEUE_CAPACITY, r) && Enabled(r, a)
    ensures |r.accepted| >= |r.popped| && RefinesLogs(P.QUEUE_CAPACITY, r, a, Step(P.QUEUE_CAPACITY, r, a))
  {
    RingCapacity.PipelineCapacity();
    StepRefinesLogs(P.QUEUE_CAPACITY, r, a);
  }

  // ----- the producer -----

  lemma SilentTrial(r: Ring, s: P.Pipe, a: Action)
    requires Inv(P.QUEUE_CAPACITY, r) && SameTrial(r, s) && ProducerAction(a) && Enabled(r, a)
    requires ProducerEvent(r, a, Step(P.QUEUE_CAPACITY, r, a)).None?
    ensures SameTrial(Step(P.QUEUE_CAPACITY, r, a), s)
  {
  }

  /** A trial that begins finds the gate open, so nothing of another is under way. */
  lemma BeginTrial(r: Ring, s: P.Pipe)
    requires Inv(P.QUEUE_CAPACITY, r) && SameTrial(r, s) && P.OneStage(s) && s.ready
    requires r.producer.BeginAccepted? && r.producer.trial > r.trial
    ensures SameTrial(Step(P.QUEUE_CAPACITY, r, BeginStoreDrops), P.Next(s, P.Begin(r.producer.trial)))
  {
  }

  lemma DecideTrial(r: Ring, s: P.Pipe, a: Action)
    requires Inv(P.QUEUE_CAPACITY, r) && SameTrial(r, s) && SameQueue(r, s) && Enabled(r, a)
    requires a == AppendStoreWrite || (a == AppendLoadRead && Step(P.QUEUE_CAPACITY, r, a).producer == AppendFull)
    ensures SameTrial(Step(P.QUEUE_CAPACITY, r, a), P.Next(s, P.Sample(r.last.state)))
  {
    RingMoves(r, a);
  }

  lemma FinishTrial(r: Ring, s: P.Pipe)
    requires Inv(P.QUEUE_CAPACITY, r) && SameTrial(r, s) && r.producer == FinishFilled
    ensures SameTrial(Step(P.QUEUE_CAPACITY, r, FinishStorePending), P.Next(s, P.Finish(r.terminal.completed)))
  {
  }

  lemma ProducerTrial(m: Threads, s: P.Pipe, a: Action)
    requires Stands(m, s) && Ready(m, Producer(a))
    ensures var r' := Step(P.QUEUE_CAPACITY, m.ring, a);
            SameTrial(r', Taken(s, ProducerEvent(m.ring, a, r')))
  {
    var e := ProducerEvent(m.ring, a, Step(P.QUEUE_CAPACITY, m.ring, a));
    if e.None? {
      SilentTrial(m.ring, s, a);
    } else {
      match a
      case BeginStoreDrops => BeginTrial(m.ring, s);
      case AppendLoadRead => DecideTrial(m.ring, s, a);
      case AppendStoreWrite => DecideTrial(m.ring, s, a);
      case FinishStorePending => FinishTrial(m.ring, s);
    }
  }

  lemma ProducerQueue(m: Threads, s: P.Pipe, a: Action)
    requires Stands(m, s) && Ready(m, Producer(a))
    ensures var r' := Step(P.QUEUE_CAPACITY, m.ring, a);
            SameQueue(r', Taken(s, ProducerEvent(m.ring, a, r')))
  {
    RingMoves(m.ring, a);
  }

  /** A producer's event leaves the timer alone. */
  lemma ProducerAlone(s: P.Pipe, e: P.Event)
    requires e.Begin? || e.Sample? || e.Finish?
    ensures var s' := P.Next(s, e);
            && s'.drain == s.drain && s'.consumerTrial == s.consumerTrial && s'.failures == s.failures
            && s'.statusPending == s.statusPending && s'.pendingStatus == s.pendingStatus
            && s'.statuses == s.statuses && s'.batches == s.batches && s'.thrown == s.thrown
            && (e.Begin? || (s'.ready == s.ready && s'.drops >= s.drops))
  {
  }

  lemma TimerKept(m: Threads, s: P.Pipe, m': Threads, s': P.Pipe)
    requires SameTimer(m, s)
    requires m' == m.(ring := m'.ring, gate := m'.gate, beginning := m'.beginning)
    requires s'.drain == s.drain && s'.consumerTrial == s.consumerTrial && s'.failures == s.failures
    requires s'.statusPending == s.statusPending && s'.pendingStatus == s.pendingStatus
    requires s'.statuses == s.statuses && s'.batches == s.batches && s'.thrown == s.thrown
    requires s'.ready == (m'.gate || m'.beginning) && !(m'.gate && m'.beginning)
    ensures SameTimer(m', s')
  {
  }

  /** Whether the gate is taken after a producer's step. */
  lemma GateStep(r: Ring, a: Action, gate: bool, beginning: bool, ready: bool, m: Threads)
    requires Inv(P.QUEUE_CAPACITY, r) && ProducerAction(a) && Enabled(r, a)
    requires m.ring == r && m.gate == gate && m.beginning == beginning && ProducerReady(m, a)
    requires ready == (gate || beginning) && !(gate && beginning) && ProducerAt(r.producer, beginning, r.trial)
    ensures var r' := Step(P.QUEUE_CAPACITY, r, a);
            var m' := Called(m, a, r');
            && m' == m.(ring := r', gate := m'.gate, beginning := m'.beginning)
            && (if a == BeginStoreDrops then !m'.gate && !m'.beginning else ready == (m'.gate || m'.beginning))
            && !(m'.gate && m'.beginning)
            && r'.consumer == r.consumer
            && ProducerAt(r'.producer, m'.beginning, r'.trial)
  {
  }

  lemma BeginTakesGate(r: Ring, s: P.Pipe)
    requires SameTrial(r, s) && P.OneStage(s) && s.ready
    requires r.producer.BeginAccepted? && r.producer.trial > r.trial
    ensures !P.Next(s, P.Begin(r.producer.trial)).ready
  {
  }

  lemma ProducerReadyKept(m: Threads, s: P.Pipe, a: Action, r': Ring)
    requires Stands(m, s) && Ready(m, Producer(a)) && r' == Step(P.QUEUE_CAPACITY, m.ring, a)
    ensures var s' := Taken(s, ProducerEvent(m.ring, a, r'));
            if a == BeginStoreDrops then !s'.ready else s'.ready == s.ready
  {
    var e := ProducerEvent(m.ring, a, r');
    if a == BeginStoreDrops {
      assert r'.trial == m.ring.producer.trial;
      BeginTakesGate(m.ring, s);
    } else if e.Some? {
      ProducerAlone(s, e.value);
    }
  }

  lemma ProducerTimer(m: Threads, s: P.Pipe, a: Action, r': Ring, m': Threads, e: Option<P.Event>)
    requires Stands(m, s) && Ready(m, Producer(a))
    requires r' == Step(P.QUEUE_CAPACITY, m.ring, a) && m' == Called(m, a, r') && e == ProducerEvent(m.ring, a, r')
    ensures SameTimer(m', Taken(s, e))
  {
    GateStep(m.ring, a, m.gate, m.beginning, s.ready, m);
    ProducerReadyKept(m, s, a, r');
    if e.Some? {
      ProducerAlone(s, e.value);
    }
    TimerKept(m, s, m', Taken(s, e));
  }

  /** While a trial can begin the timer has no batch in hand. */
  lemma NoneInHand(m: Threads, s: P.Pipe)
    requires Stands(m, s) && s.ready
    ensures m.shown.None?
  {
  }

  lemma ProducerInStep(m: Threads, s: P.Pipe, a: Action, r': Ring, m': Threads, e: Option<P.Event>)
    requires Stands(m, s) && Ready(m, Producer(a))
    requires r' == Step(P.QUEUE_CAPACITY, m.ring, a) && m' == Called(m, a, r') && e == ProducerEvent(m.ring, a, r')
    ensures InStep(m', Taken(s, e))
  {
    GateStep(m.ring, a, m.gate, m.beginning, s.ready, m);
    if a == BeginStoreDrops {
      NoneInHand(m, s);
    } else if e.Some? {
      ProducerAlone(s, e.value);
    }
  }

  // ----- the consumer -----

  /** The step as the queue sees it. */
  lemma ConsumerSees(r: Ring, s: P.Pipe, a: Action, r': Ring)
    requires Inv(P.QUEUE_CAPACITY, r) && SameQueue(r, s) && !ProducerAction(a) && Enabled(r, a)
    requires r' == Step(P.QUEUE_CAPACITY, r, a)
    ensures |r'.popped| <= |r'.accepted|
    ensures a != PopStoreRead ==> r'.accepted[|r'.popped|..] == s.queue
    ensures a == PopStoreRead ==>
              s.queue != [] && s.queue[0] == r.consumer.out && r'.accepted[|r'.popped|..] == s.queue[1..]
    ensures a == PopLoadWrite && r'.consumer == ConsumerIdle ==> s.queue == []
    ensures a == CompletionLoadIndices && r'.consumer == ConsumerIdle ==> s.queue != []
    ensures a == CompletionStorePending ==> s.queue == []
  {
    RingMoves(r, a);
  }

  /** What each of the consumer's answers rests on. */
  lemma Answered(m: Threads, s: P.Pipe, a: Action, r': Ring, e: Option<P.Event>)
    requires Stands(m, s) && Ready(m, Consumer(a))
    requires r' == Step(P.QUEUE_CAPACITY, m.ring, a) && e == ConsumerEvent(m.ring, a, r')
    ensures e.Some? ==> e.value == P.PopOne || e.value == P.TakeTerminal
    ensures e == Some(P.TakeTerminal) ==> s.drain == P.Completing
    ensures e == Some(P.PopOne) ==> s.drain.Filling? && |s.drain.samples| < P.BATCH_SIZE
    ensures a == CompletionLoadPending && e.Some? ==> !s.terminalPending
    ensures a == CompletionStorePending ==> s.terminalPending && m.ring.consumer.done == s.terminal
  {
  }

  lemma ConsumerQueue(m: Threads, s: P.Pipe, a: Action, r': Ring, e: Option<P.Event>)
    requires Stands(m, s) && Ready(m, Consumer(a))
    requires r' == Step(P.QUEUE_CAPACITY, m.ring, a) && e == ConsumerEvent(m.ring, a, r')
    ensures SameQueue(r', Taken(s, e))
  {
    ConsumerSees(m.ring, s, a, r');
    Answered(m, s, a, r', e);
    if e.Some? {
      QueueAfter(s, e.value);
    }
  }

  lemma QueueAfter(s: P.Pipe, e: P.Event)
    requires (e == P.PopOne && s.drain.Filling? && |s.drain.samples| < P.BATCH_SIZE) || e == P.TakeTerminal
    ensures P.Next(s, e).queue == if e == P.PopOne && s.queue != [] then s.queue[1..] else s.queue
  {
  }

  lemma ConsumerRing(r: Ring, a: Action)
    requires Inv(P.QUEUE_CAPACITY, r) && !ProducerAction(a) && Enabled(r, a)
    ensures var r' := Step(P.QUEUE_CAPACITY, r, a);
            && r'.producer == r.producer && r'.trial == r.trial && r'.running == r.running && r'.drops == r.drops
            && r'.last == r.last && r'.terminal == r.terminal
            && r'.terminalPending == (r.terminalPending && a != CompletionStorePending)
  {
  }

  lemma ConsumerPipe(s: P.Pipe, e: P.Event)
    requires e == P.PopOne || e == P.TakeTerminal
    ensures var s' := P.Next(s, e);
            && s'.trial == s.trial && s'.running == s.running && s'.drops == s.drops && s'.last == s.last
            && s'.terminal == s.terminal && s'.ready == s.ready && s'.consumerTrial == s.consumerTrial
            && s'.failures == s.failures && s'.statuses == s.statuses && s'.batches == s.batches
            && s'.thrown == s.thrown
            && (e == P.PopOne ==>
                  && s'.terminalPending == s.terminalPending && s'.statusPending == s.statusPending
                  && s'.pendingStatus == s.pendingStatus && s'.drain == P.Popped(s.drain, s.queue))
  {
  }

  lemma TakeTerminalIs(s: P.Pipe)
    requires s.drain == P.Completing
    ensures var s', takes := P.Next(s, P.TakeTerminal), s.terminalPending && s.queue == [];
            && s'.drain == P.Reporting
            && s'.terminalPending == (s.terminalPending && !takes)
            && s'.statusPending == (s.statusPending || takes)
            && s'.pendingStatus == (if takes then P.StatusOf(s.terminal, s.failures) else s.pendingStatus)
  {
  }

  lemma ConsumerTrial(m: Threads, s: P.Pipe, a: Action, r': Ring, e: Option<P.Event>)
    requires Stands(m, s) && Ready(m, Consumer(a))
    requires r' == Step(P.QUEUE_CAPACITY, m.ring, a) && e == ConsumerEvent(m.ring, a, r')
    ensures SameTrial(r', Taken(s, e))
  {
    ConsumerRing(m.ring, a);
    Answered(m, s, a, r', e);
    ConsumerSees(m.ring, s, a, r');
    if e.Some? {
      ConsumerPipe(s, e.value);
      if e.value == P.TakeTerminal {
        TakeTerminalIs(s);
      }
    }
  }

  /** The timer draws the same conclusion. */
  lemma ConsumerDrained(m: Threads, s: P.Pipe, a: Action, r': Ring, m': Threads, e: Option<P.Event>)
    requires Stands(m, s) && Ready(m, Consumer(a))
    requires r' == Step(P.QUEUE_CAPACITY, m.ring, a) && e == ConsumerEvent(m.ring, a, r') && m' == Drained(m, a, r')
    ensures var s' := Taken(s, e);
            && s'.drain == m'.drain && s'.statusPending == m'.statusPending && s'.pendingStatus == m'.pendingStatus
            && m' == m.(ring := r', drain := m'.drain, statusPending := m'.statusPending,
                        pendingStatus := m'.pendingStatus)
  {
    Answered(m, s, a, r', e);
    ConsumerSees(m.ring, s, a, r');
    if e.Some? {
      ConsumerPipe(s, e.value);
      if e.value == P.TakeTerminal {
        TakeTerminalIs(s);
      }
    }
  }

  lemma ConsumerTimer(m: Threads, s: P.Pipe, a: Action, r': Ring, m': Threads, e: Option<P.Event>)
    requires Stands(m, s) && Ready(m, Consumer(a))
    requires r' == Step(P.QUEUE_CAPACITY, m.ring, a) && e == ConsumerEvent(m.ring, a, r') && m' == Drained(m, a, r')
    ensures SameTimer(m', Taken(s, e))
  {
    ConsumerDrained(m, s, a, r', m', e);
    Answered(m, s, a, r', e);
    if e.Some? {
      ConsumerPipe(s, e.value);
    }
  }

  lemma ConsumerInStep(m: Threads, s: P.Pipe, a: Action, r': Ring, m': Threads, e: Option<P.Event>)
    requires Stands(m, s) && Ready(m, Consumer(a))
    requires r' == Step(P.QUEUE_CAPACITY, m.ring, a) && e == ConsumerEvent(m.ring, a, r') && m' == Drained(m, a, r')
    ensures InStep(m', Taken(s, e))
  {
    ConsumerRing(m.ring, a);
    ConsumerDrained(m, s, a, r', m', e);
    Answered(m, s, a, r', e);
    if e.Some? {
      ConsumerPipe(s, e.value);
    }
    ConsumerStays(m, a, r', m');
  }

  lemma ConsumerStays(m: Threads, a: Action, r': Ring, m': Threads)
    requires |m.ring.slots| == P.QUEUE_CAPACITY && Ready(m, Consumer(a)) && ConsumerAt(m.ring.consumer, m.drain)
    requires r' == Step(P.QUEUE_CAPACITY, m.ring, a) && m' == Drained(m, a, r')
    ensures ConsumerAt(m'.ring.consumer, m'.drain) && m'.shown == m.shown && m'.beginning == m.beginning
    ensures m.drain.Publishing? ==> m'.drain == m.drain
  {
    ConsumerMoves(m.ring, a, r');
  }

  lemma ConsumerMoves(r: Ring, a: Action, r': Ring)
    requires |r.slots| == P.QUEUE_CAPACITY && !ProducerAction(a) && Enabled(r, a)
    requires r' == Step(P.QUEUE_CAPACITY, r, a)
    ensures match a
            case PopLoadRead => r'.consumer.PopLoaded?
            case PopLoadWrite => r.consumer.PopLoaded? && (r'.consumer == ConsumerIdle || r'.consumer.PopAvailable?)
            case PopLoadSlot => r.consumer.PopAvailable? && r'.consumer.PopTaken?
            case PopStoreRead => r.consumer.PopTaken? && r'.consumer == ConsumerIdle
            case CompletionLoadPending => r'.consumer == ConsumerIdle || r'.consumer == CompletionPending
            case CompletionLoadIndices =>
              r.consumer == CompletionPending && (r'.consumer == ConsumerIdle || r'.consumer == CompletionDrained)
            case CompletionLoadTerminal => r.consumer == CompletionDrained && r'.consumer.CompletionTaken?
            case CompletionStorePending => r.consumer.CompletionTaken? && r'.consumer == ConsumerIdle
            case _ => true
  {
  }

  // ----- the timer -----

  /** The drain moved on in both. */
  lemma BothDrain(m: Threads, s: P.Pipe, d: P.Drain)
    requires Stands(m, s) && m.shown.None? && ConsumerAt(m.ring.consumer, d)
    ensures Alike(m.(drain := d), s.(drain := d))
  {
  }

  ghost predicate Alike(m: Threads, s: P.Pipe) {
    SameTrial(m.ring, s) && SameQueue(m.ring, s) && SameTimer(m, s) && InStep(m, s)
  }

  lemma WakeAlike(m: Threads, s: P.Pipe)
    requires Stands(m, s) && Ready(m, Wake)
    ensures Alike(Next(m, Wake), P.Next(s, P.Timer))
  {
    BothDrain(m, s, P.NextBatch(0));
  }

  lemma OpenAlike(m: Threads, s: P.Pipe)
    requires Stands(m, s) && Ready(m, OpenSlice)
    ensures Alike(Next(m, OpenSlice), P.Next(s, P.TakeSlice))
  {
    BothDrain(m, s, P.Sliced(m.drain));
  }

  lemma CloseAlike(m: Threads, s: P.Pipe)
    requires Stands(m, s) && Ready(m, CloseFull)
    ensures Alike(Next(m, CloseFull), P.Next(s, P.PopOne))
  {
    BothDrain(m, s, Closed(m.drain));
    assert P.Next(s, P.PopOne) == s.(drain := Closed(m.drain));
  }

  lemma LoadAlike(m: Threads, s: P.Pipe)
    requires Stands(m, s) && Ready(m, LoadDrops)
    ensures Alike(Next(m, LoadDrops), s)
  {
  }

  /** A batch is the pipeline's, with a dropped count that may be behind. */
  lemma PublishAlike(m: Threads, s: P.Pipe, ok: bool)
    requires Stands(m, s) && Ready(m, Publish(ok))
    ensures SameTimer(Next(m, Publish(ok)), P.Next(s, P.PublishBatch(ok)))
  {
  }

  lemma PublishAside(m: Threads, s: P.Pipe, ok: bool)
    requires Stands(m, s) && Ready(m, Publish(ok))
    ensures var m', s' := Next(m, Publish(ok)), P.Next(s, P.PublishBatch(ok));
            SameTrial(m'.ring, s') && SameQueue(m'.ring, s') && InStep(m', s')
  {
  }

  lemma ReportAlike(m: Threads, s: P.Pipe, ok: bool)
    requires Stands(m, s) && Ready(m, Report(ok))
    ensures Alike(Next(m, Report(ok)), P.Next(s, P.PublishStatus(ok)))
  {
  }

  // ----- every interleaving -----

  lemma ProducerCalls(m: Threads, s: P.Pipe, a: Action, r': Ring, m': Threads, e: Option<P.Event>)
    requires Stands(m, s) && Ready(m, Producer(a))
    requires r' == Step(P.QUEUE_CAPACITY, m.ring, a) && m' == Called(m, a, r') && e == ProducerEvent(m.ring, a, r')
    ensures m'.ring == r' && Stands(m', Taken(s, e))
  {
    RingKept(m.ring, a);
    PipeKept(s, e);
    ProducerTrial(m, s, a);
    ProducerQueue(m, s, a);
    ProducerTimer(m, s, a, r', m', e);
    ProducerInStep(m, s, a, r', m', e);
  }

  lemma ConsumerCalls(m: Threads, s: P.Pipe, a: Action, r': Ring, m': Threads, e: Option<P.Event>)
    requires Stands(m, s) && Ready(m, Consumer(a))
    requires r' == Step(P.QUEUE_CAPACITY, m.ring, a) && e == ConsumerEvent(m.ring, a, r') && m' == Drained(m, a, r')
    ensures m'.ring == r' && Stands(m', Taken(s, e))
  {
    RingKept(m.ring, a);
    PipeKept(s, e);
    ConsumerTrial(m, s, a, r', e);
    ConsumerQueue(m, s, a, r', e);
    ConsumerTimer(m, s, a, r', m', e);
    ConsumerInStep(m, s, a, r', m', e);
  }

  lemma CallStands(m: Threads, s: P.Pipe, act: Act)
    requires Stands(m, s) && Ready(m, act) && (act.Producer? || act.Consumer?)
    ensures Stands(Next(m, act), Taken(s, EventOf(m, act)))
  {
    var r' := Step(P.QUEUE_CAPACITY, m.ring, act.a);
    if act.Producer? {
      ProducerCalls(m, s, act.a, r', Called(m, act.a, r'), ProducerEvent(m.ring, act.a, r'));
    } else {
      ConsumerCalls(m, s, act.a, r', Drained(m, act.a, r'), ConsumerEvent(m.ring, act.a, r'));
    }
  }

  lemma TimerStands(m: Threads, s: P.Pipe, act: Act)
    requires Stands(m, s) && Ready(m, act) && !act.TakeGate? && !act.Producer? && !act.Consumer?
    ensures Stands(Next(m, act), Taken(s, EventOf(m, act)))
  {
    PipeKept(s, EventOf(m, act));
    match act
    case Wake => WakeAlike(m, s);
    case OpenSlice => OpenAlike(m, s);
    case CloseFull => CloseAlike(m, s);
    case LoadDrops => LoadAlike(m, s);
    case Publish(ok) => PublishAlike(m, s, ok); PublishAside(m, s, ok);
    case Report(ok) => ReportAlike(m, s, ok);
  }

  lemma GateStands(m: Threads, s: P.Pipe)
    requires Stands(m, s) && Ready(m, TakeGate)
    ensures Stands(Next(m, TakeGate), s)
  {
  }

  /** Every act of either thread is the event it stands for, or none. */
  lemma ActStands(m: Threads, s: P.Pipe, act: Act)
    requires Stands(m, s)
    ensures Stands(Next(m, act), Taken(s, EventOf(m, act)))
  {
    if Ready(m, act) {
      match act
      case TakeGate => GateStands(m, s);
      case Producer(_) => CallStands(m, s, act);
      case Consumer(_) => CallStands(m, s, act);
      case _ => TimerStands(m, s, act);
    }
  }

  /** Simulation: for every interleaving of the threads' single loads, stores, pops and
      publications there is a run of the pipeline with the same queue, trial, timer and
      statuses, and the same batches but for dropped counts that may be behind. */
  lemma {:induction false} InterleavingIsRun(acts: seq<Act>) returns (events: seq<P.Event>)
    ensures |events| <= |acts| && Stands(Interleave(acts), P.Run(events))
  {
    if acts == [] {
      events := [];
      IdleStands();
    } else {
      var front, act := acts[..|acts| - 1], acts[|acts| - 1];
      var before := InterleavingIsRun(front);
      var e := EventOf(Interleave(front), act);
      ActStands(Interleave(front), P.Run(before), act);
      events := before + if e.Some? then [e.value] else [];
      RunTaken(before, e);
    }
  }

  lemma {:induction false} RunTaken(events: seq<P.Event>, e: Option<P.Event>)
    ensures P.Run(events + if e.Some? then [e.value] else []) == Taken(P.Run(events), e)
  {
    if e.Some? {
      P.RunStep(events, e.value);
    } else {
      assert events + [] == events;
    }
  }

  // ----- what that means for the threads -----

  /** Under every interleaving a published status accounts for the samples of its
      trial: delivered, failed and dropped make the final number, and it is called
      complete exactly when all of them were delivered, which are then numbered from
      one to the final number. */
  lemma {:induction false} StatusOfThreads(acts: seq<Act>, st: P.Status)
    requires st in Interleave(acts).statuses && st.finalSequence > 0
    ensures var good := P.Delivered(Interleave(acts).batches, st.trial);
            && |good| + st.failed + st.dropped == st.finalSequence
            && (st.captureComplete <==> |good| == st.finalSequence)
            && (st.captureComplete ==> P.IsLog(good, st.trial))
  {
    var events := InterleavingIsRun(acts);
    var s := P.Run(events);
    P.StatusAccounts(events, st);
    P.RunInv(events);
    P.DeliveredAlike(Interleave(acts).batches, s.batches, st.trial);
  }

  /** A begin that has taken the gate is never refused. */
  lemma {:induction false} BeginSucceeds(acts: seq<Act>, trial: nat)
    requires Ready(Interleave(acts), Producer(BeginLoadPending(trial)))
    ensures Next(Interleave(acts), Producer(BeginLoadPending(trial))).ring.producer == BeginAccepted(trial)
  {
    var events := InterleavingIsRun(acts);
    assert P.OneStage(P.Run(events));
  }
}
