/** The telemetry pipeline of one controller: the producer's begin/sample/finish
    on one side, the draining timer on the other, interleaved at every queue
    operation and every publication. */
module TelemetryPipeline {
  import opened ControlTypes
  import opened CaptureRing

  const QUEUE_CAPACITY: nat := 8192
  const BATCH_SIZE: nat := 256

  datatype Batch = Batch(samples: seq<CaptureRecord>, dropped: nat, failed: nat)

  datatype Status = Status(
    trial: nat,
    finalSequence: nat,
    dropped: nat,
    failed: nat,
    phase: Phase,
    fault: Fault,
    completed: bool,
    successful: bool,
    captureComplete: bool)

  const NO_STATUS := Status(0, 0, 0, 0, Idle, NoFault, false, false, false)

  /** Where the timer callback is. */
  datatype Drain =
    | Waiting
    | NextBatch(consumed: nat)
    | Filling(consumed: nat, samples: seq<CaptureRecord>)
    | Publishing(consumed: nat, samples: seq<CaptureRecord>)
    | Completing
    | Reporting

  /** queue to terminal are the capture, whose operations are atomic on the queue;
      ready is the gate; consumerTrial to pendingStatus belong to the timer.
      begun, samples, batches, thrown and statuses record the trials, every
      sample appended to each, and what was published or failed to be. */
  datatype Pipe = Pipe(
    queue: seq<CaptureRecord>,
    running: bool,
    trial: nat,
    drops: nat,
    last: CaptureRecord,
    terminalPending: bool,
    terminal: Completion,
    ready: bool,
    drain: Drain,
    consumerTrial: nat,
    failures: nat,
    statusPending: bool,
    pendingStatus: Status,
    begun: seq<nat>,
    samples: map<nat, seq<CaptureRecord>>,
    batches: seq<Batch>,
    thrown: seq<Batch>,
    statuses: seq<Status>)

  const IDLE_PIPE :=
    Pipe([], false, 0, 0, NO_RECORD, false, NO_COMPLETION, true, Waiting, 0, 0, false, NO_STATUS, [], map[], [], [], [])

  datatype Event =
    | Begin(trial: nat)
    | Sample(state: Snapshot)
    | Finish(completed: bool)
    | Timer
    | TakeSlice
    | PopOne
    | PublishBatch(ok: bool)
    | TakeTerminal
    | PublishStatus(ok: bool)

  /** A trial starts only through the gate. */
  function StartTrial(s: Pipe, id: nat): Pipe {
    if id == 0 || !s.ready || s.running || s.terminalPending then s
    else s.(ready := false, running := true, trial := id, drops := 0,
            last := CaptureRecord(id, 0, EMPTY_SNAPSHOT), begun := s.begun + [id], samples := s.samples[id := []])
  }

  /** The controllers only begin a trial with an id above the last one. */
  function BeginTrial(s: Pipe, id: nat): Pipe {
    if id <= s.trial then s else StartTrial(s, id)
  }

  function LogOf(s: Pipe): seq<CaptureRecord> {
    if s.trial in s.samples then s.samples[s.trial] else []
  }

  function SampleTrial(s: Pipe, state: Snapshot): Pipe {
    if !s.running then s else
    var r := CaptureRecord(s.trial, s.last.sequence + 1, state);
    var logged := s.(last := r, samples := s.samples[s.trial := LogOf(s) + [r]]);
    if |s.queue| >= QUEUE_CAPACITY then logged.(drops := s.drops + 1)
    else logged.(queue := s.queue + [r])
  }

  function FinishTrial(s: Pipe, completed: bool): Pipe {
    if !s.running then s
    else s.(terminal := Completion(s.last, s.drops, completed), running := false, terminalPending := true)
  }

  function PublishedBatch(s: Pipe, samples: seq<CaptureRecord>, ok: bool): Pipe
    requires samples != []
  {
    var newTrial := s.consumerTrial != samples[0].trial;
    var failures := if newTrial then 0 else s.failures;
    var batch := Batch(samples, s.drops, failures);
    var s1 := s.(consumerTrial := samples[0].trial);
    if ok then s1.(failures := failures, batches := s.batches + [batch])
    else s1.(failures := failures + |samples|, thrown := s.thrown + [batch])
  }

  function Sliced(d: Drain): Drain {
    if !d.NextBatch? then d
    else if d.consumed < QUEUE_CAPACITY then Filling(d.consumed, [])
    else Completing
  }

  function Popped(d: Drain, queue: seq<CaptureRecord>): Drain {
    if !d.Filling? then d
    else if |d.samples| < BATCH_SIZE && queue != [] then Filling(d.consumed, d.samples + [queue[0]])
    else if d.samples == [] then Completing
    else Publishing(d.consumed + |d.samples|, d.samples)
  }

  function Rest(d: Drain, queue: seq<CaptureRecord>): seq<CaptureRecord> {
    if d.Filling? && |d.samples| < BATCH_SIZE && queue != [] then queue[1..] else queue
  }

  function StatusOf(done: Completion, failures: nat): Status {
    Status(done.final.trial, done.final.sequence, done.dropped, failures,
           done.final.state.phase, done.final.state.fault,
           done.completed, done.completed && done.final.state.valid, done.dropped == 0 && failures == 0)
  }

  function Next(s: Pipe, e: Event): Pipe {
    match e
    case Begin(id) => BeginTrial(s, id)
    case Sample(state) => SampleTrial(s, state)
    case Finish(completed) => FinishTrial(s, completed)
    case Timer =>
      if s.drain == Waiting then s.(drain := NextBatch(0)) else s
    case TakeSlice => s.(drain := Sliced(s.drain))
    case PopOne => s.(drain := Popped(s.drain, s.queue), queue := Rest(s.drain, s.queue))
    case PublishBatch(ok) =>
      if !s.drain.Publishing? || s.drain.samples == [] then s
      else PublishedBatch(s, s.drain.samples, ok).(drain := NextBatch(s.drain.consumed))
    case TakeTerminal =>
      if s.drain != Completing then s
      else if s.terminalPending && s.queue == [] then
        s.(terminalPending := false, pendingStatus := StatusOf(s.terminal, s.failures), statusPending := true,
           drain := Reporting)
      else s.(drain := Reporting)
    case PublishStatus(ok) =>
      if s.drain != Reporting then s
      else if s.statusPending && ok then
        s.(statuses := s.statuses + [s.pendingStatus], statusPending := false, ready := true, drain := Waiting)
      else s.(drain := Waiting)
  }

  // ----- the invariant -----

  type Logbook = map<nat, seq<CaptureRecord>>

  function Held(d: Drain): seq<CaptureRecord> {
    if d.Filling? || d.Publishing? then d.samples else []
  }

  function InHand(s: Pipe): seq<CaptureRecord> {
    Held(s.drain)
  }

  /** The samples of a trial in the batches that were published, in order. */
  ghost function Delivered(batches: seq<Batch>, trial: nat): seq<CaptureRecord> {
    if batches == [] then [] else
    var b := batches[|batches| - 1];
    Delivered(batches[..|batches| - 1], trial) +
    (if b.samples != [] && b.samples[0].trial == trial then b.samples else [])
  }

  /** Exactly one of: the gate is open, a trial runs, its terminal waits to be
      taken, its status waits to be published. */
  ghost predicate OneStage(s: Pipe) {
    && (s.ready ==> !s.running && !s.terminalPending && !s.statusPending)
    && (s.running ==> !s.terminalPending && !s.statusPending)
    && (s.terminalPending ==> !s.statusPending)
    && (s.ready || s.running || s.terminalPending || s.statusPending)
  }

  /** Numbered from one without a gap. */
  ghost predicate IsLog(log: seq<CaptureRecord>, trial: nat) {
    forall i :: 0 <= i < |log| ==> log[i].trial == trial && log[i].sequence == i + 1
  }

  /** The trials begun, in increasing order up to the current one. */
  ghost predicate Ascending(begun: seq<nat>, trial: nat) {
    && (forall i, j :: 0 <= i < j < |begun| ==> begun[i] < begun[j])
    && (forall i :: 0 <= i < |begun| ==> 0 < begun[i] <= trial)
    && if begun == [] then trial == 0 else begun[|begun| - 1] == trial
  }

  ghost predicate Written(samples: Logbook, begun: seq<nat>) {
    && (forall t :: t in samples <==> t in begun)
    && (forall t :: t in samples ==> IsLog(samples[t], t))
  }

  ghost predicate Logs(samples: Logbook, begun: seq<nat>, trial: nat, last: CaptureRecord) {
    && Ascending(begun, trial)
    && Written(samples, begun)
    && (begun != [] ==> last.trial == trial && last.sequence == |samples[trial]|)
  }

  ghost predicate Genuine(samples: Logbook, m: CaptureRecord) {
    m.trial in samples && 1 <= m.sequence <= |samples[m.trial]| && samples[m.trial][m.sequence - 1] == m
  }

  ghost predicate AllOf(samples: Logbook, records: seq<CaptureRecord>, trial: nat) {
    forall i :: 0 <= i < |records| ==> Genuine(samples, records[i]) && records[i].trial == trial
  }

  ghost predicate OneTrial(samples: Logbook, b: Batch) {
    b.samples != [] && AllOf(samples, b.samples, b.samples[0].trial)
  }

  /** Every record on its way belongs to the current trial, which is still
      running or waiting for its terminal to be taken. */
  ghost predicate InFlight(s: Pipe) {
    && (s.queue != [] || InHand(s) != [] ==> s.running || s.terminalPending)
    && AllOf(s.samples, s.queue, s.trial)
    && AllOf(s.samples, InHand(s), s.trial)
    && (s.drain.Publishing? ==> s.drain.samples != [])
  }

  ghost predicate Published(samples: Logbook, batches: seq<Batch>, consumerTrial: nat) {
    forall b :: b in batches ==> OneTrial(samples, b) && b.samples[0].trial <= consumerTrial
  }

  /** Failures counted against the current trial. */
  ghost function Failed(s: Pipe): nat {
    if s.consumerTrial == s.trial then s.failures else 0
  }

  /** Every sample of the trial is delivered, lost to a failed publication, on
      its way or dropped; and if none was lost or dropped then the delivered
      ones and those on their way are the log itself. */
  ghost predicate Conserves(log: seq<CaptureRecord>, good: seq<CaptureRecord>, way: seq<CaptureRecord>,
      failed: nat, drops: nat)
  {
    && |good| + failed + |way| + drops == |log|
    && (drops == 0 && failed == 0 ==> good + way == log)
    && (log != [] ==> drops < |log|)
  }

  ghost predicate Conserved(s: Pipe) {
    s.trial in s.samples ==>
      Conserves(s.samples[s.trial], Delivered(s.batches, s.trial), InHand(s) + s.queue, Failed(s), s.drops)
  }

  /** What a status says is so: the trial's last sequence number, and, for a trial
      with a sample, how many were lost and whether every one was delivered. */
  ghost predicate StatusIs(samples: Logbook, batches: seq<Batch>, st: Status) {
    && st.trial in samples
    && st.finalSequence == |samples[st.trial]|
    && st.captureComplete == (st.dropped == 0 && st.failed == 0)
    && (samples[st.trial] != [] ==>
          && |Delivered(batches, st.trial)| + st.failed + st.dropped == st.finalSequence
          && (st.captureComplete <==> Delivered(batches, st.trial) == samples[st.trial]))
  }

  /** One status for each trial begun, in order, but for the current one while it
      is under way. */
  ghost predicate Reported(samples: Logbook, batches: seq<Batch>, begun: seq<nat>, statuses: seq<Status>, ready: bool) {
    && |statuses| == |begun| - (if ready then 0 else 1)
    && forall i :: 0 <= i < |statuses| ==> statuses[i].trial == begun[i] && StatusIs(samples, batches, statuses[i])
  }

  ghost predicate Ending(s: Pipe) {
    && (s.terminalPending ==> s.terminal.final == s.last && s.terminal.dropped == s.drops)
    && (s.statusPending ==> s.pendingStatus.trial == s.trial && StatusIs(s.samples, s.batches, s.pendingStatus))
  }

  ghost predicate Report(s: Pipe) {
    Reported(s.samples, s.batches, s.begun, s.statuses, s.ready) && Ending(s)
  }

  ghost predicate Inv(s: Pipe) {
    && OneStage(s)
    && Logs(s.samples, s.begun, s.trial, s.last)
    && InFlight(s)
    && s.consumerTrial <= s.trial
    && Published(s.samples, s.batches, s.consumerTrial)
    && Published(s.samples, s.thrown, s.consumerTrial)
    && Conserved(s)
    && Report(s)
  }

  lemma IdleInv()
    ensures Inv(IDLE_PIPE)
  {
  }

  // ----- every event keeps it -----

  /** Logs only grow. */
  ghost predicate Extends(samples: Logbook, samples': Logbook) {
    forall t :: t in samples ==> t in samples' && samples[t] <= samples'[t]
  }

  /** What was genuine stays so. */
  lemma KeepsGenuine(samples: Logbook, samples': Logbook)
    requires Extends(samples, samples')
    ensures forall r, t :: AllOf(samples, r, t) ==> AllOf(samples', r, t)
    ensures forall b, c :: Published(samples, b, c) ==> Published(samples', b, c)
  {
  }

  /** No batch holds a trial that has not been consumed. */
  lemma {:induction false} NothingDelivered(samples: Logbook, batches: seq<Batch>, consumerTrial: nat, trial: nat)
    requires trial > consumerTrial && Published(samples, batches, consumerTrial)
    ensures Delivered(batches, trial) == []
  {
    if batches != [] {
      NothingDelivered(samples, batches[..|batches| - 1], consumerTrial, trial);
    }
  }

  lemma WrittenMore(samples: Logbook, begun: seq<nat>, trial: nat, r: CaptureRecord)
    requires Written(samples, begun) && trial in samples
    requires r.trial == trial && r.sequence == |samples[trial]| + 1
    ensures Written(samples[trial := samples[trial] + [r]], begun)
    ensures Extends(samples, samples[trial := samples[trial] + [r]])
    ensures Genuine(samples[trial := samples[trial] + [r]], r)
  {
  }

  lemma ConservesMore(log: seq<CaptureRecord>, good: seq<CaptureRecord>, way: seq<CaptureRecord>,
      failed: nat, drops: nat, r: CaptureRecord)
    requires Conserves(log, good, way, failed, drops)
    ensures Conserves(log + [r], good, way + [r], failed, drops)
    ensures way != [] ==> Conserves(log + [r], good, way, failed, drops + 1)
  {
  }

  lemma SampleKeepsInv(s: Pipe, state: Snapshot)
    requires Inv(s)
    ensures Inv(SampleTrial(s, state))
  {
    if s.running {
      SampleLogs(s, state);
      SampleInFlight(s, state);
      SamplePublished(s, state);
      SampleConserved(s, state);
      SampleReported(s, state);
    }
  }

  lemma SampleLogs(s: Pipe, state: Snapshot)
    requires Inv(s)
    ensures var s' := SampleTrial(s, state);
            OneStage(s') && Logs(s'.samples, s'.begun, s'.trial, s'.last)
  {
    if s.running {
      WrittenMore(s.samples, s.begun, s.trial, CaptureRecord(s.trial, s.last.sequence + 1, state));
    }
  }

  lemma SampleInFlight(s: Pipe, state: Snapshot)
    requires Inv(s)
    ensures InFlight(SampleTrial(s, state))
  {
    if s.running {
      WrittenMore(s.samples, s.begun, s.trial, CaptureRecord(s.trial, s.last.sequence + 1, state));
      KeepsGenuine(s.samples, SampleTrial(s, state).samples);
    }
  }

  lemma SamplePublished(s: Pipe, state: Snapshot)
    requires Inv(s)
    ensures var s' := SampleTrial(s, state);
            Published(s'.samples, s'.batches, s'.consumerTrial) && Published(s'.samples, s'.thrown, s'.consumerTrial)
  {
    if s.running {
      WrittenMore(s.samples, s.begun, s.trial, CaptureRecord(s.trial, s.last.sequence + 1, state));
      KeepsGenuine(s.samples, SampleTrial(s, state).samples);
    }
  }

  lemma SampleConserved(s: Pipe, state: Snapshot)
    requires Inv(s)
    ensures Conserved(SampleTrial(s, state))
  {
    if s.running {
      var r := CaptureRecord(s.trial, s.last.sequence + 1, state);
      ConservesMore(s.samples[s.trial], Delivered(s.batches, s.trial), InHand(s) + s.queue, Failed(s), s.drops, r);
      assert InHand(s) + s.queue + [r] == InHand(s) + (s.queue + [r]);
    }
  }

  lemma SampleReported(s: Pipe, state: Snapshot)
    requires Inv(s)
    ensures Report(SampleTrial(s, state))
  {
    assert forall i :: 0 <= i < |s.statuses| && s.running ==> s.begun[i] != s.trial;
  }

  lemma WrittenNew(samples: Logbook, begun: seq<nat>, trial: nat, id: nat)
    requires Written(samples, begun) && Ascending(begun, trial) && id > trial
    ensures Written(samples[id := []], begun + [id]) && Ascending(begun + [id], id)
    ensures id !in samples && Extends(samples, samples[id := []])
  {
  }

  lemma BeginKeepsInv(s: Pipe, id: nat)
    requires Inv(s)
    ensures Inv(BeginTrial(s, id))
  {
    if id > s.trial && s.ready {
      WrittenNew(s.samples, s.begun, s.trial, id);
      KeepsGenuine(s.samples, s.samples[id := []]);
      NothingDelivered(s.samples, s.batches, s.consumerTrial, id);
      BeginReported(s, id);
    }
  }

  lemma BeginReported(s: Pipe, id: nat)
    requires Inv(s) && id > s.trial && s.ready
    ensures Report(BeginTrial(s, id))
  {
  }

  lemma FinishKeepsInv(s: Pipe, completed: bool)
    requires Inv(s)
    ensures Inv(FinishTrial(s, completed))
  {
  }

  /** The timer's progress alone, with the same records on their way. */
  lemma RedrainKeepsInv(s: Pipe, drain: Drain, queue: seq<CaptureRecord>)
    requires Inv(s)
    requires Held(drain) + queue == Held(s.drain) + s.queue
    requires drain.Publishing? ==> drain.samples != []
    ensures Inv(s.(drain := drain, queue := queue))
  {
    AllOfBoth(s.samples, s.trial, Held(s.drain), s.queue, Held(drain), queue);
  }

  lemma AllOfBoth(samples: Logbook, trial: nat, hand: seq<CaptureRecord>, queue: seq<CaptureRecord>,
      hand': seq<CaptureRecord>, queue': seq<CaptureRecord>)
    requires AllOf(samples, hand, trial) && AllOf(samples, queue, trial) && hand' + queue' == hand + queue
    ensures AllOf(samples, hand', trial) && AllOf(samples, queue', trial)
    ensures hand' != [] || queue' != [] ==> hand != [] || queue != []
  {
    var way := hand + queue;
    assert AllOf(samples, way, trial);
    assert forall i :: 0 <= i < |hand'| ==> hand'[i] == way[i];
    assert forall i :: 0 <= i < |queue'| ==> queue'[i] == way[|hand'| + i];
    assert |hand'| + |queue'| == |way|;
  }

  /** A published batch moves its samples from hand to delivered, a failed one
      counts them. */
  lemma PublishConserved(s: Pipe, ok: bool)
    requires Inv(s) && s.drain.Publishing?
    ensures Conserved(Next(s, PublishBatch(ok)))
  {
    var s' := Next(s, PublishBatch(ok));
    var good := Delivered(s.batches, s.trial);
    assert good + (s.drain.samples + s.queue) == good + s.drain.samples + s.queue;
    assert InHand(s') + s'.queue == s.queue;
    assert s'.batches[..|s'.batches| - (if ok then 1 else 0)] == s.batches;
  }

  lemma PublishReported(s: Pipe, ok: bool)
    requires Inv(s) && s.drain.Publishing?
    ensures Report(Next(s, PublishBatch(ok)))
  {
    var s' := Next(s, PublishBatch(ok));
    assert s'.batches[..|s'.batches| - (if ok then 1 else 0)] == s.batches;
    assert forall i :: 0 <= i < |s.statuses| ==> s.begun[i] != s.trial;
  }

  lemma PublishKeepsInv(s: Pipe, ok: bool)
    requires Inv(s)
    ensures Inv(Next(s, PublishBatch(ok)))
  {
    if s.drain.Publishing? {
      PublishConserved(s, ok);
      PublishReported(s, ok);
    }
  }

  /** With nothing on its way, the trial's fate is decided by two counters. */
  lemma TerminalDecides(s: Pipe)
    requires Inv(s) && s.drain == Completing && s.terminalPending && s.queue == []
    ensures StatusIs(s.samples, s.batches, StatusOf(s.terminal, s.failures))
  {
    if s.consumerTrial < s.trial {
      NothingDelivered(s.samples, s.batches, s.consumerTrial, s.trial);
    }
  }

  lemma TakeTerminalKeepsInv(s: Pipe)
    requires Inv(s)
    ensures Inv(Next(s, TakeTerminal))
  {
    if s.drain == Completing && s.terminalPending && s.queue == [] {
      TerminalDecides(s);
    }
  }

  lemma PublishStatusKeepsInv(s: Pipe, ok: bool)
    requires Inv(s)
    ensures Inv(Next(s, PublishStatus(ok)))
  {
  }

  lemma TimerKeepsInv(s: Pipe)
    requires Inv(s) && s.drain == Waiting
    ensures Inv(s.(drain := NextBatch(0)))
  {
  }

  lemma SliceKeepsInv(s: Pipe)
    requires Inv(s)
    ensures Inv(s.(drain := Sliced(s.drain)))
  {
  }

  lemma PopKeepsInv(s: Pipe)
    requires Inv(s)
    ensures Inv(s.(drain := Popped(s.drain, s.queue), queue := Rest(s.drain, s.queue)))
  {
    PopMoves(s.drain, s.queue);
    RedrainKeepsInv(s, Popped(s.drain, s.queue), Rest(s.drain, s.queue));
  }

  lemma PopMoves(d: Drain, queue: seq<CaptureRecord>)
    requires d.Publishing? ==> d.samples != []
    ensures Held(Popped(d, queue)) + Rest(d, queue) == Held(d) + queue
    ensures Popped(d, queue).Publishing? ==> Popped(d, queue).samples != []
  {
  }

  lemma KeepsInv(s: Pipe, e: Event)
    requires Inv(s)
    ensures Inv(Next(s, e))
  {
    match e
    case Begin(id) => BeginKeepsInv(s, id);
    case Sample(state) => SampleKeepsInv(s, state);
    case Finish(completed) => FinishKeepsInv(s, completed);
    case Timer => if s.drain == Waiting { TimerKeepsInv(s); }
    case TakeSlice => SliceKeepsInv(s);
    case PopOne => PopKeepsInv(s);
    case PublishBatch(ok) => PublishKeepsInv(s, ok);
    case TakeTerminal => TakeTerminalKeepsInv(s);
    case PublishStatus(ok) => PublishStatusKeepsInv(s, ok);
  }

  // ----- whole runs -----

  /** Any interleaving of the producer's calls with the timer's steps. */
  function Run(events: seq<Event>): Pipe {
    if events == [] then IDLE_PIPE else Next(Run(events[..|events| - 1]), events[|events| - 1])
  }

  lemma {:induction false} RunInv(events: seq<Event>)
    ensures Inv(Run(events))
  {
    if events == [] {
      IdleInv();
    } else {
      RunInv(events[..|events| - 1]);
      KeepsInv(Run(events[..|events| - 1]), events[|events| - 1]);
    }
  }

  lemma RunStep(events: seq<Event>, e: Event)
    ensures Run(events + [e]) == Next(Run(events), e)
  {
  }

  /** No batch mixes trials, and all it holds was appended to that trial. */
  lemma EveryBatchOneTrial(events: seq<Event>, b: Batch, i: nat)
    requires b in Run(events).batches || b in Run(events).thrown
    requires i < |b.samples|
    ensures b.samples[i].trial == b.samples[0].trial
    ensures Genuine(Run(events).samples, b.samples[i])
  {
    RunInv(events);
    var s := Run(events);
    assert OneTrial(s.samples, b);
  }

  /** A pending status survives every event but its own successful publication,
      and no trial begins meanwhile. */
  lemma PendingStatusKept(events: seq<Event>, e: Event)
    requires Run(events).statusPending
    ensures var s, s' := Run(events), Run(events + [e]);
            && s'.pendingStatus == s.pendingStatus
            && s'.begun == s.begun
            && (s'.statusPending ==> s'.statuses == s.statuses)
            && (!s'.statusPending ==> e == PublishStatus(true) && s'.statuses == s.statuses + [s.pendingStatus])
  {
    RunInv(events);
    RunStep(events, e);
    PendingStep(Run(events), e);
  }

  lemma PendingStep(s: Pipe, e: Event)
    requires OneStage(s) && s.statusPending
    ensures var s' := Next(s, e);
            && s'.pendingStatus == s.pendingStatus
            && s'.begun == s.begun
            && (s'.statusPending ==> s'.statuses == s.statuses)
            && (!s'.statusPending ==> e == PublishStatus(true) && s'.statuses == s.statuses + [s.pendingStatus])
  {
  }

  /** The statuses published are those of the trials begun, one each and in
      order; only the latest trial may still lack its own. */
  lemma OneStatusPerTrial(events: seq<Event>)
    ensures var s := Run(events);
            && |s.begun| - 1 <= |s.statuses| <= |s.begun|
            && (forall i :: 0 <= i < |s.statuses| ==> s.statuses[i].trial == s.begun[i])
            && (forall i, j :: 0 <= i < j < |s.begun| ==> s.begun[i] < s.begun[j])
  {
    RunInv(events);
    var s := Run(events);
    assert Ascending(s.begun, s.trial);
  }

  /** A trial begins only when every earlier one has had its status published. */
  lemma BeginWaitsForStatus(events: seq<Event>, e: Event)
    requires Run(events + [e]).begun != Run(events).begun
    ensures var s, s' := Run(events), Run(events + [e]);
            && e == Begin(s'.trial) && s'.trial > s.trial && s'.begun == s.begun + [s'.trial]
            && |s.statuses| == |s.begun|
            && forall i :: 0 <= i < |s.begun| ==> s.statuses[i].trial == s.begun[i]
  {
    RunInv(events);
    RunStep(events, e);
    BeginStep(Run(events), e);
    AllReported(Run(events));
  }

  lemma BeginStep(s: Pipe, e: Event)
    requires Next(s, e).begun != s.begun
    ensures var s' := Next(s, e);
            s.ready && e == Begin(s'.trial) && s'.trial > s.trial && s'.begun == s.begun + [s'.trial]
  {
  }

  lemma AllReported(s: Pipe)
    requires Inv(s) && s.ready
    ensures |s.statuses| == |s.begun| && forall i :: 0 <= i < |s.begun| ==> s.statuses[i].trial == s.begun[i]
  {
  }

  /** A status accounts for every sample of its trial, and calls the capture
      complete exactly when every sample was in a batch that was published; for a
      trial without a sample, exactly when no loss is counted. */
  lemma StatusAccounts(events: seq<Event>, st: Status)
    requires st in Run(events).statuses
    ensures var s := Run(events);
            && st.trial in s.samples && st.finalSequence == |s.samples[st.trial]|
            && (st.captureComplete <==> st.dropped == 0 && st.failed == 0)
            && if st.finalSequence > 0 then
                 && |Delivered(s.batches, st.trial)| + st.failed + st.dropped == st.finalSequence
                 && (st.captureComplete <==> Delivered(s.batches, st.trial) == s.samples[st.trial])
               else Delivered(s.batches, st.trial) == s.samples[st.trial] == []
  {
    RunInv(events);
    var s := Run(events);
    assert StatusIs(s.samples, s.batches, st);
    if st.finalSequence == 0 {
      NoneDelivered(s.samples, s.batches, s.consumerTrial, st.trial);
    }
  }

  /** Of a trial without a sample no batch has any. */
  lemma {:induction false} NoneDelivered(samples: Logbook, batches: seq<Batch>, consumerTrial: nat, trial: nat)
    requires trial in samples && samples[trial] == [] && Published(samples, batches, consumerTrial)
    ensures Delivered(batches, trial) == []
  {
    if batches != [] {
      NoneDelivered(samples, batches[..|batches| - 1], consumerTrial, trial);
      var b := batches[|batches| - 1];
      assert OneTrial(samples, b);
      assert Genuine(samples, b.samples[0]);
    }
  }

  /** Capture is called complete exactly when it is. */
  ghost predicate Honest(samples: Logbook, batches: seq<Batch>, st: Status) {
    && st.trial in samples
    && (st.captureComplete <==> Delivered(batches, st.trial) == samples[st.trial])
  }

  /** The timer is about to turn the terminal into a status. */
  predicate Terminates(s: Pipe) {
    s.drain == Completing && s.terminalPending && s.queue == []
  }

  /** For a trial without a sample that holds only if no failure is left over: the
      failure count is cleared by the first batch of a trial, not by its start. */
  lemma HonestExactlyWhen(events: seq<Event>)
    requires Terminates(Run(events))
    ensures var s, s' := Run(events), Run(events + [TakeTerminal]);
            Honest(s.samples, s.batches, s'.pendingStatus) <==> s.last.sequence > 0 || s.failures == 0
  {
    RunInv(events);
    RunStep(events, TakeTerminal);
    TerminalStep(Run(events));
    TerminalExactly(Run(events));
  }

  lemma TerminalStep(s: Pipe)
    requires Terminates(s)
    ensures Next(s, TakeTerminal).pendingStatus == StatusOf(s.terminal, s.failures)
  {
  }

  lemma TerminalExactly(s: Pipe)
    requires Inv(s) && Terminates(s)
    ensures Honest(s.samples, s.batches, StatusOf(s.terminal, s.failures)) <==> s.last.sequence > 0 || s.failures == 0
  {
    TerminalDecides(s);
    assert s.samples[s.trial] == [] ==> Delivered(s.batches, s.trial) == [];
  }

  // ----- live messages -----

  /** The batch as it may be shown while the producer goes on: its dropped count can be
      behind. */
  predicate BatchBehind(shown: Batch, exact: Batch) {
    shown.samples == exact.samples && shown.failed == exact.failed && shown.dropped <= exact.dropped
  }

  ghost predicate Behind(shown: seq<Batch>, exact: seq<Batch>) {
    |shown| == |exact| && forall i :: 0 <= i < |shown| ==> BatchBehind(shown[i], exact[i])
  }

  lemma {:induction false} DeliveredAlike(shown: seq<Batch>, exact: seq<Batch>, trial: nat)
    requires Behind(shown, exact)
    ensures Delivered(shown, trial) == Delivered(exact, trial)
  {
    if shown != [] {
      var n := |shown| - 1;
      assert BatchBehind(shown[n], exact[n]);
      DeliveredAlike(shown[..n], exact[..n], trial);
    }
  }

  // ----- and it can fail -----

  const FIRST := CaptureRecord(1, 0, EMPTY_SNAPSHOT)
  const LOST := CaptureRecord(1, 1, EMPTY_SNAPSHOT)
  const SECOND := CaptureRecord(2, 0, EMPTY_SNAPSHOT)
  const LOST_STATUS := Status(1, 1, 0, 1, Idle, NoFault, true, true, false)

  /** The first trial has one sample, which the timer is publishing. */
  const SAMPLED :=
    IDLE_PIPE.(ready := false, running := true, trial := 1, last := LOST, begun := [] + [1],
      samples := map[][1 := []][1 := [] + [LOST]], queue := [] + [LOST])

  const HELD := SAMPLED.(queue := [], drain := Publishing(1, [] + [LOST]))

  /** That publication failed. */
  const AFTER_FAILURE :=
    HELD.(drain := NextBatch(1), consumerTrial := 1, failures := 1, thrown := [] + [Batch([] + [LOST], 0, 0)])

  const FIRST_DONE :=
    AFTER_FAILURE.(terminal := Completion(LOST, 0, true), running := false, terminalPending := true)

  const FIRST_REPORTED :=
    FIRST_DONE.(terminalPending := false, pendingStatus := LOST_STATUS, drain := Waiting,
      statuses := [] + [LOST_STATUS], ready := true)

  /** The second trial has begun and ended without a sample. */
  const SECOND_DONE :=
    FIRST_REPORTED.(ready := false, trial := 2, last := SECOND, begun := FIRST_REPORTED.begun + [2],
      samples := FIRST_REPORTED.samples[2 := []], terminal := Completion(SECOND, 0, true), terminalPending := true)

  lemma Extended(events: seq<Event>, e: Event, s: Pipe) returns (longer: seq<Event>)
    requires Run(events) == s
    ensures Run(longer) == Next(s, e)
  {
    longer := events + [e];
    RunStep(events, e);
  }

  lemma SampledReached() returns (events: seq<Event>)
    ensures Run(events) == SAMPLED
  {
    var s1 := IDLE_PIPE.(ready := false, running := true, trial := 1, last := FIRST, begun := [] + [1],
      samples := map[][1 := []]);
    events := Extended([], Begin(1), IDLE_PIPE);
    assert Run(events) == s1;
    events := Extended(events, Sample(EMPTY_SNAPSHOT), s1);
  }

  lemma HeldReached() returns (events: seq<Event>)
    ensures Run(events) == HELD
  {
    events := SampledReached();
    events := Extended(events, Timer, SAMPLED);
    events := Extended(events, TakeSlice, SAMPLED.(drain := NextBatch(0)));
    events := Extended(events, PopOne, SAMPLED.(drain := Filling(0, [])));
    var s := SAMPLED.(drain := Filling(0, [] + [LOST]), queue := []);
    assert Run(events) == s;
    events := Extended(events, PopOne, s);
  }

  lemma FailureReached() returns (events: seq<Event>)
    ensures Run(events) == AFTER_FAILURE
  {
    events := HeldReached();
    events := Extended(events, PublishBatch(false), HELD);
  }

  lemma FirstDoneReached() returns (events: seq<Event>)
    ensures Run(events) == FIRST_DONE.(drain := Completing)
  {
    events := FailureReached();
    events := Extended(events, Finish(true), AFTER_FAILURE);
    events := Extended(events, TakeSlice, FIRST_DONE);
    events := Extended(events, PopOne, FIRST_DONE.(drain := Filling(1, [])));
  }

  lemma FirstReported() returns (events: seq<Event>)
    ensures Run(events) == FIRST_REPORTED
  {
    events := FirstDoneReached();
    events := Extended(events, TakeTerminal, FIRST_DONE.(drain := Completing));
    var s :=
      FIRST_DONE.(terminalPending := false, pendingStatus := LOST_STATUS, statusPending := true, drain := Reporting);
    assert Run(events) == s;
    events := Extended(events, PublishStatus(true), s);
  }

  lemma SecondDone() returns (events: seq<Event>)
    ensures Run(events) == SECOND_DONE
  {
    events := FirstReported();
    events := Extended(events, Begin(2), FIRST_REPORTED);
    var s := SECOND_DONE.(terminal := FIRST_DONE.terminal, terminalPending := false, running := true);
    assert Run(events) == s;
    events := Extended(events, Finish(true), s);
  }

  lemma SecondDrained() returns (events: seq<Event>)
    ensures Run(events) == SECOND_DONE.(drain := Completing)
  {
    events := SecondDone();
    events := Extended(events, Timer, SECOND_DONE);
    events := Extended(events, TakeSlice, SECOND_DONE.(drain := NextBatch(0)));
    events := Extended(events, PopOne, SECOND_DONE.(drain := Filling(0, [])));
  }

  /** A trial without a sample, of which none can be missing, called incomplete. */
  lemma StaleFailure() returns (events: seq<Event>)
    ensures Terminates(Run(events))
    ensures var s, s' := Run(events), Run(events + [TakeTerminal]);
            s.last.sequence == 0 && !s'.pendingStatus.captureComplete && !Honest(s.samples, s.batches, s'.pendingStatus)
  {
    events := SecondDrained();
    RunStep(events, TakeTerminal);
    TerminalStep(Run(events));
    HonestExactlyWhen(events);
  }
}
