/** The trial capture as its two threads see it: one real-time producer and one
    consumer around a ring of slots with a separate terminal slot, every load,
    slot access and store a step of its own. */
module CaptureRing {
  import opened ControlTypes
  import opened IntArithmetic

  datatype CaptureRecord = CaptureRecord(trial: nat, sequence: nat, state: Snapshot)

  datatype Completion = Completion(final: CaptureRecord, dropped: nat, completed: bool)

  const NO_RECORD := CaptureRecord(0, 0, EMPTY_SNAPSHOT)
  const NO_COMPLETION := Completion(NO_RECORD, 0, false)

  /** Where the producer is, with what it has loaded. */
  datatype Producer =
    | ProducerIdle
    | BeginAccepted(trial: nat)
    | AppendLoaded(w: nat)
    | AppendFull
    | AppendRoom(w: nat)
    | AppendWritten(w: nat)
    | FinishFilled

  /** Where the consumer is, with what it has loaded. */
  datatype Consumer =
    | ConsumerIdle
    | PopLoaded(r: nat)
    | PopAvailable(r: nat)
    | PopTaken(r: nat, out: CaptureRecord)
    | CompletionPending
    | CompletionDrained
    | CompletionTaken(done: Completion)

  /** slots to terminalPending are shared, trial to terminal belong to the
      producer.  accepted and popped record every record published by a store of
      the write index and every record released by a store of the read index;
      base is the length of accepted when the current trial began. */
  datatype Ring = Ring(
    slots: seq<CaptureRecord>,
    read: nat,
    write: nat,
    publishedDrops: nat,
    terminalPending: bool,
    trial: nat,
    sequence: nat,
    drops: nat,
    running: bool,
    last: CaptureRecord,
    terminal: Completion,
    producer: Producer,
    consumer: Consumer,
    accepted: seq<CaptureRecord>,
    popped: seq<CaptureRecord>,
    base: nat)

  function Empty(capacity: nat): Ring {
    Ring(seq(capacity, _ => NO_RECORD), 0, 0, 0, false, 0, 0, 0, false, NO_RECORD, NO_COMPLETION,
         ProducerIdle, ConsumerIdle, [], [], 0)
  }

  datatype Action =
    | BeginLoadPending(trial: nat)
    | BeginStoreDrops
    | AppendLoadWrite(state: Snapshot)
    | AppendLoadRead
    | AppendStoreDrops
    | AppendStoreSlot
    | AppendStoreWrite
    | FinishStoreTerminal(completed: bool)
    | FinishStorePending
    | PopLoadRead
    | PopLoadWrite
    | PopLoadSlot
    | PopStoreRead
    | CompletionLoadPending
    | CompletionLoadIndices
    | CompletionLoadTerminal
    | CompletionStorePending

  predicate ProducerAction(a: Action) {
    || a.BeginLoadPending? || a.BeginStoreDrops? || a.AppendLoadWrite? || a.AppendLoadRead?
    || a.AppendStoreDrops? || a.AppendStoreSlot? || a.AppendStoreWrite?
    || a.FinishStoreTerminal? || a.FinishStorePending?
  }

  /** The action is the next one of its thread. */
  predicate Enabled(s: Ring, a: Action) {
    match a
    case BeginLoadPending(_) => s.producer == ProducerIdle
    case BeginStoreDrops => s.producer.BeginAccepted?
    case AppendLoadWrite(_) => s.producer == ProducerIdle
    case AppendLoadRead => s.producer.AppendLoaded?
    case AppendStoreDrops => s.producer == AppendFull
    case AppendStoreSlot => s.producer.AppendRoom?
    case AppendStoreWrite => s.producer.AppendWritten?
    case FinishStoreTerminal(_) => s.producer == ProducerIdle
    case FinishStorePending => s.producer == FinishFilled
    case PopLoadRead => s.consumer == ConsumerIdle
    case PopLoadWrite => s.consumer.PopLoaded?
    case PopLoadSlot => s.consumer.PopAvailable?
    case PopStoreRead => s.consumer.PopTaken?
    case CompletionLoadPending => s.consumer == ConsumerIdle
    case CompletionLoadIndices => s.consumer == CompletionPending
    case CompletionLoadTerminal => s.consumer == CompletionDrained
    case CompletionStorePending => s.consumer.CompletionTaken?
  }

  function ProducerStep(capacity: nat, s: Ring, a: Action): Ring
    requires capacity >= 1 && |s.slots| == capacity && ProducerAction(a) && Enabled(s, a)
  {
    match a
    case BeginLoadPending(trial) =>
      if s.running || s.terminalPending || trial == 0 then s
      else s.(producer := BeginAccepted(trial))
    case BeginStoreDrops =>
      s.(trial := s.producer.trial, sequence := 0, drops := 0, publishedDrops := 0,
         last := CaptureRecord(s.producer.trial, 0, EMPTY_SNAPSHOT), running := true,
         producer := ProducerIdle, base := |s.accepted|)
    case AppendLoadWrite(state) =>
      if !s.running then s
      else s.(sequence := s.sequence + 1, last := CaptureRecord(s.trial, s.sequence + 1, state),
              producer := AppendLoaded(s.write))
    case AppendLoadRead =>
      if (s.producer.w - s.read) % WRAP == capacity then s.(producer := AppendFull)
      else s.(producer := AppendRoom(s.producer.w))
    case AppendStoreDrops =>
      s.(drops := s.drops + 1, publishedDrops := s.drops + 1, producer := ProducerIdle)
    case AppendStoreSlot =>
      s.(slots := s.slots[s.producer.w % capacity := s.last], producer := AppendWritten(s.producer.w))
    case AppendStoreWrite =>
      s.(write := (s.producer.w + 1) % WRAP, producer := ProducerIdle, accepted := s.accepted + [s.last])
    case FinishStoreTerminal(completed) =>
      if !s.running then s
      else s.(terminal := Completion(s.last, s.drops, completed), running := false, producer := FinishFilled)
    case FinishStorePending =>
      s.(terminalPending := true, producer := ProducerIdle)
  }

  function ConsumerStep(capacity: nat, s: Ring, a: Action): Ring
    requires capacity >= 1 && |s.slots| == capacity && !ProducerAction(a) && Enabled(s, a)
  {
    match a
    case PopLoadRead => s.(consumer := PopLoaded(s.read))
    case PopLoadWrite =>
      if s.consumer.r == s.write then s.(consumer := ConsumerIdle)
      else s.(consumer := PopAvailable(s.consumer.r))
    case PopLoadSlot => s.(consumer := PopTaken(s.consumer.r, s.slots[s.consumer.r % capacity]))
    case PopStoreRead =>
      s.(read := (s.consumer.r + 1) % WRAP, consumer := ConsumerIdle, popped := s.popped + [s.consumer.out])
    case CompletionLoadPending =>
      if s.terminalPending then s.(consumer := CompletionPending) else s
    case CompletionLoadIndices =>
      if s.read == s.write then s.(consumer := CompletionDrained) else s.(consumer := ConsumerIdle)
    case CompletionLoadTerminal => s.(consumer := CompletionTaken(s.terminal))
    case CompletionStorePending => s.(terminalPending := false, consumer := ConsumerIdle)
  }

  /** One step of whichever thread the action belongs to; an action that is not
      that thread's next one does not happen. */
  function Step(capacity: nat, s: Ring, a: Action): (s': Ring)
    requires capacity >= 1 && |s.slots| == capacity
    ensures |s'.slots| == capacity
  {
    if !Enabled(s, a) then s
    else if ProducerAction(a) then ProducerStep(capacity, s, a)
    else ConsumerStep(capacity, s, a)
  }

  /** Any interleaving: the actions of both threads in the order they happen. */
  function Execute(capacity: nat, s: Ring, actions: seq<Action>): (s': Ring)
    requires capacity >= 1 && |s.slots| == capacity
    ensures |s'.slots| == capacity
  {
    if actions == [] then s
    else Step(capacity, Execute(capacity, s, actions[..|actions| - 1]), actions[|actions| - 1])
  }

  // ----- the invariant -----

  predicate Usable(capacity: nat) {
    1 <= capacity < WRAP && WRAP % capacity == 0
  }

  ghost predicate IndicesOk(capacity: nat, s: Ring)
    requires capacity >= 1
  {
    && |s.slots| == capacity
    && |s.popped| <= |s.accepted| <= |s.popped| + capacity
    && s.read == |s.popped| % WRAP
    && s.write == |s.accepted| % WRAP
  }

  ghost predicate QueueOk(capacity: nat, s: Ring)
    requires capacity >= 1 && |s.slots| == capacity
  {
    && s.popped <= s.accepted
    && forall i {:trigger s.accepted[i]} :: |s.popped| <= i < |s.accepted| ==> s.slots[i % capacity] == s.accepted[i]
  }

  ghost predicate ProducerOk(capacity: nat, s: Ring)
    requires capacity >= 1 && |s.slots| == capacity
  {
    match s.producer
    case ProducerIdle => true
    case BeginAccepted(trial) => !s.running && !s.terminalPending && trial > 0
    case AppendLoaded(w) => s.running && w == s.write
    case AppendFull => s.running
    case AppendRoom(w) => s.running && w == s.write && |s.accepted| < |s.popped| + capacity
    case AppendWritten(w) =>
      s.running && w == s.write && |s.accepted| < |s.popped| + capacity && s.slots[|s.accepted| % capacity] == s.last
    case FinishFilled => !s.running && !s.terminalPending
  }

  ghost predicate ConsumerOk(s: Ring) {
    match s.consumer
    case ConsumerIdle => true
    case PopLoaded(r) => r == s.read
    case PopAvailable(r) => r == s.read && |s.popped| < |s.accepted|
    case PopTaken(r, out) => r == s.read && |s.popped| < |s.accepted| && out == s.accepted[|s.popped|]
    case CompletionPending => s.terminalPending
    case CompletionDrained => s.terminalPending && s.popped == s.accepted
    case CompletionTaken(done) => s.terminalPending && s.popped == s.accepted && done == s.terminal
  }

  /** From base on the records are one trial's, numbered upwards to at most top. */
  ghost predicate Numbered(accepted: seq<CaptureRecord>, base: nat, trial: nat, top: int) {
    && base <= |accepted|
    && (forall i :: base <= i < |accepted| ==>
          accepted[i].trial == trial && 1 <= accepted[i].sequence <= top)
    && (forall i, j :: base <= i < j < |accepted| ==> accepted[i].sequence < accepted[j].sequence)
  }

  /** While a terminal waits to be taken the producer has nothing to do, and the
      counters of the trial balance: every sample was accepted or dropped. */
  ghost predicate TrialOk(s: Ring) {
    && (s.terminalPending ==> !s.running && s.producer == ProducerIdle)
    && (s.terminalPending || s.producer == FinishFilled ==>
          s.terminal.final == s.last && s.terminal.dropped == s.drops)
    && s.base <= |s.accepted|
    && s.sequence == (|s.accepted| - s.base) + s.drops + (if InFlight(s.producer) then 1 else 0)
    && s.publishedDrops == s.drops
    && s.last.sequence == s.sequence && s.last.trial == s.trial
    && Numbered(s.accepted, s.base, s.trial, if InFlight(s.producer) then s.sequence - 1 else s.sequence)
  }

  /** A sample has been numbered and neither published nor dropped yet. */
  predicate InFlight(p: Producer) {
    p.AppendLoaded? || p.AppendFull? || p.AppendRoom? || p.AppendWritten?
  }

  ghost predicate Inv(capacity: nat, s: Ring) {
    && capacity >= 1 && IndicesOk(capacity, s) && QueueOk(capacity, s)
    && ProducerOk(capacity, s) && ConsumerOk(s) && TrialOk(s)
  }

  lemma EmptyInv(capacity: nat)
    requires Usable(capacity)
    ensures Inv(capacity, Empty(capacity))
  {
  }

  lemma AppendKeepsInv(capacity: nat, s: Ring, a: Action)
    requires Usable(capacity) && Inv(capacity, s) && Enabled(s, a)
    requires a.AppendLoadRead? || a.AppendStoreSlot? || a.AppendStoreWrite?
    ensures Inv(capacity, ProducerStep(capacity, s, a))
  {
    var n, p := |s.accepted|, |s.popped|;
    if a.AppendLoadRead? {
      WrapDistance(n, p, WRAP);
    } else if a.AppendStoreSlot? {
      WrapSlot(n, WRAP, capacity);
      forall i | p <= i < n ensures i % capacity != n % capacity {
        DistinctSlots(n, i, capacity);
      }
    } else {
      WrapNext(n, WRAP);
    }
  }

  lemma ProducerKeepsInv(capacity: nat, s: Ring, a: Action)
    requires Usable(capacity) && Inv(capacity, s) && ProducerAction(a) && Enabled(s, a)
    ensures Inv(capacity, ProducerStep(capacity, s, a))
  {
    if a.AppendLoadRead? || a.AppendStoreSlot? || a.AppendStoreWrite? {
      AppendKeepsInv(capacity, s, a);
    }
  }

  lemma PopKeepsInv(capacity: nat, s: Ring, a: Action)
    requires Usable(capacity) && Inv(capacity, s) && Enabled(s, a)
    requires a.PopLoadRead? || a.PopLoadWrite? || a.PopLoadSlot? || a.PopStoreRead?
    ensures Inv(capacity, ConsumerStep(capacity, s, a))
  {
    var n, p := |s.accepted|, |s.popped|;
    if a.PopLoadWrite? {
      WrapDistance(n, p, WRAP);
    } else if a.PopLoadSlot? {
      WrapSlot(p, WRAP, capacity);
    } else if a.PopStoreRead? {
      WrapNext(p, WRAP);
    }
  }

  lemma CompletionKeepsInv(capacity: nat, s: Ring, a: Action)
    requires Usable(capacity) && Inv(capacity, s) && Enabled(s, a) && !ProducerAction(a)
    requires !(a.PopLoadRead? || a.PopLoadWrite? || a.PopLoadSlot? || a.PopStoreRead?)
    ensures Inv(capacity, ConsumerStep(capacity, s, a))
  {
    WrapDistance(|s.accepted|, |s.popped|, WRAP);
  }

  lemma ConsumerKeepsInv(capacity: nat, s: Ring, a: Action)
    requires Usable(capacity) && Inv(capacity, s) && !ProducerAction(a) && Enabled(s, a)
    ensures Inv(capacity, ConsumerStep(capacity, s, a))
  {
    if a.PopLoadRead? || a.PopLoadWrite? || a.PopLoadSlot? || a.PopStoreRead? {
      PopKeepsInv(capacity, s, a);
    } else {
      CompletionKeepsInv(capacity, s, a);
    }
  }

  lemma {:induction false} ExecuteKeepsInv(capacity: nat, s: Ring, actions: seq<Action>)
    requires Usable(capacity) && Inv(capacity, s)
    ensures Inv(capacity, Execute(capacity, s, actions))
  {
    if actions != [] {
      var n := |actions| - 1;
      ExecuteKeepsInv(capacity, s, actions[..n]);
      var s', a := Execute(capacity, s, actions[..n]), actions[n];
      if Enabled(s', a) {
        if ProducerAction(a) { ProducerKeepsInv(capacity, s', a); } else { ConsumerKeepsInv(capacity, s', a); }
      }
    }
  }

  // ----- what the interleavings cannot do -----

  /** The slot of the i-th queued record. */
  function SlotAt(capacity: nat, s: Ring, i: int): (k: nat)
    requires capacity >= 1
    ensures k < capacity
  {
    ((s.read + i) % WRAP) % capacity
  }

  /** The queue as the shared memory holds it. */
  function Queued(capacity: nat, s: Ring): seq<CaptureRecord>
    requires capacity >= 1 && |s.slots| == capacity
  {
    seq((s.write - s.read) % WRAP, i => s.slots[SlotAt(capacity, s, i)])
  }

  lemma SlotIs(capacity: nat, s: Ring, i: nat)
    requires Usable(capacity) && s.read == |s.popped| % WRAP
    ensures SlotAt(capacity, s, i) == (|s.popped| + i) % capacity
  {
    WrapAdd(|s.popped|, i, WRAP);
    WrapSlot(|s.popped| + i, WRAP, capacity);
  }

  lemma QueuedIs(capacity: nat, s: Ring)
    requires Usable(capacity) && Inv(capacity, s)
    ensures Queued(capacity, s) == s.accepted[|s.popped|..]
  {
    var n, p := |s.accepted|, |s.popped|;
    WrapDistance(n, p, WRAP);
    var q := Queued(capacity, s);
    forall i | 0 <= i < n - p ensures q[i] == s.accepted[p + i] {
      SlotIs(capacity, s, i);
    }
  }

  /** Ring refinement: after any interleaving, what has been popped followed by
      what the slots hold is exactly what was accepted, in order, and the
      distance between the indices is the length of the queue. */
  lemma RingIsFifo(capacity: nat, actions: seq<Action>)
    requires Usable(capacity)
    ensures var s := Execute(capacity, Empty(capacity), actions);
            && s.popped + Queued(capacity, s) == s.accepted
            && |Queued(capacity, s)| <= capacity
  {
    EmptyInv(capacity);
    ExecuteKeepsInv(capacity, Empty(capacity), actions);
    var s := Execute(capacity, Empty(capacity), actions);
    QueuedIs(capacity, s);
    assert s.accepted == s.accepted[..|s.popped|] + s.accepted[|s.popped|..];
  }

  /** Neither thread touches what the other is in the middle of reading: the slot
      about to be written is not the slot about to be read, and a terminal being
      taken is neither rewritten nor followed by a new trial. */
  lemma NoRace(capacity: nat, actions: seq<Action>)
    requires Usable(capacity)
    ensures var s := Execute(capacity, Empty(capacity), actions);
            && (s.producer.AppendRoom? && s.consumer.PopAvailable? ==>
                  s.producer.w % capacity != s.consumer.r % capacity)
            && (s.consumer.CompletionPending? || s.consumer.CompletionDrained? || s.consumer.CompletionTaken? ==>
                  forall a :: ProducerAction(a) && Enabled(s, a) ==> ProducerStep(capacity, s, a) == s)
  {
    EmptyInv(capacity);
    ExecuteKeepsInv(capacity, Empty(capacity), actions);
    var s := Execute(capacity, Empty(capacity), actions);
    if s.producer.AppendRoom? && s.consumer.PopAvailable? {
      WrapSlot(|s.accepted|, WRAP, capacity);
      WrapSlot(|s.popped|, WRAP, capacity);
      DistinctSlots(|s.accepted|, |s.popped|, capacity);
    }
  }

  /** The step's effect on the abstract queue. */
  ghost predicate Refines(capacity: nat, s: Ring, a: Action, s': Ring)
    requires capacity >= 1 && |s.slots| == capacity && |s'.slots| == capacity && Enabled(s, a)
  {
    var q, q' := Queued(capacity, s), Queued(capacity, s');
    match a
    case AppendStoreWrite => q' == q + [s.last] && |q| < capacity
    case AppendLoadRead => q' == q && (s'.producer == AppendFull ==> |q| == capacity)
    case PopLoadWrite => q' == q && (s'.consumer == ConsumerIdle ==> q == [])
    case PopStoreRead => q == [s.consumer.out] + q'
    case CompletionLoadIndices => q' == q && (s'.consumer == CompletionDrained <==> q == [])
    case CompletionStorePending => q == q' == [] && Balanced(s, s.consumer.done)
    case _ => q' == q
  }

  /** The terminal accounts for the whole trial: every sample was either popped
      already, in order, or counted as dropped. */
  ghost predicate Balanced(s: Ring, done: Completion) {
    && s.base <= |s.popped|
    && done.final.sequence == |s.popped| - s.base + done.dropped
    && Numbered(s.popped, s.base, done.final.trial, done.final.sequence)
  }

  /** The same effect in terms of what was accepted and popped. */
  ghost predicate RefinesLogs(capacity: nat, s: Ring, a: Action, s': Ring)
    requires Enabled(s, a)
  {
    var n := |s.accepted| - |s.popped|;
    match a
    case AppendStoreWrite => s'.accepted == s.accepted + [s.last] && s'.popped == s.popped && n < capacity
    case PopStoreRead =>
      && n > 0 && s'.accepted == s.accepted && s.accepted[|s.popped|] == s.consumer.out
      && s'.popped == s.popped + [s.consumer.out]
    case AppendLoadRead => SameLogs(s, s') && (s'.producer == AppendFull ==> n == capacity)
    case PopLoadWrite => SameLogs(s, s') && (s'.consumer == ConsumerIdle ==> n == 0)
    case CompletionLoadIndices => SameLogs(s, s') && (s'.consumer == CompletionDrained <==> n == 0)
    case CompletionStorePending => SameLogs(s, s') && n == 0 && Balanced(s, s.consumer.done)
    case _ => SameLogs(s, s')
  }

  ghost predicate SameLogs(s: Ring, s': Ring) {
    s'.accepted == s.accepted && s'.popped == s.popped
  }

  lemma StepRefinesLogs(capacity: nat, s: Ring, a: Action)
    requires Usable(capacity) && Inv(capacity, s) && Enabled(s, a)
    ensures |s.accepted| >= |s.popped| && RefinesLogs(capacity, s, a, Step(capacity, s, a))
  {
    WrapDistance(|s.accepted|, |s.popped|, WRAP);
  }

  /** Each step is one queue operation or none: the store of the write index
      enqueues, the store of the read index dequeues, a drop is decided when the
      queue is full, and an empty answer when it is empty. */
  lemma StepRefinesQueue(capacity: nat, s: Ring, a: Action)
    requires Usable(capacity) && Inv(capacity, s) && Enabled(s, a)
    ensures Refines(capacity, s, a, Step(capacity, s, a))
  {
    var s' := Step(capacity, s, a);
    assert Inv(capacity, s') by {
      if ProducerAction(a) { ProducerKeepsInv(capacity, s, a); } else { ConsumerKeepsInv(capacity, s, a); }
    }
    QueuedIs(capacity, s);
    QueuedIs(capacity, s');
    StepRefinesLogs(capacity, s, a);
  }

  /** With nothing dropped the numbers have no gap. */
  lemma {:induction false} NoGaps(records: seq<CaptureRecord>, base: nat, trial: nat)
    requires Numbered(records, base, trial, |records| - base)
    ensures forall i :: base <= i < |records| ==> records[i].sequence == i - base + 1
  {
    if base < |records| {
      var n := |records| - 1;
      forall i | base <= i < |records| ensures i - base + 1 <= records[i].sequence <= i - base + 1 {
        AtLeast(records, base, trial, i);
        AtMost(records, base, trial, i);
      }
    }
  }

  lemma {:induction false} AtLeast(records: seq<CaptureRecord>, base: nat, trial: nat, i: int)
    requires base <= i < |records| && Numbered(records, base, trial, |records| - base)
    ensures records[i].sequence >= i - base + 1
    decreases i
  {
    if i > base { AtLeast(records, base, trial, i - 1); }
  }

  lemma {:induction false} AtMost(records: seq<CaptureRecord>, base: nat, trial: nat, i: int)
    requires base <= i < |records| && Numbered(records, base, trial, |records| - base)
    ensures records[i].sequence <= i - base + 1
    decreases |records| - i
  {
    if i < |records| - 1 { AtMost(records, base, trial, i + 1); }
  }
}
