/** How much work one callback of the telemetry timer does: the records it takes
    from the queue, against the capacity that its comment names as the bound. */
module TelemetryWork {
  import opened ControlTypes
  import opened CaptureRing
  import opened TelemetryPipeline

  /** The event takes a record from the queue. */
  predicate Takes(s: Pipe, e: Event) {
    e == PopOne && s.drain.Filling? && |s.drain.samples| < BATCH_SIZE && s.queue != []
  }

  predicate Starts(s: Pipe, e: Event) {
    e == Timer && s.drain == Waiting
  }

  /** The records taken since the latest callback began. */
  ghost function Taken(events: seq<Event>): nat {
    if events == [] then 0 else
    var front, e := events[..|events| - 1], events[|events| - 1];
    if Starts(Run(front), e) then 0
    else Taken(front) + if Takes(Run(front), e) then 1 else 0
  }

  /** The records it could have taken: those in the queue when it began and those
      the queue accepted since. */
  ghost function Offered(events: seq<Event>): nat {
    if events == [] then 0 else
    var front, e := events[..|events| - 1], events[|events| - 1];
    if Starts(Run(front), e) then |Run(front).queue|
    else Offered(front) + if Accepts(Run(front), e) then 1 else 0
  }

  predicate Accepts(s: Pipe, e: Event) {
    e.Sample? && s.running && |s.queue| < QUEUE_CAPACITY
  }

  /** What its batches lack of being full. */
  ghost function Lacking(events: seq<Event>): nat {
    if events == [] then 0 else
    var front, e := events[..|events| - 1], events[|events| - 1];
    if Starts(Run(front), e) then 0 else Lacking(front) + Shortfall(Run(front), e)
  }

  /** What a batch lacks that is closed because the queue was found empty. */
  function Shortfall(s: Pipe, e: Event): nat {
    if e == PopOne && s.drain.Filling? && 0 < |s.drain.samples| < BATCH_SIZE && s.queue == []
    then BATCH_SIZE - |s.drain.samples| else 0
  }

  /** Its batches. */
  ghost function Batches(events: seq<Event>): nat {
    if events == [] then 0 else
    var front, e := events[..|events| - 1], events[|events| - 1];
    if Starts(Run(front), e) then 0 else Batches(front) + if Closes(Run(front), e) then 1 else 0
  }

  predicate Closes(s: Pipe, e: Event) {
    e == PopOne && s.drain.Filling? && s.drain.samples != [] && (|s.drain.samples| == BATCH_SIZE || s.queue == [])
  }

  /** What the records taken have to do with the timer's own count of them, with the
      queue, and with the batches. */
  ghost predicate Counts(d: Drain, queue: nat, taken: nat, offered: nat, lacking: nat, batches: nat) {
    && taken + queue == offered
    && queue <= QUEUE_CAPACITY
    && taken <= QUEUE_CAPACITY + BATCH_SIZE - 1
    && match d
       case NextBatch(consumed) => taken == consumed == BATCH_SIZE * batches - lacking
       case Filling(consumed, samples) =>
         && consumed == BATCH_SIZE * batches - lacking
         && consumed < QUEUE_CAPACITY && |samples| <= BATCH_SIZE && taken == consumed + |samples|
       case Publishing(consumed, _) => taken == consumed == BATCH_SIZE * batches - lacking
       case _ => taken == BATCH_SIZE * batches - lacking
  }

  lemma CountsStep(s: Pipe, e: Event, taken: nat, offered: nat, lacking: nat, batches: nat)
    requires Counts(s.drain, |s.queue|, taken, offered, lacking, batches) && !Starts(s, e)
    ensures var s' := Next(s, e);
            Counts(s'.drain, |s'.queue|, taken + (if Takes(s, e) then 1 else 0),
                   offered + (if Accepts(s, e) then 1 else 0), lacking + Shortfall(s, e),
                   batches + (if Closes(s, e) then 1 else 0))
  {
    match e
    case PopOne =>
    case _ =>
  }

  lemma {:induction false} WorkCounted(events: seq<Event>)
    ensures var s := Run(events);
            Counts(s.drain, |s.queue|, Taken(events), Offered(events), Lacking(events), Batches(events))
  {
    if events != [] {
      var front, e := events[..|events| - 1], events[|events| - 1];
      WorkCounted(front);
      if !Starts(Run(front), e) {
        CountsStep(Run(front), e, Taken(front), Offered(front), Lacking(front), Batches(front));
      }
    }
  }

  /** A callback never takes more than the capacity and one batch less one record. */
  lemma WorkBounded(events: seq<Event>)
    ensures Taken(events) <= QUEUE_CAPACITY + BATCH_SIZE - 1
    ensures Taken(events) <= Offered(events)
  {
    WorkCounted(events);
  }

  /** What is missing to the next whole batch. */
  function Remainder(lacking: nat): nat {
    (BATCH_SIZE - lacking % BATCH_SIZE) % BATCH_SIZE
  }

  lemma WholeBatches(taken: nat, lacking: nat, batches: nat)
    requires taken == BATCH_SIZE * batches - lacking && taken <= QUEUE_CAPACITY + BATCH_SIZE - 1
    ensures taken >= QUEUE_CAPACITY ==> taken == QUEUE_CAPACITY + Remainder(lacking)
    ensures taken > QUEUE_CAPACITY <==> taken >= QUEUE_CAPACITY && lacking % BATCH_SIZE != 0
  {
  }

  lemma BatchesTaken(events: seq<Event>)
    requires !Run(events).drain.Filling?
    ensures Taken(events) == BATCH_SIZE * Batches(events) - Lacking(events)
    ensures Taken(events) <= QUEUE_CAPACITY + BATCH_SIZE - 1
  {
    WorkCounted(events);
  }

  /** Between batches, a callback that has taken as much as the capacity has taken
      exactly what its batches lack of being whole ones beyond that, and so stays
      within the capacity exactly when they lack none. */
  lemma WorkExactly(events: seq<Event>)
    requires !Run(events).drain.Filling?
    ensures Taken(events) >= QUEUE_CAPACITY ==> Taken(events) == QUEUE_CAPACITY + Remainder(Lacking(events))
    ensures Taken(events) > QUEUE_CAPACITY <==>
              Taken(events) >= QUEUE_CAPACITY && Lacking(events) % BATCH_SIZE != 0
  {
    BatchesTaken(events);
    WholeBatches(Taken(events), Lacking(events), Batches(events));
  }

  // ----- which callbacks can take more -----

  /** More events, in which no callback begins. */
  ghost predicate Continues(events: seq<Event>, longer: seq<Event>) {
    events <= longer && forall i :: |events| <= i < |longer| ==> longer[i] != Timer
  }

  /** The same trial and callback with the queue and the two amounts grown. */
  ghost predicate Grown(events: seq<Event>, longer: seq<Event>, queue: int, taken: int, offered: int) {
    && Continues(events, longer)
    && Run(longer).running == Run(events).running
    && |Run(longer).queue| == |Run(events).queue| + queue
    && Taken(longer) == Taken(events) + taken
    && Offered(longer) == Offered(events) + offered
  }

  /** One event more. */
  lemma One(events: seq<Event>, e: Event) returns (longer: seq<Event>)
    requires e != Timer && !e.Begin? && !e.Finish?
    ensures Run(longer) == Next(Run(events), e)
    ensures Grown(events, longer,
                  (if Accepts(Run(events), e) then 1 else 0) - (if Takes(Run(events), e) then 1 else 0),
                  if Takes(Run(events), e) then 1 else 0, if Accepts(Run(events), e) then 1 else 0)
  {
    longer := events + [e];
    OneMore(events, e);
    QueueGrows(Run(events), e);
    assert Continues(events, longer);
  }

  lemma QueueGrows(s: Pipe, e: Event)
    requires e != Timer && !e.Begin? && !e.Finish?
    ensures Next(s, e).running == s.running
    ensures |Next(s, e).queue| == |s.queue| + (if Accepts(s, e) then 1 else 0) - (if Takes(s, e) then 1 else 0)
  {
    match e
    case Sample(state) => assert Next(s, e) == SampleTrial(s, state);
    case TakeSlice =>
    case PopOne =>
    case PublishBatch(_) =>
    case _ =>
  }

  lemma {:induction false} Arrive(events: seq<Event>, n: nat) returns (longer: seq<Event>)
    requires Run(events).running && |Run(events).queue| + n <= QUEUE_CAPACITY
    ensures Grown(events, longer, n, 0, n) && Run(longer).drain == Run(events).drain
    decreases n
  {
    longer := events;
    if n > 0 {
      longer := One(events, Sample(EMPTY_SNAPSHOT));
      longer := Arrive(longer, n - 1);
    }
  }

  lemma {:induction false} Take(events: seq<Event>, n: nat) returns (longer: seq<Event>)
    requires Run(events).drain.Filling? && |Run(events).drain.samples| + n <= BATCH_SIZE && n <= |Run(events).queue|
    ensures Grown(events, longer, 0 - n, n, 0)
    ensures Run(longer).drain.Filling? && Run(longer).drain.consumed == Run(events).drain.consumed
    ensures |Run(longer).drain.samples| == |Run(events).drain.samples| + n
    decreases n
  {
    longer := events;
    if n > 0 {
      longer := One(events, PopOne);
      longer := Take(longer, n - 1);
    }
  }

  /** A batch that is full or has emptied the queue is closed and published. */
  lemma Close(events: seq<Event>) returns (longer: seq<Event>)
    requires Run(events).drain.Filling? && Run(events).drain.samples != []
    requires |Run(events).drain.samples| == BATCH_SIZE || Run(events).queue == []
    ensures Grown(events, longer, 0, 0, 0)
    ensures Run(longer).drain == NextBatch(Run(events).drain.consumed + |Run(events).drain.samples|)
  {
    var d := Run(events).drain;
    var closed := One(events, PopOne);
    assert Run(closed).drain == Publishing(d.consumed + |d.samples|, d.samples);
    longer := One(closed, PublishBatch(true));
  }

  /** A batch of n records, filled and published. */
  lemma OneBatch(events: seq<Event>, n: nat) returns (longer: seq<Event>)
    requires Run(events).drain.NextBatch? && Run(events).drain.consumed < QUEUE_CAPACITY
    requires 0 < n <= BATCH_SIZE && n <= |Run(events).queue| && (n == BATCH_SIZE || n == |Run(events).queue|)
    ensures Grown(events, longer, 0 - n, n, 0) && Run(longer).drain == NextBatch(Run(events).drain.consumed + n)
  {
    var sliced := One(events, TakeSlice);
    var filled := Take(sliced, n);
    longer := Close(filled);
  }

  lemma {:induction false} FullBatches(events: seq<Event>, k: nat) returns (longer: seq<Event>)
    requires Run(events).drain.NextBatch? && k * BATCH_SIZE <= |Run(events).queue|
    requires Run(events).drain.consumed + k * BATCH_SIZE < QUEUE_CAPACITY
    ensures Grown(events, longer, 0 - k * BATCH_SIZE, k * BATCH_SIZE, 0)
    ensures Run(longer).drain == NextBatch(Run(events).drain.consumed + k * BATCH_SIZE)
    decreases k
  {
    longer := events;
    if k > 0 {
      longer := OneBatch(events, BATCH_SIZE);
      longer := FullBatches(longer, k - 1);
    }
  }

  /** A trial is running when the callback begins, or begins with it. */
  lemma Opened(events: seq<Event>) returns (longer: seq<Event>)
    requires Run(events).drain == Waiting && (Run(events).running || Run(events).ready)
    ensures Continues(events + [Timer], longer)
    ensures Run(longer).drain == NextBatch(0) && Run(longer).running && |Run(longer).queue| == |Run(events).queue|
    ensures Taken(longer) == 0 && Offered(longer) == |Run(events).queue|
  {
    RunInv(events);
    longer := events + [Timer];
    CallbackBegins(events);
    if !Run(events).running {
      var id := Run(events).trial + 1;
      OneMore(longer, Begin(id));
      longer := longer + [Begin(id)];
    }
  }

  /** One record less than the capacity is drained to the last, and then others
      arrive: the last batch takes up to a whole one beyond the capacity. */
  lemma Overrun(events: seq<Event>, extra: nat) returns (longer: seq<Event>)
    requires Run(events).drain == Waiting && (Run(events).running || Run(events).ready)
    requires |Run(events).queue| < QUEUE_CAPACITY && 0 < extra < BATCH_SIZE
    ensures Continues(events + [Timer], longer)
    ensures Taken(longer) == Offered(longer) == QUEUE_CAPACITY + extra
  {
    longer := Opened(events);
    longer := Arrive(longer, QUEUE_CAPACITY - 1 - |Run(events).queue|);
    longer := FullBatches(longer, 31);
    longer := OneBatch(longer, 255);
    longer := Arrive(longer, extra + 1);
    longer := OneBatch(longer, extra + 1);
  }

  /** The callback that is about to begin can take more than the capacity while no
      more than these records arrive. */
  ghost predicate CanOverrun(events: seq<Event>, arrivals: nat) {
    exists longer ::
      && Continues(events + [Timer], longer)
      && Offered(longer) <= |Run(events).queue| + arrivals
      && Taken(longer) > QUEUE_CAPACITY
  }

  /** With a full queue no batch is found short. */
  lemma {:induction false} FullQueueLacksNothing(events: seq<Event>, longer: seq<Event>)
    requires Run(events).drain == Waiting && |Run(events).queue| == QUEUE_CAPACITY
    requires Continues(events + [Timer], longer)
    ensures Lacking(longer) == 0 && Offered(longer) >= QUEUE_CAPACITY
    decreases |longer|
  {
    if longer == events + [Timer] {
      CallbackBegins(events);
    } else {
      var before, e := Split(events + [Timer], longer);
      FullQueueLacksNothing(events, before);
      LacksNoMore(before, e);
    }
  }

  lemma CallbackBegins(events: seq<Event>)
    requires Run(events).drain == Waiting
    ensures var longer := events + [Timer];
            && Run(longer) == Run(events).(drain := NextBatch(0))
            && Taken(longer) == Lacking(longer) == 0 && Offered(longer) == |Run(events).queue|
  {
    RunStep(events, Timer);
    assert (events + [Timer])[..|events|] == events;
  }

  lemma Split(events: seq<Event>, longer: seq<Event>) returns (before: seq<Event>, e: Event)
    requires Continues(events, longer) && longer != events
    ensures Continues(events, before) && e != Timer && longer == before + [e]
  {
    before, e := longer[..|longer| - 1], longer[|longer| - 1];
  }

  lemma LacksNoMore(events: seq<Event>, e: Event)
    requires e != Timer && Lacking(events) == 0 && Offered(events) >= QUEUE_CAPACITY
    ensures Lacking(events + [e]) == 0 && Offered(events + [e]) >= QUEUE_CAPACITY
  {
    WorkCounted(events);
    NotShort(Run(events), e, Taken(events), Offered(events), Batches(events));
    assert (events + [e])[..|events|] == events;
  }

  lemma NotShort(s: Pipe, e: Event, taken: nat, offered: nat, batches: nat)
    requires Counts(s.drain, |s.queue|, taken, offered, 0, batches) && offered >= QUEUE_CAPACITY
    ensures Shortfall(s, e) == 0
  {
    if e == PopOne && s.drain.Filling? && s.queue == [] {
      assert s.drain.consumed == BATCH_SIZE * batches;
      assert batches < 32;
    }
  }

  /** With no trial running and none able to begin, nothing arrives until the
      callback is over. */
  lemma {:induction false} NothingArrives(events: seq<Event>, longer: seq<Event>)
    requires Run(events).drain == Waiting && !Run(events).running && !Run(events).ready
    requires Continues(events + [Timer], longer)
    ensures Taken(longer) <= |Run(events).queue|
    ensures Run(longer).drain != Waiting ==> Offered(longer) == |Run(events).queue| && Quiet(Run(longer))
    decreases |longer|
  {
    if longer == events + [Timer] {
      CallbackBegins(events);
    } else {
      var before, e := Split(events + [Timer], longer);
      NothingArrives(events, before);
      OneMore(before, e);
      StaysQuiet(Run(before), e);
      WorkBounded(longer);
    }
  }

  predicate Quiet(s: Pipe) {
    !s.running && !s.ready
  }

  lemma OneMore(events: seq<Event>, e: Event)
    requires e != Timer
    ensures var longer := events + [e];
            && Run(longer) == Next(Run(events), e)
            && Taken(longer) == Taken(events) + (if Takes(Run(events), e) then 1 else 0)
            && Offered(longer) == Offered(events) + (if Accepts(Run(events), e) then 1 else 0)
  {
    RunStep(events, e);
    assert (events + [e])[..|events|] == events;
  }

  lemma StaysQuiet(s: Pipe, e: Event)
    requires e != Timer
    ensures s.drain == Waiting ==> Next(s, e).drain == Waiting && !Takes(s, e)
    ensures Quiet(s) ==> !Accepts(s, e) && (Next(s, e).drain != Waiting ==> Quiet(Next(s, e)))
  {
  }

  /** Whether a callback can take more than the capacity is decided when it begins:
      a trial must be running or able to begin, the queue must not be full, and
      what arrives meanwhile must make more than the capacity. */
  lemma OverrunsExactlyWhen(events: seq<Event>, arrivals: nat)
    requires Run(events).drain == Waiting
    ensures CanOverrun(events, arrivals) <==>
              && (Run(events).running || Run(events).ready)
              && |Run(events).queue| < QUEUE_CAPACITY < |Run(events).queue| + arrivals
  {
    if CanOverrun(events, arrivals) {
      var longer :| && Continues(events + [Timer], longer)
                    && Offered(longer) <= |Run(events).queue| + arrivals
                    && Taken(longer) > QUEUE_CAPACITY;
      OverrunOnlyWhen(events, longer);
    }
    if (Run(events).running || Run(events).ready) && |Run(events).queue| < QUEUE_CAPACITY {
      var longer := Overrun(events, 1);
    }
  }

  lemma OverrunOnlyWhen(events: seq<Event>, longer: seq<Event>)
    requires Run(events).drain == Waiting
    requires Continues(events + [Timer], longer) && Taken(longer) > QUEUE_CAPACITY
    ensures (Run(events).running || Run(events).ready) && |Run(events).queue| < QUEUE_CAPACITY < Offered(longer)
  {
    WorkCounted(events);
    WorkBounded(longer);
    if |Run(events).queue| == QUEUE_CAPACITY {
      FullQueueStays(events, longer);
    }
    if !Run(events).running && !Run(events).ready {
      NothingArrives(events, longer);
    }
  }

  /** A callback that begins with a full queue stays within the capacity. */
  lemma FullQueueStays(events: seq<Event>, longer: seq<Event>)
    requires Run(events).drain == Waiting && |Run(events).queue| == QUEUE_CAPACITY
    requires Continues(events + [Timer], longer)
    ensures Taken(longer) <= QUEUE_CAPACITY
  {
    FullQueueLacksNothing(events, longer);
    WorkCounted(longer);
    WithoutLack(Run(longer).drain, |Run(longer).queue|, Taken(longer), Offered(longer), Batches(longer));
  }

  lemma WithoutLack(d: Drain, queue: nat, taken: nat, offered: nat, batches: nat)
    requires Counts(d, queue, taken, offered, 0, batches)
    ensures taken <= QUEUE_CAPACITY
  {
    if d.Filling? {
      assert batches < 32;
    }
  }

  /** The bound is tight: some callback takes one batch less one record beyond the
      capacity. */
  lemma WorkReaches() returns (events: seq<Event>)
    ensures Taken(events) == QUEUE_CAPACITY + BATCH_SIZE - 1
  {
    events := Overrun([], BATCH_SIZE - 1);
  }
}
