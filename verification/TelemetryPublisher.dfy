/** The publisher object: the producer's calls pass to the capture, and the timer's
    callback drains it.  Each is a run of the pipeline's events that nothing
    interrupts. */
module TelemetryPublisher {
  import opened ControlTypes
  import opened IntArithmetic
  import opened Options
  import opened CaptureRing
  import opened Capture
  import P = TelemetryPipeline

  /** The events lead from one state to the other. */
  ghost predicate Leads(s: P.Pipe, events: seq<P.Event>, s': P.Pipe)
    decreases |events|
  {
    if events == [] then s == s' else Leads(P.Next(s, events[0]), events[1..], s')
  }

  lemma LeadsOne(s: P.Pipe, e: P.Event)
    ensures Leads(s, [e], P.Next(s, e))
  {
  }

  lemma {:induction false} LeadsOn(s: P.Pipe, a: seq<P.Event>, s': P.Pipe, b: seq<P.Event>, s'': P.Pipe)
    requires Leads(s, a, s') && Leads(s', b, s'')
    ensures Leads(s, a + b, s'')
    decreases |a|
  {
    if a == [] {
      assert a + b == b;
    } else {
      assert (a + b)[1..] == a[1..] + b;
      LeadsOn(P.Next(s, a[0]), a[1..], s', b, s'');
    }
  }

  /** Publishing the k-th batch of a callback succeeds or throws. */
  function Succeeds(outcomes: seq<bool>, k: nat): bool {
    if k < |outcomes| then outcomes[k] else true
  }

  class Publisher {
    const capture: CaptureBuffer
    var ready: bool
    var consumerTrial: nat
    var failures: nat
    var statusPending: bool
    var pendingStatus: P.Status
    ghost var drain: P.Drain
    ghost var begun: seq<nat>
    ghost var samples: map<nat, seq<CaptureRecord>>
    ghost var batches: seq<P.Batch>
    ghost var thrown: seq<P.Batch>
    ghost var statuses: seq<P.Status>

    ghost predicate Valid()
      reads this, capture, capture.records
    {
      capture.Valid() && capture.capacity == P.QUEUE_CAPACITY
    }

    ghost function View(): P.Pipe
      reads this, capture, capture.records
      requires Valid()
    {
      P.Pipe(capture.Queue(), capture.running, capture.trial, capture.drops, capture.last, capture.terminalPending,
             capture.terminal, ready, drain, consumerTrial, failures, statusPending, pendingStatus, begun, samples,
             batches, thrown, statuses)
    }

    constructor ()
      ensures Valid() && fresh(capture) && fresh(capture.records)
      ensures View() == P.IDLE_PIPE
    {
      capture := new CaptureBuffer(P.QUEUE_CAPACITY);
      ready, consumerTrial, failures, statusPending, pendingStatus := true, 0, 0, false, P.NO_STATUS;
      drain, begun, samples, batches, thrown, statuses := P.Waiting, [], map[], [], [], [];
    }

    /** With the ids its callers use, which increase, it is an event of the pipeline. */
    method Begin(id: nat) returns (ok: bool)
      requires Valid()
      modifies this, capture
      ensures Valid() && View() == P.StartTrial(old(View()), id)
      ensures id > old(capture.trial) ==> View() == P.Next(old(View()), P.Begin(id))
      ensures ok == (id != 0 && old(ready) && !old(capture.running) && !old(capture.terminalPending))
    {
      if !ready {
        return false;
      }
      ready := false;
      ok := capture.Begin(id);
      if ok {
        begun := begun + [id];
        samples := samples[id := []];
      } else {
        ready := true;
      }
    }

    method Sample(state: Snapshot)
      requires Valid()
      modifies this, capture, capture.records
      ensures Valid() && View() == P.Next(old(View()), P.Sample(state))
    {
      ghost var before := View();
      capture.Append(state);
      if before.running {
        samples := samples[capture.trial := P.LogOf(before) + [capture.last]];
      }
    }

    method Finish(completed: bool)
      requires Valid()
      modifies capture
      ensures Valid() && View() == P.Next(old(View()), P.Finish(completed))
    {
      capture.Finish(completed);
    }

    method OpenSlice()
      requires Valid() && drain.NextBatch? && drain.consumed < P.QUEUE_CAPACITY
      modifies `drain
      ensures Valid() && View() == P.Next(old(View()), P.TakeSlice)
      ensures drain == P.Filling(old(drain).consumed, [])
    {
      drain := P.Filling(drain.consumed, []);
    }

    method TakeRecord(batch: seq<CaptureRecord>) returns (r: Option<CaptureRecord>)
      requires Valid() && drain.Filling? && drain.samples == batch && |batch| < P.BATCH_SIZE
      modifies `drain, capture
      ensures Valid()
      ensures r.None? ==> View() == old(View()) && capture.Queue() == []
      ensures r.Some? ==> View() == P.Next(old(View()), P.PopOne)
                          && drain == P.Filling(old(drain).consumed, batch + [r.value])
                          && old(capture.Queue()) == [r.value] + capture.Queue()
    {
      r := capture.Pop();
      if r.Some? {
        drain := P.Filling(drain.consumed, batch + [r.value]);
      }
    }

    method CloseSlice(batch: seq<CaptureRecord>)
      requires Valid() && drain.Filling? && drain.samples == batch
      requires |batch| >= P.BATCH_SIZE || capture.Queue() == []
      modifies `drain
      ensures Valid() && View() == P.Next(old(View()), P.PopOne)
      ensures drain == if batch == [] then P.Completing else P.Publishing(old(drain).consumed + |batch|, batch)
    {
      drain := if batch == [] then P.Completing else P.Publishing(drain.consumed + |batch|, batch);
    }

    /** The inner loop: records are popped until the batch is full or the queue empty. */
    method PopSome() returns (batch: seq<CaptureRecord>, ghost steps: seq<P.Event>)
      requires Valid() && drain.Filling? && drain.samples == []
      modifies `drain, capture
      ensures Valid() && Leads(old(View()), steps, View()) && OnlyTimer(steps)
      ensures drain == P.Filling(old(drain).consumed, batch)
      ensures |batch| == P.BATCH_SIZE || capture.Queue() == []
      ensures |old(capture.Queue())| == |batch| + |capture.Queue()|
    {
      batch, steps := [], [];
      while |batch| < P.BATCH_SIZE
        invariant Valid() && |batch| <= P.BATCH_SIZE && OnlyTimer(steps)
        invariant Leads(old(View()), steps, View())
        invariant drain == P.Filling(old(drain).consumed, batch)
        invariant |old(capture.Queue())| == |batch| + |capture.Queue()|
        decreases P.BATCH_SIZE - |batch|
      {
        ghost var before := View();
        var r := TakeRecord(batch);
        if r.None? {
          return;
        }
        batch := batch + [r.value];
        LeadsOne(before, P.PopOne);
        LeadsOn(old(View()), steps, before, [P.PopOne], View());
        steps := steps + [P.PopOne];
      }
    }

    method Fill() returns (batch: seq<CaptureRecord>, ghost steps: seq<P.Event>)
      requires Valid() && drain.NextBatch? && drain.consumed < P.QUEUE_CAPACITY
      modifies `drain, capture
      ensures Valid() && Leads(old(View()), steps, View()) && OnlyTimer(steps)
      ensures drain == if batch == [] then P.Completing else P.Publishing(old(drain).consumed + |batch|, batch)
      ensures |old(capture.Queue())| == |batch| + |capture.Queue()| && (batch == [] ==> capture.Queue() == [])
    {
      OpenSlice();
      ghost var begunSlice := View();
      batch, steps := PopSome();
      ghost var filled := View();
      CloseSlice(batch);
      LeadsOne(old(View()), P.TakeSlice);
      LeadsOn(old(View()), [P.TakeSlice], begunSlice, steps, filled);
      LeadsOne(filled, P.PopOne);
      LeadsOn(old(View()), [P.TakeSlice] + steps, filled, [P.PopOne], View());
      steps := [P.TakeSlice] + steps + [P.PopOne];
    }

    method PublishBatch(batch: seq<CaptureRecord>, ok: bool)
      requires Valid() && batch != [] && drain.Publishing? && drain.samples == batch
      modifies this
      ensures Valid() && View() == P.Next(old(View()), P.PublishBatch(ok)) && drain == P.NextBatch(old(drain).consumed)
    {
      if consumerTrial != batch[0].trial {
        consumerTrial, failures := batch[0].trial, 0;
      }
      var message := P.Batch(batch, capture.drops, failures);
      if ok {
        batches := batches + [message];
      } else {
        thrown := thrown + [message];
        failures := failures + |batch|;
      }
      drain := P.NextBatch(drain.consumed);
    }

    method EndBatches()
      requires Valid() && drain.NextBatch? && drain.consumed >= P.QUEUE_CAPACITY
      modifies `drain
      ensures Valid() && View() == P.Next(old(View()), P.TakeSlice) && drain == P.Completing
    {
      drain := P.Completing;
    }

    method Complete()
      requires Valid() && drain == P.Completing
      modifies `pendingStatus, `statusPending, `drain, capture
      ensures Valid() && View() == P.Next(old(View()), P.TakeTerminal) && drain == P.Reporting
      ensures capture.Queue() == old(capture.Queue()) && (capture.Queue() == [] ==> !capture.terminalPending)
    {
      var done := capture.TakeCompletion();
      if done.Some? {
        pendingStatus := P.StatusOf(done.value, failures);
        statusPending := true;
      }
      drain := P.Reporting;
    }

    method Report(ok: bool)
      requires Valid() && drain == P.Reporting
      modifies `statusPending, `ready, `drain, `statuses
      ensures Valid() && View() == P.Next(old(View()), P.PublishStatus(ok)) && drain == P.Waiting
      ensures ok ==> !statusPending
    {
      if statusPending && ok {
        statuses := statuses + [pendingStatus];
        statusPending := false;
        ready := true;
      }
      drain := P.Waiting;
    }

    method Wake()
      requires Valid() && drain == P.Waiting
      modifies `drain
      ensures Valid() && View() == P.Next(old(View()), P.Timer) && drain == P.NextBatch(0)
    {
      drain := P.NextBatch(0);
    }

    /** The batch loop.  Uninterrupted, it empties the queue and so takes no more than
        the capacity. */
    method PublishAll(outcomes: seq<bool>) returns (ghost steps: seq<P.Event>)
      requires Valid() && drain == P.NextBatch(0)
      modifies this, capture
      ensures Valid() && Leads(old(View()), steps, View()) && OnlyTimer(steps) && drain == P.Completing
      ensures capture.Queue() == [] && |old(capture.Queue())| <= P.QUEUE_CAPACITY
    {
      var consumed, k := 0, 0;
      steps := [];
      while consumed < P.QUEUE_CAPACITY
        invariant Valid() && OnlyTimer(steps)
        invariant Leads(old(View()), steps, View())
        invariant drain == P.NextBatch(consumed)
        invariant consumed + |capture.Queue()| == |old(capture.Queue())| <= P.QUEUE_CAPACITY
        decreases P.QUEUE_CAPACITY - consumed
      {
        ghost var before := View();
        var batch;
        ghost var more;
        batch, more := Slice(Succeeds(outcomes, k));
        LeadsOn(old(View()), steps, before, more, View());
        steps := steps + more;
        if batch == [] {
          return;
        }
        consumed := consumed + |batch|;
        k := k + 1;
      }
      ghost var last := View();
      EndBatches();
      LeadsOne(last, P.TakeSlice);
      LeadsOn(old(View()), steps, last, [P.TakeSlice], View());
      steps := steps + [P.TakeSlice];
    }

    /** One batch, filled and published. */
    method Slice(ok: bool) returns (batch: seq<CaptureRecord>, ghost steps: seq<P.Event>)
      requires Valid() && drain.NextBatch? && drain.consumed < P.QUEUE_CAPACITY
      modifies this, capture
      ensures Valid() && Leads(old(View()), steps, View()) && OnlyTimer(steps)
      ensures drain == if batch == [] then P.Completing else P.NextBatch(old(drain).consumed + |batch|)
      ensures |old(capture.Queue())| == |batch| + |capture.Queue()| && (batch == [] ==> capture.Queue() == [])
    {
      batch, steps := Fill();
      if batch != [] {
        ghost var filled := View();
        PublishBatch(batch, ok);
        LeadsOne(filled, P.PublishBatch(ok));
        LeadsOn(old(View()), steps, filled, [P.PublishBatch(ok)], View());
        steps := steps + [P.PublishBatch(ok)];
      }
    }

    /** The terminal and the status that follow the batches. */
    method Conclude(ok: bool)
      requires Valid() && drain == P.Completing
      modifies this, capture
      ensures Valid() && Leads(old(View()), [P.TakeTerminal] + [P.PublishStatus(ok)], View()) && drain == P.Waiting
      ensures capture.Queue() == old(capture.Queue()) && (capture.Queue() == [] ==> !capture.terminalPending)
      ensures ok ==> !statusPending
    {
      Complete();
      ghost var completed := View();
      Report(ok);
      LeadsOne(old(View()), P.TakeTerminal);
      LeadsOne(completed, P.PublishStatus(ok));
      LeadsOn(old(View()), [P.TakeTerminal], completed, [P.PublishStatus(ok)], View());
    }

    /** The whole callback, whichever of its publications throw.  Uninterrupted, it
        takes all that is queued, which is no more than the capacity, and leaves
        neither a terminal waiting nor a status that could be published. */
    method Drain(outcomes: seq<bool>, statusOk: bool) returns (ghost steps: seq<P.Event>)
      requires Valid() && drain == P.Waiting
      modifies this, capture
      ensures Valid() && Leads(old(View()), steps, View()) && OnlyTimer(steps) && drain == P.Waiting
      ensures capture.Queue() == [] && |old(capture.Queue())| <= P.QUEUE_CAPACITY
      ensures !capture.terminalPending && (statusOk ==> !statusPending)
    {
      Wake();
      ghost var woken := View();
      steps := PublishAll(outcomes);
      ghost var published := View();
      Conclude(statusOk);
      LeadsOne(old(View()), P.Timer);
      LeadsOn(old(View()), [P.Timer], woken, steps, published);
      LeadsOn(old(View()), [P.Timer] + steps, published, [P.TakeTerminal] + [P.PublishStatus(statusOk)], View());
      steps := [P.Timer] + steps + ([P.TakeTerminal] + [P.PublishStatus(statusOk)]);
    }
  }

  /** Events of the timer's callback alone. */
  ghost predicate OnlyTimer(steps: seq<P.Event>) {
    forall i :: 0 <= i < |steps| ==> !steps[i].Begin? && !steps[i].Sample? && !steps[i].Finish?
  }

  /** So what is proved of every run of events is true of the object: a callback
      leads from a state that a run reaches to another such state. */
  lemma {:induction false} CallbackReachable(events: seq<P.Event>, steps: seq<P.Event>, s: P.Pipe)
    requires Leads(P.Run(events), steps, s)
    ensures s == P.Run(events + steps)
    decreases |steps|
  {
    if steps == [] {
      assert events + steps == events;
    } else {
      var longer, rest := events + [steps[0]], steps[1..];
      assert longer + rest == events + steps;
      P.RunStep(events, steps[0]);
      CallbackReachable(longer, rest, s);
    }
  }
}
