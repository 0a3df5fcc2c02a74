/** End to end: from the single loads and stores of the two capture threads to the
    receiver that accepts a trial. */
module ThreadDelivery {
  import opened ControlTypes
  import opened CaptureRing
  import P = TelemetryPipeline
  import opened PipelineRefinement
  import opened StatusMeaning
  import opened ThreadStatus
  import opened TrialReceiver
  import opened TrialDelivery

  /** Only what the threads published. */
  predicate Published(m: Threads, d: Delivery) {
    match d
    case Telemetry(b) => b in m.batches
    case Terminal(st) => st in m.statuses
  }

  lemma PublishedGenuine(m: Threads, s: P.Pipe, d: Delivery)
    requires Stands(m, s) && Published(m, d)
    ensures GenuineDelivery(s, d)
  {
    if d.Telemetry? {
      BehindGenuine(m.batches, s, d.batch);
    }
  }

  /** The central promise under every interleaving of the threads: however what they
      published is lost, repeated or reordered, a drained receiver holds every sample
      of the trial that they delivered, which are numbered from one to the last, nothing
      of it was dropped, and at k the producer finished it as completed. */
  lemma {:induction false} DrainedFromThreads(acts: seq<Act>, deliveries: seq<Delivery>, trial: nat,
      maximumSamples: nat, gapNs: int) returns (events: seq<P.Event>, k: nat)
    requires forall d :: d in deliveries ==> Published(Interleave(acts), d)
    requires DeliverAll(Fresh(trial, maximumSamples, gapNs), deliveries).Drained()
    ensures Stands(Interleave(acts), P.Run(events)) && trial in P.Run(events).samples
    ensures var r, log := DeliverAll(Fresh(trial, maximumSamples, gapNs), deliveries), P.Run(events).samples[trial];
            && r.rows == RowsOf(log) && P.IsLog(log, trial)
            && (forall i :: 0 <= i < |log| ==> IsRow(r.rows[i], log[i]))
            && r.dropped == 0 && r.terminal.value.dropped == 0 && r.terminal.value.failed == 0
            && P.Delivered(Interleave(acts).batches, trial) == log && LastState(log).valid
    ensures k < |acts| && CalledAt(acts, k, trial, true)
  {
    events := InterleavingIsRun(acts);
    var m, s := Interleave(acts), P.Run(events);
    forall d | d in deliveries ensures GenuineDelivery(s, d) {
      PublishedGenuine(m, s, d);
    }
    var f := DrainedIsComplete(events, deliveries, trial, maximumSamples, gapNs);
    P.RunInv(events);
    P.DeliveredAlike(m.batches, s.batches, trial);
    k := FinishedByCall(m, s, acts, deliveries, trial, maximumSamples, gapNs);
    if s.samples[trial] == [] {
      P.NoneDelivered(s.samples, s.batches, s.consumerTrial, trial);
    }
  }

  /** And a trial of theirs that ended well, delivered in order, drains if and only if
      the samples they delivered are acceptable. */
  lemma {:induction false} ThreadsTrialDrains(acts: seq<Act>, st: P.Status, maximumSamples: nat, gapNs: int)
    requires st in Interleave(acts).statuses
    requires st.completed && st.successful && st.captureComplete && st.finalSequence > 0
    ensures var m := Interleave(acts);
            && (forall d :: d in InOrder(m.batches, st) ==> Published(m, d))
            && (DeliverAll(Fresh(st.trial, maximumSamples, gapNs), InOrder(m.batches, st)).Drained()
                <==> Acceptable(P.Delivered(m.batches, st.trial), maximumSamples, gapNs))
  {
    var events := InterleavingIsRun(acts);
    var m, s := Interleave(acts), P.Run(events);
    CompleteTrialDrains(events, m.batches, st, maximumSamples, gapNs);
    P.StatusAccounts(events, st);
    P.DeliveredAlike(m.batches, s.batches, st.trial);
    BatchesGenuine(m.batches, st.trial);
  }

  /** The terminal that drained the receiver is one of theirs. */
  lemma {:induction false} FinishedByCall(m: Threads, s: P.Pipe, acts: seq<Act>, deliveries: seq<Delivery>, trial: nat,
      maximumSamples: nat, gapNs: int) returns (k: nat)
    requires m == Interleave(acts) && Stands(m, s)
    requires forall d :: d in deliveries ==> GenuineDelivery(s, d)
    requires DeliverAll(Fresh(trial, maximumSamples, gapNs), deliveries).Drained()
    ensures k < |acts| && CalledAt(acts, k, trial, true)
  {
    var r0 := Fresh(trial, maximumSamples, gapNs);
    DeliverAllFaithful(s, r0, deliveries);
    TrialKept(r0, deliveries);
    var events;
    k, events := StatusMeansOfThreads(acts, DeliverAll(r0, deliveries).terminal.value);
  }
}
