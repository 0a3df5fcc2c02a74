/** The receiver against a delivery that loses nothing: fed a trial's batches and
    status in the order of their publication, it drains exactly when the trial is
    one it is meant to accept. */
module TrialDelivery {
  import opened ControlTypes
  import opened CaptureRing
  import opened Options
  import P = TelemetryPipeline
  import opened TrialReceiver

  // ----- the loss counts of a batch never exceed those of its trial's status -----

  ghost predicate Counts(batches: seq<P.Batch>, trial: nat, drops: nat, failed: nat) {
    forall b :: b in batches && b.samples != [] && b.samples[0].trial == trial ==>
      b.dropped <= drops && b.failed <= failed
  }

  ghost predicate Tallied(s: P.Pipe) {
    && Counts(s.batches, s.trial, s.drops, P.Failed(s))
    && (forall st :: st in s.statuses ==> Counts(s.batches, st.trial, st.dropped, st.failed))
    && (s.statusPending ==> Counts(s.batches, s.pendingStatus.trial, s.pendingStatus.dropped, s.pendingStatus.failed))
  }

  lemma BeginTallied(s: P.Pipe, id: nat)
    requires P.Inv(s) && Tallied(s)
    ensures Tallied(P.BeginTrial(s, id))
  {
  }

  /** A status already published is about an earlier trial than the one at work. */
  lemma ReportedEarlier(s: P.Pipe, st: P.Status)
    requires P.Inv(s) && !s.ready && st in s.statuses
    ensures st.trial < s.trial
  {
  }

  lemma CountsWith(batches: seq<P.Batch>, b: P.Batch, trial: nat, drops: nat, failed: nat)
    requires Counts(batches, trial, drops, failed)
    requires b.samples != [] && b.samples[0].trial == trial ==> b.dropped <= drops && b.failed <= failed
    ensures Counts(batches + [b], trial, drops, failed)
  {
  }

  lemma PublishTallied(s: P.Pipe, ok: bool)
    requires P.Inv(s) && Tallied(s) && s.drain.Publishing?
    ensures Tallied(P.Next(s, P.PublishBatch(ok)))
  {
    var failures := if s.consumerTrial != s.trial then 0 else s.failures;
    var b := P.Batch(s.drain.samples, s.drops, failures);
    assert b.samples[0].trial == s.trial && !s.ready;
    assert Counts(s.batches, s.trial, s.drops, failures);
    CountsWith(s.batches, b, s.trial, s.drops, failures);
    forall st | st in s.statuses ensures Counts(s.batches + [b], st.trial, st.dropped, st.failed) {
      ReportedEarlier(s, st);
      CountsWith(s.batches, b, st.trial, st.dropped, st.failed);
    }
  }

  lemma TerminalTallied(s: P.Pipe)
    requires P.Inv(s) && Tallied(s)
    ensures Tallied(P.Next(s, P.TakeTerminal))
  {
  }

  lemma KeepsTallied(s: P.Pipe, e: P.Event)
    requires P.Inv(s) && Tallied(s)
    ensures Tallied(P.Next(s, e))
  {
    match e
    case Begin(id) => BeginTallied(s, id);
    case PublishBatch(ok) => if s.drain.Publishing? { PublishTallied(s, ok); }
    case TakeTerminal => TerminalTallied(s);
    case _ =>
  }

  lemma {:induction false} RunTallied(events: seq<P.Event>)
    ensures Tallied(P.Run(events))
  {
    if events != [] {
      P.RunInv(events[..|events| - 1]);
      RunTallied(events[..|events| - 1]);
      KeepsTallied(P.Run(events[..|events| - 1]), events[|events| - 1]);
    }
  }

  // ----- an acceptable trial -----

  /** Each sample valid and finite, source time moving on by at most the gap, except
      that the second sample may carry the time of the first. */
  ghost predicate AcceptableAt(log: seq<CaptureRecord>, gapNs: int, i: nat)
    requires i < |log|
  {
    && log[i].state.valid
    && log[i].state.fault == NoFault
    && FiniteFields(log[i])
    && (i > 0 ==>
          var step := log[i].state.measured.timeNs - log[i - 1].state.measured.timeNs;
          0 <= step <= gapNs && (step == 0 ==> i == 1))
  }

  ghost predicate Acceptable(log: seq<CaptureRecord>, maximumSamples: nat, gapNs: int) {
    && |log| <= maximumSamples
    && forall i {:trigger AcceptableAt(log, gapNs, i)} :: 0 <= i < |log| ==> AcceptableAt(log, gapNs, i)
  }

  /** The receiver has accepted the first n samples of the log and nothing else. */
  ghost predicate Holds(r: Receiver, log: seq<CaptureRecord>, n: nat) {
    && n == |r.rows| <= |log|
    && r.error == NoError
    && r.dropped == 0
    && r.terminal.None?
    && forall i :: 0 <= i < n ==> r.rows[i] == RowOf(log[i])
  }

  lemma VerdictIs(r: Receiver, log: seq<CaptureRecord>, n: nat)
    requires Holds(r, log, n) && n < |log| && P.IsLog(log, r.trial)
    ensures Verdict(r, log[n]) == NoError <==> n < r.maximumSamples && AcceptableAt(log, r.maximumGapNs, n)
  {
  }

  /** Fed the rest of the log, it ends holding all of it or with an error. */
  lemma {:induction false} AcceptsExactly(r: Receiver, log: seq<CaptureRecord>, n: nat)
    requires Holds(r, log, n) && P.IsLog(log, r.trial)
    requires n <= r.maximumSamples && forall i {:trigger AcceptableAt(log, r.maximumGapNs, i)} ::
               0 <= i < n ==> AcceptableAt(log, r.maximumGapNs, i)
    ensures var r' := AcceptAll(r, log[n..]);
            if Acceptable(log, r.maximumSamples, r.maximumGapNs) then Holds(r', log, |log|)
            else r'.error != NoError && r'.terminal.None?
    decreases |log| - n
  {
    if n < |log| {
      VerdictIs(r, log, n);
      assert log[n..][0] == log[n] && log[n..][1..] == log[n + 1..];
      var next := Accept(r, log[n]);
      if next.error == NoError {
        AcceptsExactly(next, log, n + 1);
      } else {
        assert !Acceptable(log, r.maximumSamples, r.maximumGapNs);
      }
    } else {
      assert log[n..] == [];
    }
  }

  // ----- delivery in order -----

  /** The batches of one trial in the order they were published. */
  function BatchesOf(batches: seq<P.Batch>, trial: nat): seq<Delivery> {
    if batches == [] then [] else
    var b := batches[|batches| - 1];
    BatchesOf(batches[..|batches| - 1], trial) +
    (if b.samples != [] && b.samples[0].trial == trial then [Telemetry(b)] else [])
  }

  function InOrder(batches: seq<P.Batch>, st: P.Status): seq<Delivery> {
    BatchesOf(batches, st.trial) + [Terminal(st)]
  }

  lemma {:induction false} BatchesGenuine(batches: seq<P.Batch>, trial: nat)
    ensures forall d :: d in BatchesOf(batches, trial) ==> d.Telemetry? && d.batch in batches
  {
    if batches != [] {
      BatchesGenuine(batches[..|batches| - 1], trial);
    }
  }

  lemma {:induction false} AcceptJoined(r: Receiver, a: seq<CaptureRecord>, b: seq<CaptureRecord>)
    ensures AcceptAll(r, a + b) == AcceptAll(AcceptAll(r, a), b)
    decreases |a|
  {
    if a == [] {
      assert a + b == b;
    } else if r.error == NoError {
      assert (a + b)[1..] == a[1..] + b;
      AcceptJoined(Accept(r, a[0]), a[1..], b);
    }
  }

  lemma {:induction false} DroppedKept(r: Receiver, samples: seq<CaptureRecord>)
    ensures AcceptAll(r, samples).dropped == r.dropped
    decreases |samples|
  {
    if samples != [] && r.error == NoError {
      DroppedKept(Accept(r, samples[0]), samples[1..]);
    }
  }

  /** Batches without losses amount to their samples in one piece. */
  lemma {:induction false} InOnePiece(r: Receiver, batches: seq<P.Batch>, trial: nat)
    requires r.dropped == 0 && Counts(batches, trial, 0, 0)
    ensures DeliverAll(r, BatchesOf(batches, trial)) == AcceptAll(r, P.Delivered(batches, trial))
  {
    if batches != [] {
      var front, b := batches[..|batches| - 1], batches[|batches| - 1];
      assert b in batches;
      InOnePiece(r, front, trial);
      if b.samples != [] && b.samples[0].trial == trial {
        var ds := BatchesOf(batches, trial);
        assert ds[..|ds| - 1] == BatchesOf(front, trial) && ds[|ds| - 1] == Telemetry(b);
        AcceptJoined(r, P.Delivered(front, trial), b.samples);
        DroppedKept(r, P.Delivered(front, trial));
      } else {
        assert BatchesOf(batches, trial) == BatchesOf(front, trial);
        assert P.Delivered(batches, trial) == P.Delivered(front, trial);
      }
    }
  }

  lemma BehindCounts(shown: seq<P.Batch>, exact: seq<P.Batch>, trial: nat, drops: nat, failed: nat)
    requires P.Behind(shown, exact) && Counts(exact, trial, drops, failed)
    ensures Counts(shown, trial, drops, failed)
  {
    forall b | b in shown && b.samples != [] && b.samples[0].trial == trial
      ensures b.dropped <= drops && b.failed <= failed
    {
      var i :| 0 <= i < |shown| && shown[i] == b;
      assert P.BatchBehind(shown[i], exact[i]);
    }
  }

  lemma BehindGenuine(shown: seq<P.Batch>, s: P.Pipe, b: P.Batch)
    requires P.Behind(shown, s.batches) && b in shown
    ensures GenuineDelivery(s, Telemetry(b))
  {
    var i :| 0 <= i < |shown| && shown[i] == b;
    assert P.BatchBehind(shown[i], s.batches[i]);
  }

  /** What drains a receiver that gets these batches and then the status. */
  lemma DrainsOnLog(shown: seq<P.Batch>, st: P.Status, log: seq<CaptureRecord>, maximumSamples: nat, gapNs: int)
    requires Counts(shown, st.trial, 0, 0) && P.Delivered(shown, st.trial) == log && P.IsLog(log, st.trial)
    requires st.completed && st.successful && st.captureComplete && st.dropped == 0 && st.failed == 0
    requires st.finalSequence == |log|
    ensures DeliverAll(Fresh(st.trial, maximumSamples, gapNs), InOrder(shown, st)).Drained()
            <==> Acceptable(log, maximumSamples, gapNs)
  {
    var r0 := Fresh(st.trial, maximumSamples, gapNs);
    InOnePiece(r0, shown, st.trial);
    assert log[0..] == log;
    AcceptsExactly(r0, log, 0);
    var ds := InOrder(shown, st);
    assert ds[..|ds| - 1] == BatchesOf(shown, st.trial);
    TrialKept(r0, BatchesOf(shown, st.trial));
    DroppedKept(r0, log);
  }

  /** The other half of the promise: a trial that ended well drains if and only if
      its log is acceptable, whatever dropped counts its batches showed meanwhile. */
  lemma CompleteTrialDrains(events: seq<P.Event>, shown: seq<P.Batch>, st: P.Status, maximumSamples: nat, gapNs: int)
    requires st in P.Run(events).statuses && P.Behind(shown, P.Run(events).batches)
    requires st.completed && st.successful && st.captureComplete && st.finalSequence > 0
    ensures var s := P.Run(events);
            && st.trial in s.samples
            && (forall d :: d in InOrder(shown, st) ==> GenuineDelivery(s, d))
            && (DeliverAll(Fresh(st.trial, maximumSamples, gapNs), InOrder(shown, st)).Drained()
                <==> Acceptable(s.samples[st.trial], maximumSamples, gapNs))
  {
    var s := P.Run(events);
    P.RunInv(events);
    RunTallied(events);
    assert P.StatusIs(s.samples, s.batches, st);
    BehindCounts(shown, s.batches, st.trial, 0, 0);
    P.DeliveredAlike(shown, s.batches, st.trial);
    DrainsOnLog(shown, st, s.samples[st.trial], maximumSamples, gapNs);
    BatchesGenuine(shown, st.trial);
    forall d | d in InOrder(shown, st) ensures GenuineDelivery(s, d) {
      if d.Telemetry? {
        BehindGenuine(shown, s, d.batch);
      }
    }
  }
}
