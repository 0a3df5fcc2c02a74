/** The receiving end of a trial: it accepts samples only in source order and
    without a flaw, and calls itself drained only with a good terminal status. */
module TrialReceiver {
  import opened ControlTypes
  import opened CaptureRing
  import opened Options
  import opened StatusMeaning
  import opened TelemetryPipeline

  datatype Error =
    | NoError
    | Overflow
    | UnexpectedTrial
    | OutOfOrder
    | CapacityExceeded
    | InvalidFeedback
    | NonFiniteSample
    | TimeRestarted
    | TimeGap
    | TerminalMismatch
    | Unsuccessful

  datatype Row = Row(
    sequence: nat,
    timeNs: int,
    phase: Phase,
    position: Num,
    velocity: Num,
    force: Num,
    referencePosition: Num,
    referenceVelocity: real,
    referenceAcceleration: real)

  function RowOf(m: CaptureRecord): Row {
    Row(m.sequence, m.state.measured.timeNs, m.state.phase, m.state.measured.position, m.state.measured.velocity,
        m.state.measured.force, m.state.referencePosition, m.state.referenceVelocity, m.state.referenceAcceleration)
  }

  predicate FiniteFields(m: CaptureRecord) {
    && m.state.measured.position.Finite?
    && m.state.measured.velocity.Finite?
    && m.state.measured.force.Finite?
    && m.state.referencePosition.Finite?
  }

  datatype Receiver = Receiver(
    trial: nat,
    maximumSamples: nat,
    maximumGapNs: int,
    rows: seq<Row>,
    error: Error,
    dropped: nat,
    finalSequence: nat,
    terminal: Option<Status>)
  {
    predicate Drained() {
      terminal.Some? && error == NoError && finalSequence == |rows|
    }
  }

  function Fresh(trial: nat, maximumSamples: nat, maximumGapNs: int): Receiver {
    Receiver(trial, maximumSamples, maximumGapNs, [], NoError, 0, 0, None)
  }

  /** The first objection to a sample, if any. */
  function Verdict(r: Receiver, m: CaptureRecord): Error {
    var ns := m.state.measured.timeNs;
    var n := |r.rows|;
    if m.trial != r.trial then UnexpectedTrial
    else if m.sequence != n + 1 then OutOfOrder
    else if n >= r.maximumSamples then CapacityExceeded
    else if !m.state.valid || m.state.fault != NoFault then InvalidFeedback
    else if !FiniteFields(m) then NonFiniteSample
    else if n > 0 && (ns < r.rows[n - 1].timeNs || (ns == r.rows[n - 1].timeNs && m.sequence != 2)) then TimeRestarted
    else if n > 0 && ns - r.rows[n - 1].timeNs > r.maximumGapNs then TimeGap
    else NoError
  }

  function Accept(r: Receiver, m: CaptureRecord): Receiver {
    if Verdict(r, m) == NoError then r.(rows := r.rows + [RowOf(m)]) else r.(error := Verdict(r, m))
  }

  function AcceptAll(r: Receiver, samples: seq<CaptureRecord>): Receiver
    decreases |samples|
  {
    if samples == [] || r.error != NoError then r else AcceptAll(Accept(r, samples[0]), samples[1..])
  }

  function Larger(a: nat, b: nat): nat {
    if a >= b then a else b
  }

  function Counted(r: Receiver, lost: nat): Receiver {
    var dropped := Larger(r.dropped, lost);
    r.(dropped := dropped, error := if dropped > 0 then Overflow else r.error)
  }

  function OnBatch(r: Receiver, b: Batch): Receiver {
    AcceptAll(Counted(r, b.dropped + b.failed), b.samples)
  }

  function OnStatus(r: Receiver, st: Status): Receiver {
    if st.trial != r.trial then r.(error := TerminalMismatch)
    else
      var dropped := Larger(r.dropped, st.dropped + st.failed);
      var good := st.completed && st.successful && st.captureComplete && dropped == 0;
      r.(terminal := Some(st), finalSequence := st.finalSequence, dropped := dropped,
         error := if good then r.error else Unsuccessful)
  }

  datatype Delivery = Telemetry(batch: Batch) | Terminal(status: Status)

  function Deliver(r: Receiver, d: Delivery): Receiver {
    match d
    case Telemetry(b) => OnBatch(r, b)
    case Terminal(st) => OnStatus(r, st)
  }

  function DeliverAll(r: Receiver, deliveries: seq<Delivery>): Receiver {
    if deliveries == [] then r
    else Deliver(DeliverAll(r, deliveries[..|deliveries| - 1]), deliveries[|deliveries| - 1])
  }

  /** The receiver object, which the callbacks of the coordinator feed. */
  class TrialCapture {
    const trial: nat
    const maximumSamples: nat
    const maximumGapNs: int
    var rows: seq<Row>
    var error: Error
    var dropped: nat
    var finalSequence: nat
    var terminal: Option<Status>

    function View(): Receiver
      reads this
    {
      Receiver(trial, maximumSamples, maximumGapNs, rows, error, dropped, finalSequence, terminal)
    }

    constructor (trial: nat, maximumSamples: nat, maximumGapNs: int)
      ensures View() == Fresh(trial, maximumSamples, maximumGapNs)
    {
      this.trial, this.maximumSamples, this.maximumGapNs := trial, maximumSamples, maximumGapNs;
      rows, error, dropped, finalSequence, terminal := [], NoError, 0, 0, None;
    }

    method ReceiveBatch(batch: Batch)
      modifies this
      ensures View() == OnBatch(old(View()), batch)
    {
      var lost := batch.dropped + batch.failed;
      if lost > dropped {
        dropped := lost;
      }
      if dropped > 0 {
        error := Overflow;
      }
      ghost var start := View();
      var i := 0;
      while i < |batch.samples| && error == NoError
        invariant i <= |batch.samples|
        invariant AcceptAll(start, batch.samples) == AcceptAll(View(), batch.samples[i..])
      {
        var m := batch.samples[i];
        assert batch.samples[i..][1..] == batch.samples[i + 1..];
        error := Objection(m);
        if error == NoError {
          rows := rows + [RowOf(m)];
        }
        i := i + 1;
      }
    }

    method Objection(m: CaptureRecord) returns (objection: Error)
      ensures objection == Verdict(View(), m)
    {
      var ns := m.state.measured.timeNs;
      if m.trial != trial {
        return UnexpectedTrial;
      } else if m.sequence != |rows| + 1 {
        return OutOfOrder;
      } else if |rows| >= maximumSamples {
        return CapacityExceeded;
      } else if !m.state.valid || m.state.fault != NoFault {
        return InvalidFeedback;
      } else if !FiniteFields(m) {
        return NonFiniteSample;
      }
      if rows != [] {
        var last := rows[|rows| - 1].timeNs;
        if ns < last || (ns == last && m.sequence != 2) {
          return TimeRestarted;
        } else if ns - last > maximumGapNs {
          return TimeGap;
        }
      }
      return NoError;
    }

    method ReceiveStatus(status: Status)
      modifies this
      ensures View() == OnStatus(old(View()), status)
    {
      if status.trial != trial {
        error := TerminalMismatch;
        return;
      }
      terminal := Some(status);
      finalSequence := status.finalSequence;
      if status.dropped + status.failed > dropped {
        dropped := status.dropped + status.failed;
      }
      if !(status.completed && status.successful && status.captureComplete) || dropped > 0 {
        error := Unsuccessful;
      }
    }
  }

  // ----- what it refuses -----

  predicate Lossy(st: Status) {
    st.dropped > 0 || st.failed > 0
  }

  /** A terminal of another trial is an error and nothing else; one of this trial is taken,
      and leaves no new error exactly if it is completed, successful and complete and no
      loss has been counted by it or before it. */
  lemma StatusTaken(r: Receiver, st: Status)
    ensures var r' := OnStatus(r, st);
            if st.trial != r.trial then r' == r.(error := TerminalMismatch)
            else
              && r'.terminal == Some(st) && r'.finalSequence == st.finalSequence && r'.rows == r.rows
              && r'.error == (if st.completed && st.successful && st.captureComplete && !Lossy(st) && r.dropped == 0
                              then r.error else Unsuccessful)
              && (r'.dropped == 0 <==> r.dropped == 0 && !Lossy(st))
  {
  }

  /** A message that counts a loss, or comes after one, adds no row and leaves the error
      of an overflow; any other goes on where the rows end. */
  lemma BatchTaken(r: Receiver, b: Batch)
    ensures var r' := OnBatch(r, b);
            && r.rows <= r'.rows && |r'.rows| <= |r.rows| + |b.samples|
            && (r.dropped > 0 || b.dropped > 0 || b.failed > 0 ==> r'.error == Overflow && r'.rows == r.rows)
            && (r.error != NoError ==> r'.rows == r.rows && r'.error != NoError)
            && (r'.error == NoError ==> |r'.rows| == |r.rows| + |b.samples|)
  {
    AcceptAllGrows(Counted(r, b.dropped + b.failed), b.samples);
  }

  lemma {:induction false} AcceptAllGrows(r: Receiver, samples: seq<CaptureRecord>)
    ensures var r' := AcceptAll(r, samples);
            && r.rows <= r'.rows && |r'.rows| <= |r.rows| + |samples|
            && (r.error != NoError ==> r' == r)
            && (r'.error == NoError ==> |r'.rows| == |r.rows| + |samples|)
    decreases |samples|
  {
    if samples != [] && r.error == NoError {
      AcceptAllGrows(Accept(r, samples[0]), samples[1..]);
    }
  }

  // ----- drained means complete -----

  /** Only what the pipeline published, in any order, any number of times, and with
      dropped counts that may be behind. */
  ghost predicate GenuineDelivery(s: Pipe, d: Delivery) {
    match d
    case Telemetry(b) => exists exact :: exact in s.batches && BatchBehind(b, exact)
    case Terminal(st) => st in s.statuses
  }

  function RowsOf(log: seq<CaptureRecord>): (rows: seq<Row>)
    ensures |rows| == |log|
    ensures forall i :: 0 <= i < |log| ==> rows[i] == RowOf(log[i])
  {
    if log == [] then [] else RowsOf(log[..|log| - 1]) + [RowOf(log[|log| - 1])]
  }

  /** The row is the sample's: its number, source time and phase, what was measured and
      what was referred to. */
  predicate IsRow(row: Row, m: CaptureRecord) {
    && row.sequence == m.sequence && row.timeNs == m.state.measured.timeNs && row.phase == m.state.phase
    && row.position == m.state.measured.position && row.velocity == m.state.measured.velocity
    && row.force == m.state.measured.force && row.referencePosition == m.state.referencePosition
    && row.referenceVelocity == m.state.referenceVelocity
    && row.referenceAcceleration == m.state.referenceAcceleration
  }

  function LogFor(samples: Logbook, trial: nat): seq<CaptureRecord> {
    if trial in samples then samples[trial] else []
  }

  /** The rows are the beginning of the trial's own log, and a loss leaves an
      error behind. */
  ghost predicate Faithful(s: Pipe, r: Receiver) {
    && |r.rows| <= |LogFor(s.samples, r.trial)|
    && (forall i :: 0 <= i < |r.rows| ==> r.rows[i] == RowOf(LogFor(s.samples, r.trial)[i]))
    && (r.dropped > 0 ==> r.error != NoError)
    && (r.terminal.Some? ==>
          && r.terminal.value in s.statuses
          && r.terminal.value.trial == r.trial
          && r.terminal.value.finalSequence == r.finalSequence
          && (r.error == NoError ==>
                r.terminal.value.completed && r.terminal.value.successful && r.terminal.value.captureComplete))
  }

  lemma {:induction false} AcceptAllFaithful(s: Pipe, r: Receiver, samples: seq<CaptureRecord>)
    requires Faithful(s, r)
    requires forall i :: 0 <= i < |samples| ==> Genuine(s.samples, samples[i])
    ensures Faithful(s, AcceptAll(r, samples))
    decreases |samples|
  {
    if samples != [] && r.error == NoError {
      assert Genuine(s.samples, samples[0]);
      AcceptAllFaithful(s, Accept(r, samples[0]), samples[1..]);
    }
  }

  lemma DeliverFaithful(s: Pipe, r: Receiver, d: Delivery)
    requires TelemetryPipeline.Inv(s) && Faithful(s, r) && GenuineDelivery(s, d)
    ensures Faithful(s, Deliver(r, d))
  {
    if d.Telemetry? {
      var exact :| exact in s.batches && BatchBehind(d.batch, exact);
      assert OneTrial(s.samples, exact);
      AcceptAllFaithful(s, Counted(r, d.batch.dropped + d.batch.failed), d.batch.samples);
    }
  }

  lemma {:induction false} DeliverAllFaithful(s: Pipe, r: Receiver, deliveries: seq<Delivery>)
    requires TelemetryPipeline.Inv(s) && Faithful(s, r)
    requires forall d :: d in deliveries ==> GenuineDelivery(s, d)
    ensures Faithful(s, DeliverAll(r, deliveries))
  {
    if deliveries != [] {
      DeliverAllFaithful(s, r, deliveries[..|deliveries| - 1]);
      DeliverFaithful(s, DeliverAll(r, deliveries[..|deliveries| - 1]), deliveries[|deliveries| - 1]);
    }
  }

  /** The central promise: whatever was lost, repeated or reordered on the way, a
      drained receiver holds the trial's whole log, from the first sample to the
      last, nothing of it was dropped, and the trial was finished as completed, at f,
      in a valid state. */
  lemma DrainedIsComplete(events: seq<Event>, deliveries: seq<Delivery>, trial: nat, maximumSamples: nat, gapNs: int)
    returns (f: nat)
    requires forall d :: d in deliveries ==> GenuineDelivery(Run(events), d)
    requires DeliverAll(Fresh(trial, maximumSamples, gapNs), deliveries).Drained()
    ensures var s, r := Run(events), DeliverAll(Fresh(trial, maximumSamples, gapNs), deliveries);
            && trial in s.samples
            && r.rows == RowsOf(s.samples[trial])
            && (forall i :: 0 <= i < |r.rows| ==> IsRow(r.rows[i], s.samples[trial][i]))
            && r.dropped == 0 && r.terminal.value.dropped == 0 && r.terminal.value.failed == 0
            && (s.samples[trial] != [] ==> Delivered(s.batches, trial) == s.samples[trial])
            && LastState(s.samples[trial]).valid
    ensures f < |events| && FinishedAt(events, f, trial, true)
  {
    var s := Run(events);
    var r0 := Fresh(trial, maximumSamples, gapNs);
    var r := DeliverAll(r0, deliveries);
    RunInv(events);
    DeliverAllFaithful(s, r0, deliveries);
    TrialKept(r0, deliveries);
    assert StatusIs(s.samples, s.batches, r.terminal.value);
    f := StatusMeans(events, r.terminal.value);
  }

  lemma {:induction false} TrialKept(r: Receiver, deliveries: seq<Delivery>)
    ensures DeliverAll(r, deliveries).trial == r.trial
    ensures DeliverAll(r, deliveries).maximumSamples == r.maximumSamples
    ensures DeliverAll(r, deliveries).maximumGapNs == r.maximumGapNs
  {
    if deliveries != [] {
      var d := deliveries[|deliveries| - 1];
      var before := DeliverAll(r, deliveries[..|deliveries| - 1]);
      TrialKept(r, deliveries[..|deliveries| - 1]);
      if d.Telemetry? {
        AcceptKept(Counted(before, d.batch.dropped + d.batch.failed), d.batch.samples);
      }
    }
  }

  lemma {:induction false} AcceptKept(r: Receiver, samples: seq<CaptureRecord>)
    ensures AcceptAll(r, samples).trial == r.trial
    ensures AcceptAll(r, samples).maximumSamples == r.maximumSamples
    ensures AcceptAll(r, samples).maximumGapNs == r.maximumGapNs
    decreases |samples|
  {
    if samples != [] && r.error == NoError {
      AcceptKept(Accept(r, samples[0]), samples[1..]);
    }
  }
}
