/** What a published status says besides its counts: how its trial was finished, in
    which state its last sample left it, and how many of its samples were in
    publications that threw. */
module StatusMeaning {
  import opened ControlTypes
  import opened CaptureRing
  import opened TelemetryPipeline

  /** The state of the last sample appended, the empty one if there is none. */
  function LastState(log: seq<CaptureRecord>): Snapshot {
    if log == [] then EMPTY_SNAPSHOT else log[|log| - 1].state
  }

  ghost predicate Says(samples: Logbook, st: Status) {
    && st.trial in samples
    && st.phase == LastState(samples[st.trial]).phase && st.fault == LastState(samples[st.trial]).fault
    && (st.successful <==> st.completed && LastState(samples[st.trial]).valid)
  }

  /** While a trial is under way its last record is its log's. */
  ghost predicate LastIs(s: Pipe) {
    s.running || s.terminalPending ==>
      s.trial in s.samples && s.last.trial == s.trial && s.last.state == LastState(s.samples[s.trial])
  }

  ghost predicate AllSay(samples: Logbook, statuses: seq<Status>) {
    forall i :: 0 <= i < |statuses| ==> Says(samples, statuses[i])
  }

  ghost predicate Meant(s: Pipe) {
    && LastIs(s)
    && (s.statusPending ==> Says(s.samples, s.pendingStatus))
    && AllSay(s.samples, s.statuses)
  }

  /** The statuses of earlier trials are not about the one under way. */
  lemma EarlierTrials(s: Pipe)
    requires TelemetryPipeline.Inv(s) && !s.ready
    ensures forall i :: 0 <= i < |s.statuses| ==> s.statuses[i].trial != s.trial
  {
    assert s.begun[|s.begun| - 1] == s.trial;
  }

  lemma SampleMeant(s: Pipe, state: Snapshot)
    requires TelemetryPipeline.Inv(s) && Meant(s)
    ensures Meant(SampleTrial(s, state))
  {
    if s.running {
      EarlierTrials(s);
      SayMore(s.samples, s.statuses, s.trial, LogOf(s) + [CaptureRecord(s.trial, s.last.sequence + 1, state)]);
    }
  }

  lemma SayMore(samples: Logbook, statuses: seq<Status>, trial: nat, log: seq<CaptureRecord>)
    requires AllSay(samples, statuses)
    requires forall i :: 0 <= i < |statuses| ==> statuses[i].trial != trial
    ensures AllSay(samples[trial := log], statuses)
  {
    forall i | 0 <= i < |statuses| ensures Says(samples[trial := log], statuses[i]) {
      assert Says(samples, statuses[i]);
    }
  }

  lemma BeginMeant(s: Pipe, id: nat)
    requires TelemetryPipeline.Inv(s) && Meant(s)
    ensures Meant(BeginTrial(s, id))
  {
    if id > s.trial && s.ready {
      forall i | 0 <= i < |s.statuses| ensures s.statuses[i].trial != id {
        assert s.statuses[i].trial == s.begun[i];
      }
      SayMore(s.samples, s.statuses, id, []);
    }
  }

  lemma TerminalMeant(s: Pipe)
    requires TelemetryPipeline.Inv(s) && Meant(s)
    ensures Meant(Next(s, TakeTerminal))
  {
  }

  lemma StatusMeant(s: Pipe, ok: bool)
    requires TelemetryPipeline.Inv(s) && Meant(s)
    ensures Meant(Next(s, PublishStatus(ok)))
  {
  }

  lemma KeepsMeant(s: Pipe, e: Event)
    requires TelemetryPipeline.Inv(s) && Meant(s)
    ensures Meant(Next(s, e))
  {
    match e
    case Begin(id) => BeginMeant(s, id);
    case Sample(state) => SampleMeant(s, state);
    case TakeTerminal => TerminalMeant(s);
    case PublishStatus(ok) => StatusMeant(s, ok);
    case _ =>
  }

  lemma {:induction false} RunMeant(events: seq<Event>)
    ensures Meant(Run(events))
  {
    if events != [] {
      RunMeant(events[..|events| - 1]);
      RunInv(events[..|events| - 1]);
      KeepsMeant(Run(events[..|events| - 1]), events[|events| - 1]);
    }
  }

  // ----- how the trial was finished -----

  /** At f the trial, which ran, was finished so. */
  predicate FinishedAt(events: seq<Event>, f: nat, trial: nat, completed: bool)
    requires f < |events|
  {
    events[f] == Finish(completed) && Run(events[..f]).running && Run(events[..f]).trial == trial
  }

  ghost predicate Finished(events: seq<Event>, trial: nat, completed: bool) {
    exists f :: 0 <= f < |events| && FinishedAt(events, f, trial, completed)
  }

  lemma FinishedMore(events: seq<Event>, e: Event, trial: nat, completed: bool)
    requires Finished(events, trial, completed)
    ensures Finished(events + [e], trial, completed)
  {
    var f :| 0 <= f < |events| && FinishedAt(events, f, trial, completed);
    assert (events + [e])[..f] == events[..f];
    assert FinishedAt(events + [e], f, trial, completed);
  }

  ghost predicate AllFinished(events: seq<Event>, statuses: seq<Status>) {
    forall i :: 0 <= i < |statuses| ==> Finished(events, statuses[i].trial, statuses[i].completed)
  }

  ghost predicate Ends(events: seq<Event>, s: Pipe) {
    && (s.terminalPending ==> Finished(events, s.trial, s.terminal.completed))
    && (s.statusPending ==> Finished(events, s.pendingStatus.trial, s.pendingStatus.completed))
    && AllFinished(events, s.statuses)
  }

  lemma EndsMore(events: seq<Event>, s: Pipe, e: Event)
    requires Ends(events, s)
    ensures Ends(events + [e], s)
  {
    if s.terminalPending { FinishedMore(events, e, s.trial, s.terminal.completed); }
    if s.statusPending { FinishedMore(events, e, s.pendingStatus.trial, s.pendingStatus.completed); }
    forall i | 0 <= i < |s.statuses|
      ensures Finished(events + [e], s.statuses[i].trial, s.statuses[i].completed)
    {
      FinishedMore(events, e, s.statuses[i].trial, s.statuses[i].completed);
    }
  }

  /** The finish is the terminal's, the terminal's the pending status's. */
  lemma EndsStep(events: seq<Event>, s: Pipe, e: Event)
    requires Ends(events, s) && TelemetryPipeline.Inv(s)
    requires e.Finish? && s.running ==> Finished(events, s.trial, e.completed)
    ensures Ends(events, Next(s, e))
  {
    match e
    case TakeTerminal => EndsTerminal(events, s);
    case PublishStatus(ok) => EndsReport(events, s, ok);
    case _ => EndsAside(s, e);
  }

  /** Any other event leaves the statuses, and the terminal but for a finish. */
  lemma EndsAside(s: Pipe, e: Event)
    requires !e.TakeTerminal? && !e.PublishStatus?
    ensures var s' := Next(s, e);
            && s'.statuses == s.statuses && s'.statusPending == s.statusPending
            && s'.pendingStatus == s.pendingStatus
            && (s'.terminalPending ==>
                  && s'.trial == s.trial
                  && if e.Finish? && s.running then s'.terminal.completed == e.completed
                     else s.terminalPending && s'.terminal == s.terminal)
  {
    match e
    case Begin(_) =>
    case Sample(_) =>
    case Finish(_) =>
    case PublishBatch(_) =>
    case _ =>
  }

  lemma EndsTerminal(events: seq<Event>, s: Pipe)
    requires Ends(events, s) && TelemetryPipeline.Inv(s)
    ensures Ends(events, Next(s, TakeTerminal))
  {
  }

  lemma EndsReport(events: seq<Event>, s: Pipe, ok: bool)
    requires Ends(events, s)
    ensures Ends(events, Next(s, PublishStatus(ok)))
  {
  }

  lemma FinishesNow(events: seq<Event>, e: Event)
    requires e.Finish? && Run(events).running
    ensures Finished(events + [e], Run(events).trial, e.completed)
  {
    assert (events + [e])[..|events|] == events;
    assert FinishedAt(events + [e], |events|, Run(events).trial, e.completed);
  }

  lemma {:induction false} RunEnds(events: seq<Event>)
    ensures Ends(events, Run(events))
  {
    if events != [] {
      var front, e := events[..|events| - 1], events[|events| - 1];
      assert front + [e] == events;
      RunEnds(front);
      RunInv(front);
      EndsMore(front, Run(front), e);
      if e.Finish? && Run(front).running {
        FinishesNow(front, e);
      }
      EndsStep(events, Run(front), e);
    }
  }

  // ----- what was lost -----

  /** The failures counted are the samples in publications of the trial that threw. */
  ghost predicate LossesOf(samples: Logbook, thrown: seq<Batch>, st: Status) {
    st.trial in samples && (samples[st.trial] != [] ==> st.failed == |Delivered(thrown, st.trial)|)
  }

  ghost predicate Lost(s: Pipe) {
    && Failed(s) == |Delivered(s.thrown, s.trial)|
    && (s.statusPending ==> LossesOf(s.samples, s.thrown, s.pendingStatus))
    && forall i :: 0 <= i < |s.statuses| ==> LossesOf(s.samples, s.thrown, s.statuses[i])
  }

  lemma SampleLost(s: Pipe, state: Snapshot)
    requires TelemetryPipeline.Inv(s) && Lost(s)
    ensures Lost(SampleTrial(s, state))
  {
    if s.running {
      EarlierTrials(s);
      forall i | 0 <= i < |s.statuses| ensures LossesOf(SampleTrial(s, state).samples, s.thrown, s.statuses[i]) {
        assert LossesOf(s.samples, s.thrown, s.statuses[i]);
      }
    }
  }

  lemma BeginLost(s: Pipe, id: nat)
    requires TelemetryPipeline.Inv(s) && Lost(s)
    ensures Lost(BeginTrial(s, id))
  {
    if id > s.trial && s.ready {
      NothingDelivered(s.samples, s.thrown, s.consumerTrial, id);
    }
  }

  lemma DeliveredMore(batches: seq<Batch>, b: Batch, trial: nat)
    requires b.samples != []
    ensures Delivered(batches + [b], trial)
            == Delivered(batches, trial) + (if b.samples[0].trial == trial then b.samples else [])
  {
    assert (batches + [b])[..|batches|] == batches;
  }

  lemma PublishLost(s: Pipe, ok: bool)
    requires TelemetryPipeline.Inv(s) && Lost(s) && s.drain.Publishing?
    ensures Lost(Next(s, PublishBatch(ok)))
  {
    var samples := s.drain.samples;
    assert samples[0].trial == s.trial;
    var batch := Batch(samples, s.drops, if s.consumerTrial != s.trial then 0 else s.failures);
    EarlierTrials(s);
    DeliveredMore(s.thrown, batch, s.trial);
    LossesKept(s, batch);
  }

  /** A batch of the trial under way is none of an earlier trial's. */
  lemma LossesKept(s: Pipe, batch: Batch)
    requires Lost(s) && batch.samples != [] && batch.samples[0].trial == s.trial
    requires forall i :: 0 <= i < |s.statuses| ==> s.statuses[i].trial != s.trial
    ensures forall i :: 0 <= i < |s.statuses| ==> LossesOf(s.samples, s.thrown + [batch], s.statuses[i])
  {
    forall i | 0 <= i < |s.statuses| ensures LossesOf(s.samples, s.thrown + [batch], s.statuses[i]) {
      assert LossesOf(s.samples, s.thrown, s.statuses[i]);
      DeliveredMore(s.thrown, batch, s.statuses[i].trial);
    }
  }

  lemma TerminalLost(s: Pipe)
    requires TelemetryPipeline.Inv(s) && Lost(s)
    ensures Lost(Next(s, TakeTerminal))
  {
    if Terminates(s) && s.consumerTrial < s.trial {
      NothingDelivered(s.samples, s.batches, s.consumerTrial, s.trial);
    }
  }

  lemma KeepsLost(s: Pipe, e: Event)
    requires TelemetryPipeline.Inv(s) && Lost(s)
    ensures Lost(Next(s, e))
  {
    match e
    case Begin(id) => BeginLost(s, id);
    case Sample(state) => SampleLost(s, state);
    case PublishBatch(ok) => if s.drain.Publishing? { PublishLost(s, ok); }
    case TakeTerminal => TerminalLost(s);
    case _ =>
  }

  lemma {:induction false} RunLost(events: seq<Event>)
    ensures Lost(Run(events))
  {
    if events != [] {
      RunLost(events[..|events| - 1]);
      RunInv(events[..|events| - 1]);
      KeepsLost(Run(events[..|events| - 1]), events[|events| - 1]);
    }
  }

  // ----- what that means -----

  /** A published status says how its trial was finished: completed is what the finish
      that ended the trial was given, successful that it was true and the trial's last
      state valid, and phase and fault are those of that state.  The failures of a trial
      with a sample are its samples in publications that threw. */
  lemma StatusMeans(events: seq<Event>, st: Status) returns (f: nat)
    requires st in Run(events).statuses
    ensures f < |events| && FinishedAt(events, f, st.trial, st.completed)
    ensures var s := Run(events);
            && st.trial in s.samples
            && var last := LastState(s.samples[st.trial]);
            && st.phase == last.phase && st.fault == last.fault
            && (st.successful <==> st.completed && last.valid)
            && (s.samples[st.trial] != [] ==> st.failed == |Delivered(s.thrown, st.trial)|)
  {
    RunMeant(events);
    RunEnds(events);
    RunLost(events);
    var s := Run(events);
    var i :| 0 <= i < |s.statuses| && s.statuses[i] == st;
    assert Says(s.samples, s.statuses[i]);
    f :| 0 <= f < |events| && FinishedAt(events, f, st.trial, st.completed);
  }

  /** And a batch, published or not, carries the losses of its trial so far: the samples
      in publications that threw, and those dropped, which are what is neither
      delivered, nor lost so, nor still on its way. */
  lemma BatchCounts(events: seq<Event>, ok: bool)
    requires Run(events).drain.Publishing?
    ensures var s, s' := Run(events), Run(events + [PublishBatch(ok)]);
            && s.trial in s.samples
            && var batch := Batch(s.drain.samples, s'.drops, |Delivered(s.thrown, s.trial)|);
            && (if ok then s'.batches == s.batches + [batch] && s'.thrown == s.thrown
                else s'.thrown == s.thrown + [batch] && s'.batches == s.batches)
            && |Delivered(s.batches, s.trial)| + batch.failed + |s.drain.samples + s.queue| + batch.dropped
               == |s.samples[s.trial]|
  {
    RunInv(events);
    RunLost(events);
    RunStep(events, PublishBatch(ok));
    PublishIs(Run(events), ok);
  }

  lemma PublishIs(s: Pipe, ok: bool)
    requires TelemetryPipeline.Inv(s) && s.drain.Publishing?
    ensures var s' := Next(s, PublishBatch(ok));
            && s.trial in s.samples && s'.drops == s.drops
            && var batch := Batch(s.drain.samples, s.drops, Failed(s));
            && (if ok then s'.batches == s.batches + [batch] && s'.thrown == s.thrown
                else s'.thrown == s.thrown + [batch] && s'.batches == s.batches)
  {
    assert s.drain.samples[0].trial == s.trial;
  }
}
