/** How the trial of a status was finished, down to the call that finished it. */
module ThreadStatus {
  import opened ControlTypes
  import opened CaptureRing
  import P = TelemetryPipeline
  import opened PipelineRefinement
  import S = StatusMeaning

  /** At k the producer began the call that finished the trial, which ran, so. */
  predicate CalledAt(acts: seq<Act>, k: nat, trial: nat, completed: bool)
    requires k < |acts|
  {
    var m := Interleave(acts[..k]);
    && acts[k] == Producer(FinishStoreTerminal(completed))
    && Ready(m, acts[k]) && m.ring.running && m.ring.trial == trial
  }

  ghost predicate WasCalled(acts: seq<Act>, trial: nat, completed: bool) {
    exists k :: 0 <= k < |acts| && CalledAt(acts, k, trial, completed)
  }

  lemma CalledMore(acts: seq<Act>, act: Act, trial: nat, completed: bool)
    requires WasCalled(acts, trial, completed)
    ensures WasCalled(acts + [act], trial, completed)
  {
    var k :| 0 <= k < |acts| && CalledAt(acts, k, trial, completed);
    assert (acts + [act])[..k] == acts[..k];
    assert CalledAt(acts + [act], k, trial, completed);
  }

  ghost predicate AllCalled(acts: seq<Act>, statuses: seq<P.Status>) {
    forall i :: 0 <= i < |statuses| ==> WasCalled(acts, statuses[i].trial, statuses[i].completed)
  }

  predicate Closing(r: Ring) {
    r.producer == FinishFilled || r.terminalPending
  }

  ghost predicate Ends(acts: seq<Act>, m: Threads) {
    && (Closing(m.ring) ==> WasCalled(acts, m.ring.trial, m.ring.terminal.completed))
    && (m.statusPending ==> WasCalled(acts, m.pendingStatus.trial, m.pendingStatus.completed))
    && AllCalled(acts, m.statuses)
  }

  lemma EndsMore(acts: seq<Act>, m: Threads, act: Act)
    requires Ends(acts, m)
    ensures Ends(acts + [act], m)
  {
    if Closing(m.ring) { CalledMore(acts, act, m.ring.trial, m.ring.terminal.completed); }
    if m.statusPending { CalledMore(acts, act, m.pendingStatus.trial, m.pendingStatus.completed); }
    forall i | 0 <= i < |m.statuses| ensures WasCalled(acts + [act], m.statuses[i].trial, m.statuses[i].completed) {
      CalledMore(acts, act, m.statuses[i].trial, m.statuses[i].completed);
    }
  }

  /** The finishing call that this action begins, if it is one. */
  predicate Finishes(r: Ring, a: Action) {
    a.FinishStoreTerminal? && Enabled(r, a) && r.running
  }

  lemma ProducerCloses(r: Ring, a: Action)
    requires |r.slots| == P.QUEUE_CAPACITY && ProducerAction(a) && Enabled(r, a)
    requires a == BeginStoreDrops ==> !r.terminalPending
    ensures var r' := Step(P.QUEUE_CAPACITY, r, a);
            Closing(r') ==> if Finishes(r, a) then r'.trial == r.trial && r'.terminal.completed == a.completed
                            else Closing(r) && r'.trial == r.trial && r'.terminal == r.terminal
  {
  }

  /** A trial that begins finds no other's terminal. */
  lemma NonePending(m: Threads, s: P.Pipe)
    requires Stands(m, s) && m.beginning
    ensures !m.ring.terminalPending
  {
  }

  lemma ProducerEnds(acts: seq<Act>, m: Threads, s: P.Pipe, a: Action, r': Ring)
    requires Stands(m, s) && Ready(m, Producer(a)) && Ends(acts, m) && r' == Step(P.QUEUE_CAPACITY, m.ring, a)
    requires Finishes(m.ring, a) ==> WasCalled(acts, m.ring.trial, a.completed)
    ensures Ends(acts, Called(m, a, r'))
  {
    if a == BeginStoreDrops {
      NonePending(m, s);
    }
    ProducerCloses(m.ring, a);
  }

  /** The terminal that the timer takes is the one of the trial under way. */
  lemma TakenIs(m: Threads, s: P.Pipe)
    requires Stands(m, s) && Ready(m, Consumer(CompletionStorePending))
    ensures m.ring.consumer.CompletionTaken? && m.ring.terminalPending
    ensures m.ring.consumer.done == m.ring.terminal && m.ring.terminal.final.trial == m.ring.trial
  {
    var r' := Step(P.QUEUE_CAPACITY, m.ring, CompletionStorePending);
    Answered(m, s, CompletionStorePending, r', ConsumerEvent(m.ring, CompletionStorePending, r'));
  }

  lemma DrainedKeeps(m: Threads, a: Action, r': Ring)
    ensures var m' := Drained(m, a, r');
            && m'.ring == r' && m'.statuses == m.statuses
            && (a != CompletionStorePending ==>
                  m'.statusPending == m.statusPending && m'.pendingStatus == m.pendingStatus)
  {
  }

  lemma TakenStatus(m: Threads, r': Ring)
    requires m.ring.consumer.CompletionTaken?
    ensures Drained(m, CompletionStorePending, r').pendingStatus == P.StatusOf(m.ring.consumer.done, m.failures)
  {
  }

  lemma ConsumerEnds(acts: seq<Act>, m: Threads, s: P.Pipe, a: Action, r': Ring, m': Threads)
    requires Stands(m, s) && Ready(m, Consumer(a)) && Ends(acts, m) && r' == Step(P.QUEUE_CAPACITY, m.ring, a)
    requires m' == Drained(m, a, r')
    ensures Ends(acts, m')
  {
    ConsumerRing(m.ring, a);
    DrainedKeeps(m, a, r');
    if a == CompletionStorePending {
      TakenIs(m, s);
      TakenStatus(m, r');
    }
  }

  lemma ReportEnds(acts: seq<Act>, m: Threads, ok: bool)
    requires |m.ring.slots| == P.QUEUE_CAPACITY && Ends(acts, m)
    ensures Ends(acts, Next(m, Report(ok)))
  {
  }

  lemma ActEnds(acts: seq<Act>, m: Threads, s: P.Pipe, act: Act)
    requires Stands(m, s) && Ends(acts, m)
    requires act.Producer? && Ready(m, act) && Finishes(m.ring, act.a) ==>
               WasCalled(acts, m.ring.trial, act.a.completed)
    ensures Ends(acts, Next(m, act))
  {
    if Ready(m, act) {
      match act
      case Producer(a) => ProducerEnds(acts, m, s, a, Step(P.QUEUE_CAPACITY, m.ring, a));
      case Consumer(a) =>
        var r' := Step(P.QUEUE_CAPACITY, m.ring, a);
        ConsumerEnds(acts, m, s, a, r', Drained(m, a, r'));
      case Report(ok) => ReportEnds(acts, m, ok);
      case _ =>
    }
  }

  lemma CalledNow(acts: seq<Act>, act: Act)
    requires act.Producer? && Ready(Interleave(acts), act) && Finishes(Interleave(acts).ring, act.a)
    ensures WasCalled(acts + [act], Interleave(acts).ring.trial, act.a.completed)
  {
    assert (acts + [act])[..|acts|] == acts;
    assert CalledAt(acts + [act], |acts|, Interleave(acts).ring.trial, act.a.completed);
  }

  lemma {:induction false} InterleavingEnds(acts: seq<Act>)
    ensures Ends(acts, Interleave(acts))
  {
    if acts != [] {
      var front, act := acts[..|acts| - 1], acts[|acts| - 1];
      assert front + [act] == acts;
      InterleavingEnds(front);
      var events := InterleavingIsRun(front);
      EndsMore(front, Interleave(front), act);
      if act.Producer? && Ready(Interleave(front), act) && Finishes(Interleave(front).ring, act.a) {
        CalledNow(front, act);
      }
      ActEnds(acts, Interleave(front), P.Run(events), act);
    }
  }

  /** Under every interleaving a published status is completed exactly as the call that
      finished its trial said, and its verdict, phase and fault are about the state that
      the trial's last sample left. */
  lemma {:induction false} StatusMeansOfThreads(acts: seq<Act>, st: P.Status) returns (k: nat, events: seq<P.Event>)
    requires st in Interleave(acts).statuses
    ensures k < |acts| && CalledAt(acts, k, st.trial, st.completed)
    ensures Stands(Interleave(acts), P.Run(events)) && st.trial in P.Run(events).samples
    ensures var last := S.LastState(P.Run(events).samples[st.trial]);
            && st.phase == last.phase && st.fault == last.fault
            && (st.successful <==> st.completed && last.valid)
  {
    InterleavingEnds(acts);
    events := InterleavingIsRun(acts);
    var f := S.StatusMeans(events, st);
    var statuses := Interleave(acts).statuses;
    var i :| 0 <= i < |statuses| && statuses[i] == st;
    assert WasCalled(acts, statuses[i].trial, statuses[i].completed);
    k :| 0 <= k < |acts| && CalledAt(acts, k, st.trial, st.completed);
  }
}
