/** What the coordinator does at single awaits of its runs: which outcomes let an
    operation go on, what a stop deactivates and restores, and when a clock that went
    back is latched. */
module CoordinatorSteps {
  import opened Coordinator
  import opened CoordinatorSafety
  import opened CoordinatorProgress

  /** The outcomes with which an await goes on: a good reply, or a listing that shows
      what the operation needs. */
  predicate Passes(step: Step, o: Outcome) {
    match step
    case Work => o == Replied(true)
    case Configure(_) => o == Replied(true)
    case Switch(_, _) => o == Replied(true)
    case OneInactive(motor) =>
      o.Listed? && (if motor == Sequencer then o.listing.sequencer else o.listing.compliance) == Inactive
    case Handoff => o.Listed? && o.listing.compliance == Inactive && (o.listing.sequencer != Active || o.finished)
    case Switched(on, off) =>
      && o.Listed?
      && (Sequencer in on ==> o.listing.sequencer == Active) && (Compliance in on ==> o.listing.compliance == Active)
      && (Sequencer in off ==> o.listing.sequencer == Inactive)
      && (Compliance in off ==> o.listing.compliance == Inactive)
    case StopList => o.Listed?
    case StopRelist => o.Listed?
    case Acknowledge(_) => false
    case ClearClock => false
    case _ => o.Listed? && o.listing.sequencer == Inactive && o.listing.compliance == Inactive
  }

  lemma PassesExactly(step: Step, o: Outcome, physical: bool)
    ensures Advance(step, o, physical).Goes? <==> Passes(step, o)
  {
  }

  /** One operation waits at its next step. */
  predicate WaitsAt(s: State, kind: Kind, phase: Phase, script: seq<Step>) {
    s.tasks == [Task(kind, phase, script)] && script != []
  }

  function ReportOf(step: Step, o: Outcome): seq<Event> {
    if !o.Listed? then [] else if step == StopConfirm then [Confirmed(o.listing)] else [Reported(o.listing)]
  }

  lemma {:induction false} PhysicalKept(physical: bool, inputs: seq<Input>)
    ensures Run(physical, inputs).physical == physical
  {
    FilesAre(physical, inputs);
  }

  lemma ReportIs(s: State, step: Step, o: Outcome) returns (s': State)
    ensures s' == s.Report(step, o)
    ensures s' == s.(log := s'.log) && s'.log.events == s.log.events + ReportOf(step, o)
  {
    s' := s.Report(step, o);
  }

  /** The await after which an operation that is to be stopped has failed: an outcome that
      does not pass begins the stop, with nothing else asked for. */
  lemma FailedAwaitStops(physical: bool, inputs: seq<Input>, kind: Kind, script: seq<Step>, o: Outcome)
    requires WaitsAt(Run(physical, inputs), kind, Underway, script) && StopsOnFailure(kind)
    requires !Passes(script[0], o)
    ensures var s, s' := Run(physical, inputs), Run(physical, inputs + [Resumption(0, o)]);
            && s'.log.events == s.log.events + ReportOf(script[0], o) + [Failed(kind)]
            && s'.tasks == [Task(kind, Stopping, [StopList])] && !s'.acknowledged
  {
    RunMore(physical, inputs, Resumption(0, o));
    PhysicalKept(physical, inputs);
    PassesExactly(script[0], o, physical);
    var s := Run(physical, inputs);
    var t := Task(kind, Underway, script);
    var mid := ReportIs(s.Take(0), script[0], o);
    assert React(s, Resumption(0, o)) == mid.Fail(t);
  }

  function Actives(l: Listing): set<Motor> {
    (if l.sequencer == Active then {Sequencer} else {}) + (if l.compliance == Active then {Compliance} else {})
  }

  lemma DeactivatingIs(l: Listing, rest: seq<Step>)
    ensures Deactivating(l) + rest ==
              if Actives(l) == {} then [StopRelist] + rest
              else [Switch({}, Actives(l)), Switched({}, Actives(l)), StopRelist] + rest
  {
    assert l.In(Active) == Actives(l);
  }

  /** A stop's first listing: the active controllers, and no others, are asked to be
      deactivated before anything else, if there are any. */
  lemma StopDeactivates(physical: bool, inputs: seq<Input>, kind: Kind, phase: Phase, script: seq<Step>, l: Listing,
      finished: bool)
    requires WaitsAt(Run(physical, inputs), kind, phase, script) && script[0] == StopList
    ensures var s, s' := Run(physical, inputs), Run(physical, inputs + [Resumption(0, Listed(l, finished))]);
            if Actives(l) == {} then
              && s'.log.events == s.log.events + [Reported(l)]
              && s'.tasks == [Task(kind, phase, [StopRelist] + script[1..])]
            else
              && s'.log.events == s.log.events + [Reported(l)] + [Requested({}, Actives(l))]
              && s'.tasks == [Task(kind, phase, [Switch({}, Actives(l)), Switched({}, Actives(l)), StopRelist]
                                                + script[1..])]
  {
    var o := Listed(l, finished);
    RunMore(physical, inputs, Resumption(0, o));
    var s := Run(physical, inputs);
    var mid := ReportIs(s.Take(0), StopList, o);
    var t := Task(kind, phase, Deactivating(l) + script[1..]);
    ListingResumes(s, kind, phase, script, o, mid, t);
    DeactivatingIs(l, script[1..]);
    var s' := Suspended(mid, t);
  }

  lemma ListingResumes(s: State, kind: Kind, phase: Phase, script: seq<Step>, o: Outcome, mid: State, t: Task)
    requires WaitsAt(s, kind, phase, script) && o.Listed? && mid == s.Take(0).Report(script[0], o)
    requires script[0] == StopList || script[0] == StopRelist
    requires t == Task(kind, phase, (if script[0] == StopList then Deactivating(o.listing)
                                     else Confirming(o.listing, s.physical)) + script[1..])
    ensures React(s, Resumption(0, o)) == mid.Continue(t)
  {
  }

  /** A task at an await is suspended there, after its switch has been requested. */
  lemma Suspended(s: State, t: Task) returns (s': State)
    requires t.script != [] && !t.script[0].Acknowledge? && !t.script[0].ClearClock?
    ensures s' == s.Continue(t)
    ensures s'.tasks == s.tasks + [t]
    ensures s'.log.events == s.log.events
              + (if t.script[0].Switch? then [Requested(t.script[0].on, t.script[0].off)] else [])
  {
    s' := s.Continue(t);
    SuspensionIs(s, t, s');
    if t.script[0].Switch? {
      var requested := EmitIs(s, Requested(t.script[0].on, t.script[0].off));
    }
  }

  lemma SuspensionIs(s: State, t: Task, s': State)
    requires t.script != [] && !t.script[0].Acknowledge? && !t.script[0].ClearClock? && s' == s.Continue(t)
    ensures s' == if t.script[0].Switch? then s.Emit(Requested(t.script[0].on, t.script[0].off)).Suspend(t)
                  else s.Suspend(t)
  {
  }

  lemma EmitIs(s: State, e: Event) returns (s': State)
    ensures s' == s.Emit(e) && s'.log.events == s.log.events + [e] && s'.tasks == s.tasks
  {
    s' := s.Emit(e);
  }

  /** Its second listing: the unconfigured controllers, and no others, are configured
      again, and then both have to be listed inactive, twice, the second time finally. */
  lemma StopRestores(physical: bool, inputs: seq<Input>, kind: Kind, phase: Phase, script: seq<Step>, l: Listing,
      finished: bool)
    requires WaitsAt(Run(physical, inputs), kind, phase, script) && script[0] == StopRelist
    ensures var s, s' := Run(physical, inputs), Run(physical, inputs + [Resumption(0, Listed(l, finished))]);
            && s'.log.events == s.log.events + [Reported(l)]
            && s'.tasks == [Task(kind, phase,
                 (if l.sequencer == Unconfigured then [Configure(Sequencer)] else [])
                 + (if l.compliance == Unconfigured then [Configure(Compliance)] else [])
                 + ([StopVerify, Work, Work, StopConfirm] + (if physical then [Work] else []) + [Acknowledge(true)])
                 + script[1..])]
  {
    var o := Listed(l, finished);
    RunMore(physical, inputs, Resumption(0, o));
    PhysicalKept(physical, inputs);
    var s := Run(physical, inputs);
    var mid := ReportIs(s.Take(0), StopRelist, o);
    var t := Task(kind, phase, Confirming(l, physical) + script[1..]);
    ListingResumes(s, kind, phase, script, o, mid, t);
    RestoringWaits(l, physical, script[1..]);
    var s' := Suspended(mid, t);
  }

  lemma RestoringWaits(l: Listing, physical: bool, rest: seq<Step>)
    ensures var script := Confirming(l, physical) + rest;
            script != [] && !script[0].Acknowledge? && !script[0].ClearClock? && !script[0].Switch?
  {
    assert Verifying(physical)[0] == StopVerify;
  }

  // ----- a clock that goes back -----

  /** It is noted while an operation runs. */
  lemma ReversalNoted(physical: bool, inputs: seq<Input>)
    ensures var s, s' := Run(physical, inputs), Run(physical, inputs + [ClockReversed]);
            s' == s.(timeError := s.timeError || |s.tasks| > 0)
  {
    RunMore(physical, inputs, ClockReversed);
    RunInv(physical, inputs);
  }

  /** An earlier operation's reversal is forgotten when an operator's command is admitted,
      and by a calibration after its first await. */
  lemma ReversalForgotten(physical: bool, inputs: seq<Input>, kind: Kind, o: Outcome)
    requires Run(physical, inputs).Free() && Passes(Work, o)
    ensures var s, s' := Run(physical, inputs), Run(physical, inputs + [Request(kind)]);
            && (kind.Operator? && (kind.command == Prepare ==> physical) ==> !s'.timeError)
            && (kind.Calibration? ==> !Run(physical, inputs + [Request(kind)] + [Resumption(0, o)]).timeError)
  {
    RunMore(physical, inputs, Request(kind));
    RunMore(physical, inputs + [Request(kind)], Resumption(0, o));
    PhysicalKept(physical, inputs);
    RunInv(physical, inputs);
    var s := Run(physical, inputs);
    var admitted := s.(busy := true).Emit(Admitted(kind, s.acknowledged));
    if kind.Operator? {
      ClearsFirst(admitted, Task(kind, Underway, Script(kind)));
    } else if kind.Calibration? {
      CalibrationClears(s, kind, admitted, o);
    }
  }

  lemma ClearsFirst(s: State, t: Task)
    requires |t.script| > 1 && t.script[0] == ClearClock
    ensures !s.Continue(t).timeError
  {
    ClockKept(s.(timeError := false), t.(script := t.script[1..]), s.Continue(t));
  }

  lemma {:induction false} ClockKept(s: State, t: Task, s': State)
    requires s' == s.Continue(t) && !s.timeError
    ensures !s'.timeError
    decreases |t.script|
  {
    if t.script == [] {
      CompletionKeeps(s, t, s');
    } else if t.script[0].Acknowledge? {
      ClockKept(s.(acknowledged := t.script[0].stopped), t.(script := t.script[1..]), s');
    } else if t.script[0].ClearClock? {
      ClockKept(s.(timeError := false), t.(script := t.script[1..]), s');
    } else {
      SuspensionKeeps(s, t, s');
    }
  }

  lemma CompletionKeeps(s: State, t: Task, s': State)
    requires s' == s.Complete(t)
    ensures s'.timeError == s.timeError
  {
    FinishKeeps(s, t.kind, t.phase == Underway, s.Finish(t.kind, t.phase == Underway));
    if t.phase == Stopping && t.kind.Calibration? {
      var filed := FileLatches(s, t);
    }
  }

  lemma FinishKeeps(s: State, kind: Kind, success: bool, s': State)
    requires s' == s.Finish(kind, success)
    ensures s'.timeError == s.timeError
  {
  }

  lemma SuspensionKeeps(s: State, t: Task, s': State)
    requires t.script != [] && s' == if t.script[0].Switch?
                                     then s.Emit(Requested(t.script[0].on, t.script[0].off)).Suspend(t)
                                     else s.Suspend(t)
    ensures s'.timeError == s.timeError
  {
  }

  lemma CalibrationClears(s: State, kind: Kind, admitted: State, o: Outcome)
    requires kind.Calibration? && s.Free() && s.tasks == [] && Passes(Work, o)
    requires admitted == s.(busy := true).Emit(Admitted(kind, s.acknowledged))
    ensures !React(React(s, Request(kind)), Resumption(0, o)).timeError
  {
    var script := Script(kind);
    var t := Task(kind, Underway, script);
    assert script[0] == Work && script[1] == ClearClock;
    assert React(s, Request(kind)) == admitted.Suspend(t);
    var waiting := admitted.Suspend(t);
    assert waiting.tasks == [t];
    var rest := t.(script := [] + script[1..]);
    assert rest.script[0] == ClearClock;
    assert React(waiting, Resumption(0, o)) == waiting.Take(0).Report(Work, o).Continue(rest);
    ClearsFirst(waiting.Take(0).Report(Work, o), rest);
  }

  lemma FileLatches(s: State, t: Task) returns (s': State)
    ensures s' == s.File(t) && s'.tasks == s.tasks + [Task(t.kind, Filing, [Work, Work])]
    ensures s'.log.events == s.log.events + (if s.timeError then [Latched(ClockWentBack)] else [])
    ensures (s.timeError ==> s'.unresolvedStop) && s'.timeError == s.timeError
  {
    s' := s.File(t);
  }

  /** And when the stop of a failed calibration is over, because it raised, such a
      reversal is latched. */
  lemma ReversalLatched(physical: bool, inputs: seq<Input>, kind: Kind, script: seq<Step>, o: Outcome)
    requires WaitsAt(Run(physical, inputs), kind, Stopping, script) && kind.Calibration?
    requires !Passes(script[0], o)
    ensures var s, s' := Run(physical, inputs), Run(physical, inputs + [Resumption(0, o)]);
            && s'.log.events == s.log.events + ReportOf(script[0], o) + [Latched(StopRaised)]
                 + (if s.timeError then [Latched(ClockWentBack)] else [])
            && s'.unresolvedStop && s'.tasks == [Task(kind, Filing, [Work, Work])]
  {
    RunMore(physical, inputs, Resumption(0, o));
    PhysicalKept(physical, inputs);
    PassesExactly(script[0], o, physical);
    var s := Run(physical, inputs);
    var t := Task(kind, Stopping, script);
    var mid := ReportIs(s.Take(0), script[0], o);
    assert React(s, Resumption(0, o)) == mid.Fail(t);
    var s' := FileLatches(mid.Latch(StopRaised), t);
  }

  /** Or because it was verified: its last await, after which it is acknowledged. */
  lemma ReversalLatchedVerified(physical: bool, inputs: seq<Input>, kind: Kind, step: Step, o: Outcome)
    requires WaitsAt(Run(physical, inputs), kind, Stopping, [step] + [Acknowledge(true)]) && kind.Calibration?
    requires step in {Work, StopConfirm} && Passes(step, o)
    ensures var s, s' := Run(physical, inputs), Run(physical, inputs + [Resumption(0, o)]);
            && s'.log.events == s.log.events + ReportOf(step, o)
                 + (if s.timeError then [Latched(ClockWentBack)] else [])
            && s'.acknowledged && s'.tasks == [Task(kind, Filing, [Work, Work])]
  {
    RunMore(physical, inputs, Resumption(0, o));
    PhysicalKept(physical, inputs);
    var s := Run(physical, inputs);
    var t := Task(kind, Stopping, [Acknowledge(true)]);
    assert [] + ([step] + [Acknowledge(true)])[1..] == t.script;
    var mid := ReportIs(s.Take(0), step, o);
    assert React(s, Resumption(0, o)) == mid.Continue(t);
    Verified(mid, t);
  }

  lemma Verified(s: State, t: Task)
    requires t.phase == Stopping && t.kind.Calibration? && t.script == [Acknowledge(true)] && s.tasks == []
    ensures var s' := s.Continue(t);
            && s'.log.events == s.log.events + (if s.timeError then [Latched(ClockWentBack)] else [])
            && s'.acknowledged && s'.tasks == [Task(t.kind, Filing, [Work, Work])]
  {
    var acknowledged := s.(acknowledged := true);
    assert t.script[1..] == [];
    assert s.Continue(t) == acknowledged.Continue(t.(script := []));
    var s' := FileLatches(acknowledged, t.(script := []));
  }
}
