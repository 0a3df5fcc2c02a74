/** Every operation can succeed: the awaits that take a script to its end. */
module CoordinatorProgress {
  import opened Coordinator
  import opened CoordinatorSafety

  predicate Effect(step: Step) {
    step.Acknowledge? || step.ClearClock?
  }

  /** With these outcomes, one for each await, the script runs to its end. */
  predicate Carries(script: seq<Step>, outcomes: seq<Outcome>, physical: bool)
    decreases |outcomes|, |script|
  {
    if script == [] then outcomes == []
    else if Effect(script[0]) then Carries(script[1..], outcomes, physical)
    else
      && outcomes != []
      && Advance(script[0], outcomes[0], physical).Goes?
      && Carries(Advance(script[0], outcomes[0], physical).value + script[1..], outcomes[1..], physical)
  }

  lemma {:induction false} CarriesJoined(a: seq<Step>, b: seq<Step>, first: seq<Outcome>, second: seq<Outcome>,
      physical: bool)
    requires Carries(a, first, physical) && Carries(b, second, physical)
    ensures Carries(a + b, first + second, physical)
    decreases |first|, |a|
  {
    if a == [] {
      assert a + b == b && first + second == second;
    } else {
      assert (a + b)[1..] == a[1..] + b;
      if Effect(a[0]) {
        CarriesJoined(a[1..], b, first, second, physical);
      } else {
        var steps := Advance(a[0], first[0], physical).value;
        assert (first + second)[1..] == first[1..] + second;
        Grouped(steps, a[1..], b);
        CarriesJoined(steps + a[1..], b, first[1..], second, physical);
      }
    }
  }

  lemma Grouped(a: seq<Step>, b: seq<Step>, c: seq<Step>)
    ensures a + (b + c) == a + b + c
  {
  }

  const GOOD := Replied(true)
  const BOTH_INACTIVE := Listed(Listing(Inactive, Inactive), true)
  const SEQUENCING := Listed(Listing(Active, Inactive), true)
  const COMPLYING := Listed(Listing(Inactive, Active), true)

  /** An await that turns into nothing more. */
  lemma CarriesOne(step: Step, o: Outcome, physical: bool)
    requires !Effect(step) && Advance(step, o, physical) == Goes([])
    ensures Carries([step], [o], physical)
  {
    assert [] + [step][1..] == [] && [o][1..] == [];
  }

  lemma CarriesEffect(step: Step, physical: bool)
    requires Effect(step)
    ensures Carries([step], [], physical)
  {
    assert [step][1..] == [];
  }

  /** An await that turns into more. */
  lemma CarriesInto(step: Step, o: Outcome, more: seq<Outcome>, physical: bool)
    requires !Effect(step) && Advance(step, o, physical).Goes?
    requires Carries(Advance(step, o, physical).value, more, physical)
    ensures Carries([step], [o] + more, physical)
  {
    var steps := Advance(step, o, physical).value;
    assert steps + [step][1..] == steps && ([o] + more)[1..] == more;
  }

  /** One step in front. */
  lemma Then(step: Step, o: seq<Outcome>, rest: seq<Step>, outcomes: seq<Outcome>, physical: bool)
    requires Carries([step], o, physical) && Carries(rest, outcomes, physical)
    ensures Carries([step] + rest, o + outcomes, physical)
  {
    CarriesJoined([step], rest, o, outcomes, physical);
  }

  /** The good outcome of a step that turns into nothing more. */
  function Answer(step: Step, shown: Outcome): Outcome {
    if step.Switched? then shown else if step.Work? || step.Configure? || step.Switch? then GOOD else BOTH_INACTIVE
  }

  function Answers(script: seq<Step>, shown: Outcome): seq<Outcome> {
    if script == [] then []
    else (if Effect(script[0]) then [] else [Answer(script[0], shown)]) + Answers(script[1..], shown)
  }

  predicate Plain(step: Step, shown: Outcome) {
    && step !in {StopList, StopRelist, Handoff}
    && (step.Switched? ==>
          && shown.Listed?
          && (forall m :: m in step.on ==> shown.listing.Of(m) == Active)
          && (forall m :: m in step.off ==> shown.listing.Of(m) == Inactive))
  }

  lemma AnswerAdvances(step: Step, shown: Outcome, physical: bool)
    requires Plain(step, shown) && !Effect(step)
    ensures Advance(step, Answer(step, shown), physical) == Goes([])
  {
  }

  lemma {:induction false} PlainCarries(script: seq<Step>, shown: Outcome, physical: bool)
    requires forall i :: 0 <= i < |script| ==> Plain(script[i], shown)
    ensures Carries(script, Answers(script, shown), physical)
  {
    if script != [] {
      var step, rest := script[0], script[1..];
      assert Plain(step, shown);
      PlainCarries(rest, shown, physical);
      assert [step] + rest == script;
      if Effect(step) {
        CarriesEffect(step, physical);
        Then(step, [], rest, Answers(rest, shown), physical);
        assert [] + Answers(rest, shown) == Answers(script, shown);
      } else {
        AnswerAdvances(step, shown, physical);
        CarriesOne(step, Answer(step, shown), physical);
        Then(step, [Answer(step, shown)], rest, Answers(rest, shown), physical);
      }
    }
  }

  // ----- the scripts -----

  lemma ListingsAre(physical: bool)
    ensures Advance(StopList, BOTH_INACTIVE, physical) == Goes([StopRelist])
    ensures Advance(StopRelist, BOTH_INACTIVE, physical) == Goes(Verifying(physical))
  {
    var l := Listing(Inactive, Inactive);
    assert l.In(Active) == {};
    assert Deactivating(l) == [StopRelist];
    assert Configuring(l) == [] && Confirming(l, physical) == Verifying(physical);
  }

  lemma ListCarries(physical: bool) returns (outcomes: seq<Outcome>)
    ensures Carries([StopList], outcomes, physical)
  {
    ListingsAre(physical);
    PlainCarries(Verifying(physical), BOTH_INACTIVE, physical);
    outcomes := Answers(Verifying(physical), BOTH_INACTIVE);
    CarriesInto(StopRelist, BOTH_INACTIVE, outcomes, physical);
    outcomes := [BOTH_INACTIVE] + outcomes;
    CarriesInto(StopList, BOTH_INACTIVE, outcomes, physical);
    outcomes := [BOTH_INACTIVE] + outcomes;
  }

  lemma StopCarries(physical: bool) returns (outcomes: seq<Outcome>)
    ensures Carries(Stop(), outcomes, physical)
  {
    outcomes := ListCarries(physical);
    CarriesEffect(Acknowledge(false), physical);
    Then(Acknowledge(false), [], [StopList], outcomes, physical);
    assert [Acknowledge(false)] + [StopList] == Stop();
    outcomes := [] + outcomes;
  }

  lemma HandoffIs(physical: bool)
    ensures Advance(Handoff, BOTH_INACTIVE, physical) == Goes([Work] + StartZero({}))
  {
  }

  lemma HandoffCarries(physical: bool) returns (outcomes: seq<Outcome>)
    ensures Carries([Handoff], outcomes, physical)
  {
    var script := [Work] + StartZero({});
    HandoffIs(physical);
    PlainCarries(script, COMPLYING, physical);
    outcomes := Answers(script, COMPLYING);
    CarriesInto(Handoff, BOTH_INACTIVE, outcomes, physical);
    outcomes := [BOTH_INACTIVE] + outcomes;
  }

  lemma FittingCarries(activateAfter: bool, physical: bool) returns (outcomes: seq<Outcome>)
    ensures Carries(Fitting() + (if activateAfter then StartZero({Sequencer}) else []) + [Work], outcomes, physical)
  {
    var script := Fitting() + (if activateAfter then StartZero({Sequencer}) else []) + [Work];
    PlainCarries(script, COMPLYING, physical);
    outcomes := Answers(script, COMPLYING);
  }

  lemma RecordingCarries(activateAfter: bool, physical: bool) returns (outcomes: seq<Outcome>)
    ensures Carries(Recording() + (Fitting() + (if activateAfter then StartZero({Sequencer}) else []) + [Work]),
                    outcomes, physical)
  {
    var end := Fitting() + (if activateAfter then StartZero({Sequencer}) else []) + [Work];
    outcomes := FittingCarries(activateAfter, physical);
    PlainCarries(Recording(), SEQUENCING, physical);
    CarriesJoined(Recording(), end, Answers(Recording(), SEQUENCING), outcomes, physical);
    outcomes := Answers(Recording(), SEQUENCING) + outcomes;
  }

  /** A stop, and what is before and after it. */
  lemma AroundStop(start: seq<Step>, end: seq<Step>, after: seq<Outcome>, physical: bool)
    returns (outcomes: seq<Outcome>)
    requires forall i :: 0 <= i < |start| ==> Plain(start[i], BOTH_INACTIVE)
    requires Carries(end, after, physical)
    ensures Carries(start + (Stop() + end), outcomes, physical)
  {
    var stopping := StopCarries(physical);
    CarriesJoined(Stop(), end, stopping, after, physical);
    PlainCarries(start, BOTH_INACTIVE, physical);
    CarriesJoined(start, Stop() + end, Answers(start, BOTH_INACTIVE), stopping + after, physical);
    outcomes := Answers(start, BOTH_INACTIVE) + (stopping + after);
  }

  lemma CalibrationCarries(activateAfter: bool, physical: bool) returns (outcomes: seq<Outcome>)
    ensures Carries(Script(Calibration(activateAfter)), outcomes, physical)
  {
    var end := Recording() + (Fitting() + (if activateAfter then StartZero({Sequencer}) else []) + [Work]);
    var after := RecordingCarries(activateAfter, physical);
    outcomes := AroundStop([Work, ClearClock, Acknowledge(false), Work], end, after, physical);
  }

  /** Every script has outcomes that carry it. */
  lemma ScriptCarries(kind: Kind, physical: bool) returns (outcomes: seq<Outcome>)
    ensures Carries(Script(kind), outcomes, physical)
  {
    match kind
    case Calibration(activateAfter) => outcomes := CalibrationCarries(activateAfter, physical);
    case Operator(Observe) =>
      outcomes := StopCarries(physical);
      CarriesEffect(ClearClock, physical);
      Then(ClearClock, [], Stop(), outcomes, physical);
      assert [] + outcomes == outcomes;
    case Operator(StartZeroForce) =>
      outcomes := HandoffCarries(physical);
      PlainCarries([ClearClock, Work], COMPLYING, physical);
      CarriesJoined([ClearClock, Work], [Handoff], Answers([ClearClock, Work], COMPLYING), outcomes, physical);
      outcomes := Answers([ClearClock, Work], COMPLYING) + outcomes;
      assert [ClearClock, Work] + [Handoff] == Script(kind);
    case _ =>
      PlainCarries(Script(kind), BOTH_INACTIVE, physical);
      outcomes := Answers(Script(kind), BOTH_INACTIVE);
  }

  // ----- running them -----

  /** The node with this one task, able to take another when it has ended. */
  predicate At(s: State, kind: Kind, script: seq<Step>) {
    s.tasks == [Task(kind, Underway, script)] && !s.unresolvedStop && s.filesIdle
  }

  predicate Succeeded(s: State, kind: Kind) {
    && s.Free() && s.tasks == []
    && s.log.events != [] && s.log.events[|s.log.events| - 1] == Ended(kind, true, s.acknowledged)
  }

  /** Either the operation has succeeded, or it waits with the rest of its script. */
  ghost predicate OnTheWay(s: State, kind: Kind, outcomes: seq<Outcome>, script: seq<Step>) {
    if outcomes == [] then Succeeded(s, kind)
    else At(s, kind, script) && script != [] && !Effect(script[0]) && Carries(script, outcomes, s.physical)
  }

  predicate Between(s: State) {
    s.tasks == [] && !s.unresolvedStop && s.filesIdle
  }

  lemma {:induction false} ContinueCarries(s: State, t: Task, outcomes: seq<Outcome>, s': State)
    returns (script: seq<Step>)
    requires Between(s) && t.phase == Underway && Carries(t.script, outcomes, s.physical)
    requires s' == s.Continue(t)
    ensures OnTheWay(s', t.kind, outcomes, script) && s'.physical == s.physical
    ensures Admission(s'.log.monitor) == Admission(s.log.monitor)
    decreases |t.script|
  {
    script := t.script;
    if t.script == [] {
    } else if t.script[0].Acknowledge? {
      script := ContinueCarries(s.(acknowledged := t.script[0].stopped), t.(script := t.script[1..]), outcomes, s');
    } else if t.script[0].ClearClock? {
      script := ContinueCarries(s.(timeError := false), t.(script := t.script[1..]), outcomes, s');
    } else {
      SuspendCarries(s, t, s');
    }
  }

  lemma SuspendCarries(s: State, t: Task, s': State)
    requires Between(s) && t.phase == Underway && t.script != []
    requires s' == if t.script[0].Switch? then s.Emit(Requested(t.script[0].on, t.script[0].off)).Suspend(t)
                   else s.Suspend(t)
    ensures At(s', t.kind, t.script) && s'.physical == s.physical
    ensures Admission(s'.log.monitor) == Admission(s.log.monitor)
  {
  }

  lemma ReportBetween(s: State, kind: Kind, script: seq<Step>, o: Outcome) returns (mid: State)
    requires At(s, kind, script) && script != []
    ensures mid == s.Take(0).Report(script[0], o) && Between(mid) && mid.physical == s.physical
    ensures Admission(mid.log.monitor) == Admission(s.log.monitor)
  {
    mid := s.Take(0).Report(script[0], o);
    ReportAdmits(s.Take(0), script[0], o);
  }

  lemma ReportAdmits(s: State, step: Step, o: Outcome)
    ensures Admission(s.Report(step, o).log.monitor) == Admission(s.log.monitor)
  {
    if o.Listed? {
      AdmissionKept(s.log.monitor, Confirmed(o.listing));
      AdmissionKept(s.log.monitor, Reported(o.listing));
    }
  }

  lemma ResumeIs(s: State, kind: Kind, script: seq<Step>, o: Outcome, mid: State, next: seq<Step>)
    requires At(s, kind, script) && script != [] && mid == s.Take(0).Report(script[0], o)
    requires Advance(script[0], o, s.physical).Goes?
    requires next == Advance(script[0], o, s.physical).value + script[1..]
    ensures React(s, Resumption(0, o)) == mid.Continue(Task(kind, Underway, next))
  {
  }

  lemma RunMore(physical: bool, inputs: seq<Input>, i: Input)
    ensures Run(physical, inputs + [i]) == React(Run(physical, inputs), i)
  {
    assert (inputs + [i])[..|inputs|] == inputs;
  }

  /** The outcomes that are left take the operation to its success. */
  lemma {:induction false} CarriedThrough(physical: bool, inputs: seq<Input>, kind: Kind, outcomes: seq<Outcome>,
      script: seq<Step>) returns (longer: seq<Input>)
    requires OnTheWay(Run(physical, inputs), kind, outcomes, script)
    ensures inputs <= longer && Succeeded(Run(physical, longer), kind)
    ensures Admission(Run(physical, longer).log.monitor) == Admission(Run(physical, inputs).log.monitor)
    decreases |outcomes|
  {
    longer := inputs;
    if outcomes != [] {
      var s := Run(physical, inputs);
      var o := outcomes[0];
      var next := Advance(script[0], o, s.physical).value + script[1..];
      var mid := ReportBetween(s, kind, script, o);
      ResumeIs(s, kind, script, o, mid, next);
      RunMore(physical, inputs, Resumption(0, o));
      var rest := ContinueCarries(mid, Task(kind, Underway, next), outcomes[1..], React(s, Resumption(0, o)));
      longer := CarriedThrough(physical, inputs + [Resumption(0, o)], kind, outcomes[1..], rest);
    }
  }

  lemma AdmittedIs(s: State, kind: Kind) returns (admitted: State)
    requires s.Free() && s.tasks == [] && (kind == Operator(Prepare) ==> s.physical)
    ensures Between(admitted) && admitted.physical == s.physical
    ensures Admission(admitted.log.monitor) == Admitted(kind, s.acknowledged)
    ensures React(s, Request(kind)) == admitted.Continue(Task(kind, Underway, Script(kind)))
  {
    admitted := s.(busy := true).Emit(Admitted(kind, s.acknowledged));
  }

  /** From every state that admits it every operation can succeed, a preparation only
      where there is hardware, and then the node admits the next one. */
  lemma CanSucceed(physical: bool, inputs: seq<Input>, kind: Kind) returns (longer: seq<Input>)
    requires Run(physical, inputs).Free() && (kind == Operator(Prepare) ==> physical)
    ensures inputs + [Request(kind)] <= longer && Succeeded(Run(physical, longer), kind)
    ensures Admission(Run(physical, longer).log.monitor) == Admitted(kind, Run(physical, inputs).acknowledged)
  {
    RunInv(physical, inputs);
    FilesAre(physical, inputs);
    var s := Run(physical, inputs);
    var outcomes := ScriptCarries(kind, physical);
    var admitted := AdmittedIs(s, kind);
    RunMore(physical, inputs, Request(kind));
    var rest := ContinueCarries(admitted, Task(kind, Underway, Script(kind)), outcomes, React(s, Request(kind)));
    longer := CarriedThrough(physical, inputs + [Request(kind)], kind, outcomes, rest);
  }

  /** The sequencer's activation was asked for at r, after a verified stop of the same
      operation, which runs up to i. */
  ghost predicate Sequenced(events: seq<Event>, i: nat, v: nat, r: nat) {
    && v < r < i <= |events|
    && VerifiedAt(events[..r], v) && events[r].Requested? && Sequencer in events[r].on
    && forall j :: v < j < i ==> !events[j].Admitted?
  }

  lemma StoppedFirst(physical: bool, inputs: seq<Input>, i: nat, r: nat, a: nat) returns (v: nat)
    requires a < r < i <= |Events(physical, inputs)|
    requires Events(physical, inputs)[r].Requested? && Sequencer in Events(physical, inputs)[r].on
    requires AdmittedAt(Events(physical, inputs)[..i], a, Events(physical, inputs)[..i][a])
    ensures Sequenced(Events(physical, inputs), i, v, r)
  {
    var a';
    a', v := SequencerAfterStop(physical, inputs, r);
    StillAdmitted(Events(physical, inputs), i, r, a, a');
  }

  /** In particular a calibration, which then has had the sequencer activated after a
      verified stop of its own, and ends with compliance listed active exactly if that
      was asked for. */
  lemma CalibrationCanSucceed(physical: bool, inputs: seq<Input>, activateAfter: bool)
    returns (longer: seq<Input>, i: nat, v: nat, r: nat, k: nat, l: Listing)
    requires Run(physical, inputs).Free()
    ensures inputs + [Request(Calibration(activateAfter))] <= longer
    ensures i == |Events(physical, longer)| - 1
    ensures Events(physical, longer)[i] == Ended(Calibration(activateAfter), true, true)
    ensures Sequenced(Events(physical, longer), i, v, r)
    ensures k < i && ListedAt(Events(physical, longer)[..i], k, l)
    ensures l.compliance == Active <==> activateAfter
  {
    longer := CanSucceed(physical, inputs, Calibration(activateAfter));
    i := |Events(physical, longer)| - 1;
    v, r, k, l := SuccessfulCalibration(physical, longer, i, activateAfter);
  }

  /** And so does every one that succeeds. */
  lemma SuccessfulCalibration(physical: bool, inputs: seq<Input>, i: nat, activateAfter: bool)
    returns (v: nat, r: nat, k: nat, l: Listing)
    requires i < |Events(physical, inputs)| && Events(physical, inputs)[i].Ended?
    requires Events(physical, inputs)[i].success && Events(physical, inputs)[i].kind == Calibration(activateAfter)
    ensures Events(physical, inputs)[i].acknowledged
    ensures Sequenced(Events(physical, inputs), i, v, r)
    ensures k < i && ListedAt(Events(physical, inputs)[..i], k, l)
    ensures l.compliance == Active <==> activateAfter
  {
    SuccessAcknowledges(physical, inputs, i);
    var a;
    a, k, l, r := SuccessMeans(physical, inputs, i);
    v := StoppedFirst(physical, inputs, i, r, a);
  }

  lemma StillAdmitted(events: seq<Event>, i: nat, r: nat, a: nat, a': nat)
    requires a < r < i <= |events| && a' < r && events[a].Admitted? && events[a'].Admitted?
    requires forall j :: a < j < i ==> !events[..i][j].Admitted?
    requires forall j :: a' < j < r ==> !events[..r][j].Admitted?
    ensures a == a' && forall j :: a < j < i ==> !events[j].Admitted?
  {
    forall j | a < j < i ensures !events[j].Admitted? {
      assert events[..i][j] == events[j];
    }
    forall j | a' < j < r ensures !events[j].Admitted? {
      assert events[..r][j] == events[j];
    }
  }
}
