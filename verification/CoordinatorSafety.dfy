/** The coordinator's promises under every interleaving and every outcome. */
module CoordinatorSafety {
  import opened Coordinator

  /** What is known before a step: whether a stop is verified, and which controllers
      the last listing showed inactive. */
  datatype Known = Known(verified: bool, sequencer: bool, compliance: bool)

  const NOTHING := Known(false, false, false)
  const STOPPED := Known(true, true, true)

  predicate Allows(step: Step, k: Known) {
    step.Switch? ==> (Sequencer in step.on ==> k.verified && k.sequencer) && (Compliance in step.on ==> k.compliance)
  }

  /** What is known after a step that went well, whatever it turned into. */
  function Learn(step: Step, k: Known): Known {
    match step
    case Switch(on, _) => k.(verified := k.verified && on == {})
    case OneInactive(motor) => Known(k.verified, motor == Sequencer, motor == Compliance)
    case Handoff => NOTHING
    case Switched(_, _) => Known(k.verified, false, false)
    case StopVerify => Known(k.verified, true, true)
    case BothInactive => Known(k.verified, true, true)
    case StopList => STOPPED
    case StopRelist => STOPPED
    case StopConfirm => STOPPED
    case _ => k
  }

  predicate Within(k: Known, k': Known) {
    (k.verified ==> k'.verified) && (k.sequencer ==> k'.sequencer) && (k.compliance ==> k'.compliance)
  }

  predicate Sound(script: seq<Step>, k: Known)
    decreases |script|
  {
    script != [] ==> Allows(script[0], k) && Sound(script[1..], Learn(script[0], k))
  }

  lemma {:induction false} SoundMore(script: seq<Step>, k: Known, k': Known)
    requires Sound(script, k) && Within(k, k')
    ensures Sound(script, k')
    decreases |script|
  {
    if script != [] {
      SoundMore(script[1..], Learn(script[0], k), Learn(script[0], k'));
    }
  }

  function Learned(script: seq<Step>, k: Known): Known
    decreases |script|
  {
    if script == [] then k else Learned(script[1..], Learn(script[0], k))
  }

  lemma {:induction false} SoundJoined(a: seq<Step>, b: seq<Step>, k: Known)
    requires Sound(a, k) && Sound(b, Learned(a, k))
    ensures Sound(a + b, k)
    decreases |a|
  {
    if a == [] {
      assert a + b == b;
    } else {
      assert (a + b)[1..] == a[1..] + b;
      SoundJoined(a[1..], b, Learn(a[0], k));
    }
  }

  /** One step in front of the rest. */
  lemma Before(step: Step, rest: seq<Step>, k: Known)
    requires Allows(step, k) && Sound(rest, Learn(step, k))
    ensures Sound([step] + rest, k)
  {
  }

  /** Nothing is activated, and what is done ends confirmed unless it was so. */
  predicate Stops(script: seq<Step>, verified: bool)
    decreases |script|
  {
    if script == [] then verified
    else
      && (script[0].Switch? ==> script[0].on == {})
      && !script[0].Handoff?
      && Stops(script[1..], verified || script[0] in {StopList, StopRelist, StopConfirm})
  }

  predicate OnlyWork(script: seq<Step>) {
    forall i :: 0 <= i < |script| ==> script[i] == Work
  }

  function KnownTo(m: Monitor): Known {
    Known(m.verified, m.listing.sequencer == Inactive, m.listing.compliance == Inactive)
  }

  /** A switch that has been requested is only waited for. */
  function Waiting(script: seq<Step>): seq<Step>
    requires script != []
  {
    if script[0].Switch? then [Work] + script[1..] else script
  }

  /** What will be acknowledged when the script has run. */
  predicate LeftAcknowledged(script: seq<Step>, acknowledged: bool)
    decreases |script|
  {
    if script == [] then acknowledged
    else LeftAcknowledged(script[1..], Acknowledging(script[0], acknowledged))
  }

  /** A stop's lists turn into steps of which the last acknowledges it. */
  predicate Acknowledging(step: Step, acknowledged: bool) {
    if step.Acknowledge? then step.stopped else step in {StopList, StopRelist} || acknowledged
  }

  predicate Quiet(script: seq<Step>) {
    forall i :: 0 <= i < |script| ==> !script[i].Acknowledge? && script[i] !in {StopList, StopRelist}
  }

  /** The rest of a stop: it acknowledges as the last thing it does. */
  predicate StopRest(script: seq<Step>)
    decreases |script|
  {
    && script != []
    && if |script| == 1 then script[0] in {Acknowledge(true), StopList, StopRelist}
       else !script[0].Acknowledge? && script[0] !in {StopList, StopRelist} && StopRest(script[1..])
  }

  /** Only what the operation is for is activated. */
  predicate Activates(kind: Kind, script: seq<Step>) {
    forall i :: 0 <= i < |script| ==> MayTake(kind, script[i])
  }

  predicate MayTake(kind: Kind, step: Step) {
    && (step.Switch? ==> step.on <= MayActivate(kind))
    && (step.Handoff? ==> Compliance in MayActivate(kind))
  }

  /** What a step that goes well leaves listed, in the end: OtherState is what is not
      known of it. */
  function Sees(step: Step, l: Listing): Listing {
    match step
    case OneInactive(motor) =>
      Listing(if motor == Sequencer then Inactive else OtherState, if motor == Compliance then Inactive else OtherState)
    case Switched(on, off) => Listing(Expected(Sequencer, on, off), Expected(Compliance, on, off))
    case Handoff => Listing(OtherState, Active)
    case Work => l
    case Configure(_) => l
    case Switch(_, _) => l
    case Acknowledge(_) => l
    case ClearClock => l
    case _ => Listing(Inactive, Inactive)
  }

  function Expected(motor: Motor, on: set<Motor>, off: set<Motor>): ControllerState {
    if motor in on then Active else if motor in off then Inactive else OtherState
  }

  function LeftListed(script: seq<Step>, l: Listing): Listing
    decreases |script|
  {
    if script == [] then l else LeftListed(script[1..], Sees(script[0], l))
  }

  /** What is known of l is so of l'. */
  predicate Refines(l': Listing, l: Listing) {
    && (l.sequencer != OtherState ==> l'.sequencer == l.sequencer)
    && (l.compliance != OtherState ==> l'.compliance == l.compliance)
  }

  predicate Sequences(script: seq<Step>) {
    exists i :: 0 <= i < |script| && script[i].Switch? && Sequencer in script[i].on
  }

  /** What an operation under way will have done. */
  predicate Fulfils(kind: Kind, script: seq<Step>, m: Monitor) {
    Done(m.(listing := LeftListed(script, m.listing), sequenced := m.sequenced || Sequences(script)), kind)
  }

  /** What an operation under way will have acknowledged and verified. */
  predicate Promises(kind: Kind, script: seq<Step>, m: Monitor, acknowledged: bool) {
    && (if Acknowledges(kind) then LeftAcknowledged(script, acknowledged)
        else acknowledged == m.entered && Quiet(script))
    && kind == m.kind
    && Activates(kind, script)
    && (kind == Operator(Observe) ==> Stops(script, m.verified))
  }

  /** While filing, the stop has been acknowledged unless it is unresolved. */
  predicate Concluded(m: Monitor, acknowledged: bool) {
    m.failed && (m.unresolved || m.verified) && acknowledged == !m.unresolved && (m.unresolved ==> m.latched)
  }

  predicate TaskOk(t: Task, m: Monitor, acknowledged: bool) {
    && t.script != []
    && match t.phase
       case Underway =>
         && !m.latched && !m.failed && !m.unresolved
         && Sound(Waiting(t.script), KnownTo(m)) && Promises(t.kind, t.script, m, acknowledged)
         && Fulfils(t.kind, Waiting(t.script), m)
       case Stopping =>
         && StopsOnFailure(t.kind) && t.kind == m.kind && m.failed && !m.latched && !m.unresolved
         && Stops(t.script, m.verified) && StopRest(t.script) && !acknowledged
       case Filing => StopsOnFailure(t.kind) && t.kind == m.kind && Concluded(m, acknowledged) && OnlyWork(t.script)
  }

  /** Between tasks, or while one runs between its awaits. */
  ghost predicate Idle(s: State, inFlight: int) {
    && s.log.legal
    && s.log.monitor.latched == s.unresolvedStop
    && s.log.monitor.inFlight == inFlight
    && s.busy == (inFlight == 1)
    && s.tasks == []
  }

  ghost predicate Inv(s: State) {
    if s.tasks == [] then Idle(s, 0)
    else |s.tasks| == 1 && Idle(s.(tasks := []), 1) && TaskOk(s.tasks[0], s.log.monitor, s.acknowledged)
  }

  // ----- the scripts -----

  lemma {:induction false} WorkSound(script: seq<Step>, k: Known)
    requires OnlyWork(script)
    ensures Sound(script, k) && Learned(script, k) == k
    decreases |script|
  {
    if script != [] {
      WorkSound(script[1..], k);
    }
  }

  ghost predicate AlwaysSound(script: seq<Step>) {
    forall k {:trigger Sound(script, k)} :: Sound(script, k)
  }

  lemma Joined(a: seq<Step>, b: seq<Step>, k: Known)
    requires Sound(a, k) && AlwaysSound(b)
    ensures Sound(a + b, k)
  {
    SoundJoined(a, b, k);
  }

  /** The parameters are set only while the controller is listed inactive. */
  lemma ZeroSound(off: set<Motor>, k: Known)
    ensures Sound(StartZero(off), k)
  {
    var rest := [Work, Work];
    WorkSound(rest, NOTHING);
    Before(Switched({Compliance}, off), rest, Known(false, false, true));
    var r1 := [Switched({Compliance}, off)] + rest;
    Before(Switch({Compliance}, off), r1, Known(k.verified, false, true));
    var r2 := [Switch({Compliance}, off)] + r1;
    Before(Work, r2, Known(k.verified, false, true));
    Before(OneInactive(Compliance), [Work] + r2, k);
    Before(Work, [OneInactive(Compliance)] + ([Work] + r2), k);
    assert [Work] + ([OneInactive(Compliance)] + ([Work] + r2)) == StartZero(off);
  }

  lemma ActivatingSound(tail: seq<Step>)
    requires AlwaysSound(tail)
    ensures Sound(Activating() + tail, STOPPED)
  {
    var k := Known(true, true, false);
    Before(Switched({Sequencer}, {}), tail, Known(false, true, false));
    var r1 := [Switched({Sequencer}, {})] + tail;
    Before(Switch({Sequencer}, {}), r1, k);
    var r2 := [Switch({Sequencer}, {})] + r1;
    Before(Acknowledge(false), r2, k);
    Before(Work, [Acknowledge(false)] + r2, k);
    var r3 := [Work] + ([Acknowledge(false)] + r2);
    Before(OneInactive(Sequencer), r3, STOPPED);
    assert [OneInactive(Sequencer)] + r3 == Activating() + tail;
  }

  lemma RecordingSound()
    ensures Sound(Recording(), STOPPED)
  {
    var end := [Work, Work, Work, Acknowledge(true)];
    forall k ensures Sound(end, k) {
      HarmlessSound(end, k);
    }
    ActivatingSound(end);
    WorkSound([Work, Work, Work], STOPPED);
    SoundJoined([Work, Work, Work], Activating() + end, STOPPED);
  }

  lemma EndSound(activateAfter: bool)
    ensures AlwaysSound(Fitting() + (if activateAfter then StartZero({Sequencer}) else []) + [Work])
  {
    var zero := if activateAfter then StartZero({Sequencer}) else [];
    forall k ensures Sound(Fitting() + zero + [Work], k) {
      ZeroSound({Sequencer}, Learned(Fitting(), k));
      HarmlessSound(Fitting(), k);
      SoundJoined(Fitting(), zero, k);
      WorkSound([Work], Learned(Fitting() + zero, k));
      SoundJoined(Fitting() + zero, [Work], k);
    }
  }

  lemma StopSound(rest: seq<Step>, k: Known)
    requires Sound(rest, STOPPED)
    ensures Sound(Stop() + rest, k)
  {
  }

  lemma CalibrationSound(activateAfter: bool)
    ensures Sound(Script(Calibration(activateAfter)), NOTHING)
  {
    var end := Fitting() + (if activateAfter then StartZero({Sequencer}) else []) + [Work];
    EndSound(activateAfter);
    RecordingSound();
    Joined(Recording(), end, STOPPED);
    var rest := Recording() + end;
    StopSound(rest, NOTHING);
    var start := [Work, ClearClock, Acknowledge(false), Work];
    HarmlessSound(start, NOTHING);
    NothingLearned(start);
    SoundJoined(start, Stop() + rest, NOTHING);
  }

  lemma {:induction false} NothingLearned(script: seq<Step>)
    requires forall i :: 0 <= i < |script| ==> script[i] in {Work, ClearClock, Acknowledge(false)}
    ensures Learned(script, NOTHING) == NOTHING
    decreases |script|
  {
    if script != [] {
      assert script[0] in {Work, ClearClock, Acknowledge(false)};
      NothingLearned(script[1..]);
    }
  }

  lemma {:induction false} HarmlessSound(script: seq<Step>, k: Known)
    requires forall i :: 0 <= i < |script| ==> !script[i].Switch?
    ensures Sound(script, k)
    decreases |script|
  {
    if script != [] {
      HarmlessSound(script[1..], Learn(script[0], k));
    }
  }

  lemma ScriptSound(kind: Kind)
    ensures Sound(Script(kind), NOTHING)
  {
    match kind
    case Calibration(activateAfter) => CalibrationSound(activateAfter);
    case _ => HarmlessSound(Script(kind), NOTHING);
  }

  lemma {:induction false} LeftJoined(a: seq<Step>, b: seq<Step>, acknowledged: bool)
    ensures LeftAcknowledged(a + b, acknowledged) == LeftAcknowledged(b, LeftAcknowledged(a, acknowledged))
    decreases |a|
  {
    if a == [] {
      assert a + b == b;
    } else {
      assert (a + b)[1..] == a[1..] + b;
      LeftJoined(a[1..], b, Acknowledging(a[0], acknowledged));
    }
  }

  lemma {:induction false} QuietLeaves(script: seq<Step>, acknowledged: bool)
    requires Quiet(script)
    ensures LeftAcknowledged(script, acknowledged) == acknowledged
    decreases |script|
  {
    if script != [] {
      QuietLeaves(script[1..], acknowledged);
    }
  }

  lemma RecordingAcknowledges(tail: seq<Step>, acknowledged: bool)
    requires Quiet(tail)
    ensures LeftAcknowledged(Recording() + tail, acknowledged)
  {
    var start := [Work, Work, Work] + Activating() + [Work, Work, Work];
    assert Recording() == start + [Acknowledge(true)];
    LeftJoined(start, [Acknowledge(true)], acknowledged);
    assert LeftAcknowledged(Recording(), acknowledged);
    LeftJoined(Recording(), tail, acknowledged);
    QuietLeaves(tail, true);
  }

  lemma CalibrationPromises(activateAfter: bool, m: Monitor, acknowledged: bool)
    requires m.kind == Calibration(activateAfter)
    ensures Promises(Calibration(activateAfter), Script(Calibration(activateAfter)), m, acknowledged)
  {
    var end := Fitting() + (if activateAfter then StartZero({Sequencer}) else []) + [Work];
    var start := [Work, ClearClock, Acknowledge(false), Work] + Stop();
    var rest := Recording() + end;
    RecordingAcknowledges(end, LeftAcknowledged(start, acknowledged));
    LeftJoined(start, rest, acknowledged);
    assert Script(Calibration(activateAfter)) == start + rest;
    CalibrationActivates(activateAfter);
  }

  lemma ActivatesJoined(kind: Kind, a: seq<Step>, b: seq<Step>)
    requires Activates(kind, a) && Activates(kind, b)
    ensures Activates(kind, a + b)
  {
  }

  lemma CalibrationActivates(activateAfter: bool)
    ensures Activates(Calibration(activateAfter), Script(Calibration(activateAfter)))
  {
    var kind, zero := Calibration(activateAfter), if activateAfter then StartZero({Sequencer}) else [];
    ActivatesJoined(kind, Fitting(), zero);
    ActivatesJoined(kind, Fitting() + zero, [Work]);
    ActivatesJoined(kind, Activating(), [Work, Work, Work, Acknowledge(true)]);
    ActivatesJoined(kind, [Work, Work, Work], Activating() + [Work, Work, Work, Acknowledge(true)]);
    ActivatesJoined(kind, Recording(), Fitting() + zero + [Work]);
    ActivatesJoined(kind, Stop(), Recording() + (Fitting() + zero + [Work]));
    ActivatesJoined(kind, [Work, ClearClock, Acknowledge(false), Work],
      Stop() + (Recording() + (Fitting() + zero + [Work])));
  }

  lemma ScriptPromises(kind: Kind, m: Monitor, acknowledged: bool)
    requires m.entered == acknowledged && m.kind == kind
    ensures Promises(kind, Script(kind), m, acknowledged)
  {
    match kind
    case Calibration(activateAfter) => CalibrationPromises(activateAfter, m, acknowledged);
    case Operator(Prepare) => PreparePromises(m, acknowledged);
    case _ =>
  }

  lemma PreparePromises(m: Monitor, acknowledged: bool)
    requires m.kind == Operator(Prepare)
    ensures Promises(Operator(Prepare), Script(Operator(Prepare)), m, acknowledged)
  {
    var start := [ClearClock, Work, BothInactive, Work, Work, Work, BothInactive];
    assert Script(Operator(Prepare)) == start + [Acknowledge(true)];
    LeftJoined(start, [Acknowledge(true)], acknowledged);
    LastAcknowledges(LeftAcknowledged(start, acknowledged));
  }

  lemma LastAcknowledges(acknowledged: bool)
    ensures LeftAcknowledged([Acknowledge(true)], acknowledged)
  {
    assert [Acknowledge(true)][1..] == [];
  }

  // ----- one await -----

  /** The observer after an await's outcome was reported. */
  function After(m: Monitor, step: Step, o: Outcome): Monitor {
    if !o.Listed? then m
    else if step == StopConfirm then Watch(m, Confirmed(o.listing))
    else Watch(m, Reported(o.listing))
  }

  lemma ConfirmingSound(l: Listing, physical: bool, tail: seq<Step>, k: Known)
    requires Sound(tail, STOPPED)
    ensures Sound(Confirming(l, physical) + tail, k)
  {
    VerifyingSound(physical, tail, Learned(Configuring(l), k));
    HarmlessSound(Configuring(l), k);
    var rest := Verifying(physical) + tail;
    SoundJoined(Configuring(l), rest, k);
    assert Configuring(l) + rest == Confirming(l, physical) + tail;
  }

  lemma VerifyingIs(physical: bool, tail: seq<Step>)
    ensures [StopVerify] + ([Work] + ([Work] + ([StopConfirm] +
              ((if physical then [Work] else []) + ([Acknowledge(true)] + tail))))) == Verifying(physical) + tail
  {
  }

  lemma VerifyingSound(physical: bool, tail: seq<Step>, k: Known)
    requires Sound(tail, STOPPED)
    ensures Sound(Verifying(physical) + tail, k)
  {
    Before(Acknowledge(true), tail, STOPPED);
    var r1 := [Acknowledge(true)] + tail;
    Before(Work, r1, STOPPED);
    var r2 := (if physical then [Work] else []) + r1;
    assert !physical ==> r2 == r1;
    var k' := Known(k.verified, true, true);
    Before(StopConfirm, r2, k');
    var r3 := [StopConfirm] + r2;
    Before(Work, r3, k');
    Before(Work, [Work] + r3, k');
    Before(StopVerify, [Work] + ([Work] + r3), k);
    VerifyingIs(physical, tail);
  }

  lemma DeactivatingSound(l: Listing, tail: seq<Step>, k: Known)
    requires Sound(tail, STOPPED)
    ensures Sound(Deactivating(l) + tail, k)
  {
  }

  lemma HandoffSound(l: Listing, tail: seq<Step>, k: Known)
    requires Sound(tail, NOTHING)
    ensures Sound([Work] + StartZero(if l.sequencer == Active then {Sequencer} else {}) + tail, k)
  {
    var off := if l.sequencer == Active then {Sequencer} else {};
    ZeroSound(off, k);
    SoundMore(tail, NOTHING, Learned(StartZero(off), k));
    SoundJoined(StartZero(off), tail, k);
    Before(Work, StartZero(off) + tail, k);
    assert [Work] + (StartZero(off) + tail) == [Work] + StartZero(off) + tail;
  }

  /** What a step teaches the script, its outcome has taught the observer. */
  lemma LearnsNoMore(step: Step, o: Outcome, physical: bool, m: Monitor)
    requires !step.Switch? && step !in {StopList, StopRelist, Handoff} && Advance(step, o, physical).Goes?
    ensures Within(Learn(step, KnownTo(m)), KnownTo(After(m, step, o)))
    ensures Advance(step, o, physical).value == []
  {
  }

  /** An await that ends well leaves a sound script. */
  lemma AdvanceSound(step: Step, tail: seq<Step>, o: Outcome, physical: bool, m: Monitor)
    requires Sound(if step.Switch? then [Work] + tail else [step] + tail, KnownTo(m))
    requires Advance(step, o, physical).Goes?
    ensures Sound(Advance(step, o, physical).value + tail, KnownTo(After(m, step, o)))
  {
    var steps, m' := Advance(step, o, physical).value, After(m, step, o);
    assert ([step] + tail)[1..] == tail && ([Work] + tail)[1..] == tail;
    assert steps == [] ==> steps + tail == tail;
    match step
    case StopList => DeactivatingSound(o.listing, tail, KnownTo(m'));
    case StopRelist => ConfirmingSound(o.listing, physical, tail, KnownTo(m'));
    case Handoff => HandoffSound(o.listing, tail, KnownTo(m'));
    case Switch(_, _) => SoundMore(tail, KnownTo(m), KnownTo(m'));
    case _ => AdvanceLearns(step, tail, o, physical, m);
  }

  lemma AdvanceLearns(step: Step, tail: seq<Step>, o: Outcome, physical: bool, m: Monitor)
    requires !step.Switch? && step !in {StopList, StopRelist, Handoff} && Advance(step, o, physical).Goes?
    requires Sound(tail, Learn(step, KnownTo(m)))
    ensures Advance(step, o, physical).value == [] && Sound(tail, KnownTo(After(m, step, o)))
  {
    LearnsNoMore(step, o, physical, m);
    SoundMore(tail, Learn(step, KnownTo(m)), KnownTo(After(m, step, o)));
  }

  lemma StopsBefore(step: Step, rest: seq<Step>, verified: bool)
    requires (step.Switch? ==> step.on == {}) && !step.Handoff?
    requires Stops(rest, verified || step in {StopList, StopRelist, StopConfirm})
    ensures Stops([step] + rest, verified)
  {
  }

  lemma {:induction false} StopsMore(script: seq<Step>, verified: bool)
    requires Stops(script, false)
    ensures Stops(script, verified)
    decreases |script|
  {
    if script != [] && !(script[0] in {StopList, StopRelist, StopConfirm}) {
      StopsMore(script[1..], verified);
    }
  }

  /** Configuring in front of a stop's rest. */
  lemma {:induction false} StopsJoined(a: seq<Step>, b: seq<Step>, verified: bool)
    requires forall i :: 0 <= i < |a| ==> a[i].Configure?
    requires Stops(b, verified)
    ensures Stops(a + b, verified)
    decreases |a|
  {
    if a == [] {
      assert a + b == b;
    } else {
      StopsJoined(a[1..], b, verified);
      StopsBefore(a[0], a[1..] + b, verified);
      assert [a[0]] + (a[1..] + b) == a + b;
    }
  }

  lemma DeactivatingStops(l: Listing, tail: seq<Step>, verified: bool)
    requires Stops(tail, true)
    ensures Stops(Deactivating(l) + tail, verified)
  {
  }

  lemma ConfirmingStops(l: Listing, physical: bool, tail: seq<Step>, verified: bool)
    requires Stops(tail, true)
    ensures Stops(Confirming(l, physical) + tail, verified)
  {
    VerifyingStops(physical, tail);
    StopsMore(Verifying(physical) + tail, verified);
    StopsJoined(Configuring(l), Verifying(physical) + tail, verified);
    assert Configuring(l) + (Verifying(physical) + tail) == Confirming(l, physical) + tail;
  }

  lemma VerifyingStops(physical: bool, tail: seq<Step>)
    requires Stops(tail, true)
    ensures Stops(Verifying(physical) + tail, false)
  {
    StopsBefore(Acknowledge(true), tail, true);
    var r1 := [Acknowledge(true)] + tail;
    StopsBefore(Work, r1, true);
    var r2 := (if physical then [Work] else []) + r1;
    assert !physical ==> r2 == r1;
    StopsBefore(StopConfirm, r2, false);
    var r3 := [StopConfirm] + r2;
    StopsBefore(Work, r3, false);
    StopsBefore(Work, [Work] + r3, false);
    StopsBefore(StopVerify, [Work] + ([Work] + r3), false);
    VerifyingIs(physical, tail);
  }

  lemma AdvanceStops(step: Step, tail: seq<Step>, o: Outcome, physical: bool, m: Monitor)
    requires Stops([step] + tail, m.verified) && Advance(step, o, physical).Goes?
    ensures Stops(Advance(step, o, physical).value + tail, After(m, step, o).verified)
  {
    var steps := Advance(step, o, physical).value;
    assert ([step] + tail)[1..] == tail;
    assert steps == [] ==> steps + tail == tail;
    match step
    case StopList => DeactivatingStops(o.listing, tail, After(m, step, o).verified);
    case StopRelist => ConfirmingStops(o.listing, physical, tail, After(m, step, o).verified);
    case _ =>
  }

  // ----- what a stop leaves acknowledged -----

  lemma QuietJoined(a: seq<Step>, b: seq<Step>, acknowledged: bool)
    requires Quiet(a)
    ensures LeftAcknowledged(a + b, acknowledged) == LeftAcknowledged(b, acknowledged)
  {
    LeftJoined(a, b, acknowledged);
    QuietLeaves(a, acknowledged);
  }

  lemma DeactivatingLeaves(l: Listing, tail: seq<Step>, acknowledged: bool)
    ensures LeftAcknowledged(Deactivating(l) + tail, acknowledged) == LeftAcknowledged(tail, true)
  {
    var active := l.In(Active);
    var off := if active != {} then [Switch({}, active), Switched({}, active)] else [];
    assert Deactivating(l) + tail == off + ([StopRelist] + tail);
    QuietJoined(off, [StopRelist] + tail, acknowledged);
    assert ([StopRelist] + tail)[1..] == tail;
  }

  lemma ConfirmingLeaves(l: Listing, physical: bool, tail: seq<Step>, acknowledged: bool)
    ensures LeftAcknowledged(Confirming(l, physical) + tail, acknowledged) == LeftAcknowledged(tail, true)
  {
    var waits := Configuring(l) + ([StopVerify, Work, Work, StopConfirm] + (if physical then [Work] else []));
    assert Confirming(l, physical) + tail == waits + ([Acknowledge(true)] + tail);
    QuietJoined(waits, [Acknowledge(true)] + tail, acknowledged);
    assert ([Acknowledge(true)] + tail)[1..] == tail;
  }

  lemma AdvanceLeaves(step: Step, tail: seq<Step>, o: Outcome, physical: bool, acknowledged: bool)
    requires Advance(step, o, physical).Goes?
    ensures LeftAcknowledged(Advance(step, o, physical).value + tail, acknowledged)
            == LeftAcknowledged([step] + tail, acknowledged)
  {
    var steps := Advance(step, o, physical).value;
    assert ([step] + tail)[1..] == tail;
    assert steps == [] ==> steps + tail == tail;
    match step
    case StopList => DeactivatingLeaves(o.listing, tail, acknowledged);
    case StopRelist => ConfirmingLeaves(o.listing, physical, tail, acknowledged);
    case Handoff => QuietJoined(steps, tail, acknowledged);
    case _ =>
  }

  lemma AdvanceQuiet(step: Step, tail: seq<Step>, o: Outcome, physical: bool)
    requires Quiet([step] + tail) && Advance(step, o, physical).Goes?
    ensures Quiet(Advance(step, o, physical).value + tail)
  {
    assert ([step] + tail)[0] == step && ([step] + tail)[1..] == tail;
  }

  lemma AdvanceActivates(kind: Kind, step: Step, tail: seq<Step>, o: Outcome, physical: bool)
    requires Activates(kind, [step] + tail) && Advance(step, o, physical).Goes?
    ensures Activates(kind, Advance(step, o, physical).value + tail)
  {
    var steps := Advance(step, o, physical).value;
    assert ([step] + tail)[0] == step && ([step] + tail)[1..] == tail;
    AdvanceTakes(kind, step, o, physical);
    ActivatesJoined(kind, steps, tail);
  }

  lemma AdvanceTakes(kind: Kind, step: Step, o: Outcome, physical: bool)
    requires MayTake(kind, step) && Advance(step, o, physical).Goes?
    ensures Activates(kind, Advance(step, o, physical).value)
  {
    match step
    case StopList => DeactivatingTakes(kind, o.listing);
    case StopRelist => ConfirmingTakes(kind, o.listing, physical);
    case Handoff =>
      var off := if o.listing.sequencer == Active then {Sequencer} else {};
      ZeroTakes(kind, off);
      ActivatesJoined(kind, [Work], StartZero(off));
    case _ =>
  }

  lemma DeactivatingTakes(kind: Kind, l: Listing)
    ensures Activates(kind, Deactivating(l))
  {
  }

  lemma ConfirmingTakes(kind: Kind, l: Listing, physical: bool)
    ensures Activates(kind, Confirming(l, physical))
  {
    ActivatesJoined(kind, Configuring(l), Verifying(physical));
  }

  lemma ZeroTakes(kind: Kind, off: set<Motor>)
    requires Compliance in MayActivate(kind)
    ensures Activates(kind, StartZero(off))
  {
  }

  lemma AdvancePromises(kind: Kind, step: Step, tail: seq<Step>, o: Outcome, physical: bool, m: Monitor, ack: bool)
    requires Promises(kind, [step] + tail, m, ack) && Advance(step, o, physical).Goes?
    ensures Promises(kind, Advance(step, o, physical).value + tail, After(m, step, o), ack)
  {
    AdvanceLeaves(step, tail, o, physical, ack);
    AdvanceActivates(kind, step, tail, o, physical);
    if !Acknowledges(kind) {
      AdvanceQuiet(step, tail, o, physical);
    }
    if kind == Operator(Observe) {
      AdvanceStops(step, tail, o, physical, m);
    }
  }

  // ----- what an operation will have done -----

  lemma {:induction false} ListedJoined(a: seq<Step>, b: seq<Step>, l: Listing)
    ensures LeftListed(a + b, l) == LeftListed(b, LeftListed(a, l))
    decreases |a|
  {
    if a == [] {
      assert a + b == b;
    } else {
      assert (a + b)[1..] == a[1..] + b;
      ListedJoined(a[1..], b, Sees(a[0], l));
    }
  }

  lemma {:induction false} ListedMore(script: seq<Step>, l: Listing, l': Listing)
    requires Refines(l', l)
    ensures Refines(LeftListed(script, l'), LeftListed(script, l))
    decreases |script|
  {
    if script != [] {
      ListedMore(script[1..], Sees(script[0], l), Sees(script[0], l'));
    }
  }

  lemma {:induction false} WorkListed(script: seq<Step>, l: Listing)
    requires forall i :: 0 <= i < |script| ==> script[i] in {Work, Acknowledge(true)}
    ensures LeftListed(script, l) == l
    decreases |script|
  {
    if script != [] {
      assert script[0] in {Work, Acknowledge(true)};
      WorkListed(script[1..], l);
    }
  }

  /** The last step of a script that lists anything. */
  lemma LastListed(front: seq<Step>, step: Step, back: seq<Step>, l: Listing)
    requires forall i :: 0 <= i < |back| ==> back[i] in {Work, Acknowledge(true)}
    ensures LeftListed(front + ([step] + back), l) == Sees(step, LeftListed(front, l))
  {
    ListedJoined(front, [step] + back, l);
    assert ([step] + back)[1..] == back;
    WorkListed(back, Sees(step, LeftListed(front, l)));
  }

  lemma DeactivatingListed(l: Listing)
    ensures LeftListed(Deactivating(l), l) == Listing(Inactive, Inactive)
  {
    var active := l.In(Active);
    ListedJoined(if active != {} then [Switch({}, active), Switched({}, active)] else [], [StopRelist], l);
    assert [StopRelist][1..] == [];
  }

  lemma VerifyingListed(physical: bool, l: Listing)
    ensures LeftListed(Verifying(physical), l) == Listing(Inactive, Inactive)
  {
    var end := (if physical then [Work] else []) + [Acknowledge(true)];
    assert Verifying(physical) == [StopVerify, Work, Work] + ([StopConfirm] + end);
    LastListed([StopVerify, Work, Work], StopConfirm, end, l);
  }

  lemma ZeroListed(off: set<Motor>, l: Listing)
    ensures LeftListed(StartZero(off), l).compliance == Active
  {
    var front := [Work, OneInactive(Compliance), Work, Switch({Compliance}, off)];
    assert StartZero(off) == front + ([Switched({Compliance}, off)] + [Work, Work]);
    LastListed(front, Switched({Compliance}, off), [Work, Work], l);
  }

  /** An await that ends well shows what it was to show. */
  lemma AdvanceSees(step: Step, o: Outcome, physical: bool, m: Monitor)
    requires Advance(step, o, physical).Goes?
    ensures Refines(LeftListed(Advance(step, o, physical).value, After(m, step, o).listing), Sees(step, m.listing))
  {
    var l := After(m, step, o).listing;
    match step
    case StopList => DeactivatingListed(o.listing);
    case StopRelist =>
      ListedJoined(Configuring(o.listing), Verifying(physical), l);
      VerifyingListed(physical, LeftListed(Configuring(o.listing), l));
    case Handoff =>
      var off := if o.listing.sequencer == Active then {Sequencer} else {};
      ListedJoined([Work], StartZero(off), l);
      ZeroListed(off, LeftListed([Work], l));
    case _ =>
  }

  lemma AdvanceSequences(step: Step, tail: seq<Step>, steps: seq<Step>)
    requires Sequences([step] + tail) && !(step.Switch? && Sequencer in step.on)
    ensures Sequences(steps + tail)
  {
    var i :| 0 <= i < |tail| + 1 && ([step] + tail)[i].Switch? && Sequencer in ([step] + tail)[i].on;
    assert (steps + tail)[|steps| + i - 1] == ([step] + tail)[i];
  }

  lemma AdvanceFulfils(kind: Kind, step: Step, tail: seq<Step>, o: Outcome, physical: bool, m: Monitor)
    requires Fulfils(kind, if step.Switch? then [Work] + tail else [step] + tail, m)
    requires Advance(step, o, physical).Goes?
    ensures Fulfils(kind, Advance(step, o, physical).value + tail, After(m, step, o))
  {
    var steps, l := Advance(step, o, physical).value, After(m, step, o).listing;
    var first := if step.Switch? then Work else step;
    assert ([first] + tail)[1..] == tail;
    AdvanceSees(step, o, physical, m);
    ListedJoined(steps, tail, l);
    ListedMore(tail, Sees(first, m.listing), LeftListed(steps, l));
    if Sequences([first] + tail) {
      AdvanceSequences(first, tail, steps);
    }
  }

  lemma CalibrationFulfils(activateAfter: bool, m: Monitor)
    ensures Fulfils(Calibration(activateAfter), Script(Calibration(activateAfter)), m)
  {
    var zero := if activateAfter then StartZero({Sequencer}) else [];
    var front := [Work, ClearClock, Acknowledge(false), Work] + (Stop() + Recording());
    var end := Fitting() + zero + [Work];
    assert Script(Calibration(activateAfter)) == front + end;
    ListedJoined(front, end, m.listing);
    var l := LeftListed(front, m.listing);
    ListedJoined(Fitting() + zero, [Work], l);
    ListedJoined(Fitting(), zero, l);
    ZeroListed({Sequencer}, LeftListed(Fitting(), l));
    FittingListed(l);
    assert (front + end)[12] == Switch({Sequencer}, {});
  }

  lemma FittingListed(l: Listing)
    ensures LeftListed(Fitting(), l).compliance == Inactive
  {
    assert Fitting() == [Work] + ([OneInactive(Compliance)] + [Work, Work]);
    LastListed([Work], OneInactive(Compliance), [Work, Work], l);
  }

  lemma ScriptFulfils(kind: Kind, m: Monitor)
    ensures Fulfils(kind, Script(kind), m)
  {
    match kind
    case Calibration(activateAfter) => CalibrationFulfils(activateAfter, m);
    case _ => OthersFulfil(kind, m);
  }

  lemma OthersFulfil(kind: Kind, m: Monitor)
    requires !kind.Calibration?
    ensures Fulfils(kind, Script(kind), m)
  {
    var front, step, back := Parts(kind);
    LastListed(front, step, back, m.listing);
  }

  /** A script about its last step that lists anything. */
  lemma Parts(kind: Kind) returns (front: seq<Step>, step: Step, back: seq<Step>)
    requires !kind.Calibration?
    ensures Script(kind) == front + ([step] + back)
    ensures forall i :: 0 <= i < |back| ==> back[i] in {Work, Acknowledge(true)}
    ensures step == if kind == Apply then OneInactive(Compliance) else if kind.command == Prepare then BothInactive
                    else if kind.command == Observe then StopList else Handoff
  {
    match kind
    case Operator(Prepare) =>
      front, step, back := [ClearClock, Work, BothInactive, Work, Work, Work], BothInactive, [Acknowledge(true)];
    case Operator(Observe) => front, step, back := [ClearClock, Acknowledge(false)], StopList, [];
    case Operator(StartZeroForce) => front, step, back := [ClearClock, Work], Handoff, [];
    case Apply => front, step, back := [Work, Work, OneInactive(Compliance)], OneInactive(Compliance), [Work, Work];
  }

  /** Steps of a stop in front of its rest. */
  lemma {:induction false} RestJoined(a: seq<Step>, b: seq<Step>)
    requires Quiet(a) && StopRest(b)
    ensures StopRest(a + b)
    decreases |a|
  {
    if a == [] {
      assert a + b == b;
    } else {
      assert (a + b)[1..] == a[1..] + b;
      RestJoined(a[1..], b);
    }
  }

  lemma RestAdvances(step: Step, tail: seq<Step>, o: Outcome, physical: bool)
    requires StopRest([step] + tail) && !step.Handoff? && Advance(step, o, physical).Goes?
    ensures StopRest(Advance(step, o, physical).value + tail)
  {
    var steps := Advance(step, o, physical).value;
    assert ([step] + tail)[1..] == tail;
    assert steps + tail == if steps == [] then tail else if tail == [] then steps else steps + tail;
    match step
    case StopList => RestOfDeactivating(o.listing);
    case StopRelist => RestOfConfirming(o.listing, physical);
    case _ =>
  }

  lemma RestOfDeactivating(l: Listing)
    ensures StopRest(Deactivating(l))
  {
    var active := l.In(Active);
    RestJoined(if active != {} then [Switch({}, active), Switched({}, active)] else [], [StopRelist]);
  }

  lemma RestOfConfirming(l: Listing, physical: bool)
    ensures StopRest(Confirming(l, physical))
  {
    var waits := Configuring(l) + ([StopVerify, Work, Work, StopConfirm] + (if physical then [Work] else []));
    RestJoined(waits, [Acknowledge(true)]);
    assert Confirming(l, physical) == waits + [Acknowledge(true)];
  }

  // ----- every reaction keeps it -----

  /** A task that runs on to its next await, and what it may be at by then. */
  ghost predicate Ready(s: State, t: Task) {
    Idle(s, 1) && MayRun(t, s.log.monitor, s.acknowledged)
  }

  predicate MayRun(t: Task, m: Monitor, acknowledged: bool) {
    match t.phase
    case Underway =>
      && !m.latched && !m.failed && !m.unresolved
      && Sound(t.script, KnownTo(m)) && Promises(t.kind, t.script, m, acknowledged) && Fulfils(t.kind, t.script, m)
    case Stopping =>
      && StopsOnFailure(t.kind) && t.kind == m.kind && m.failed && !m.latched && !m.unresolved
      && Stops(t.script, m.verified)
      && if t.script == [] then acknowledged else StopRest(t.script) && !acknowledged
    case Filing => StopsOnFailure(t.kind) && t.kind == m.kind && Concluded(m, acknowledged) && OnlyWork(t.script)
  }

  lemma FinishInv(s: State, kind: Kind, success: bool)
    requires Idle(s, 1) && kind == s.log.monitor.kind && EndsWell(s.log.monitor, kind, success, s.acknowledged)
    ensures Inv(s.Finish(kind, success))
  {
  }

  lemma LatchIdle(s: State, cause: Cause)
    requires Idle(s, 1) && s.log.monitor.failed
    ensures var s' := s.Latch(cause);
            && Idle(s', 1) && s'.acknowledged == s.acknowledged
            && s'.log.monitor == Watch(s.log.monitor, Latched(cause))
  {
  }

  lemma FileInv(s: State, t: Task)
    requires Idle(s, 1) && Concluded(s.log.monitor, s.acknowledged)
    requires StopsOnFailure(t.kind) && t.kind == s.log.monitor.kind
    ensures Inv(s.File(t))
  {
    LatchIdle(s, ClockWentBack);
  }

  lemma StopInv(s: State, t: Task)
    requires Idle(s, 1) && StopsOnFailure(t.kind) && !s.log.monitor.latched && !s.log.monitor.failed
    requires !s.log.monitor.unresolved && t.kind == s.log.monitor.kind
    ensures Inv(s.Emit(Failed(t.kind)).(acknowledged := false).Suspend(t.(phase := Stopping, script := [StopList])))
  {
    assert [StopList][1..] == [];
  }

  /** What an await that raises leaves to be done. */
  predicate MayFail(t: Task, m: Monitor, acknowledged: bool) {
    match t.phase
    case Underway =>
      t.kind == m.kind && !m.latched && !m.failed && !m.unresolved && (t.kind == Apply ==> acknowledged == m.entered)
    case Stopping => StopsOnFailure(t.kind) && t.kind == m.kind && m.failed && !acknowledged
    case Filing => StopsOnFailure(t.kind) && t.kind == m.kind && Concluded(m, acknowledged)
  }

  lemma FailInv(s: State, t: Task)
    requires Idle(s, 1) && MayFail(t, s.log.monitor, s.acknowledged)
    ensures Inv(s.Fail(t))
  {
    match t.phase
    case Underway =>
      if StopsOnFailure(t.kind) {
        StopInv(s, t);
      } else if t.kind == Operator(Prepare) {
        FinishInv(s.(acknowledged := false), t.kind, false);
      } else {
        FinishInv(s, t.kind, false);
      }
    case Stopping =>
      LatchIdle(s, StopRaised);
      if t.kind.Calibration? {
        FileInv(s.Latch(StopRaised), t);
      } else {
        FinishInv(s.Latch(StopRaised), t.kind, false);
      }
    case Filing => FinishInv(s, t.kind, false);
  }

  lemma CompleteInv(s: State, t: Task)
    requires Ready(s, t) && t.script == []
    ensures Inv(s.Complete(t))
  {
    match t.phase
    case Underway => FinishInv(s, t.kind, true);
    case Stopping =>
      if t.kind.Calibration? {
        FileInv(s, t);
      } else {
        FinishInv(s, t.kind, false);
      }
    case Filing => FinishInv(s, t.kind, false);
  }

  /** Requesting a switch the script allows. */
  lemma RequestInv(s: State, t: Task)
    requires Ready(s, t) && t.script != [] && t.script[0].Switch?
    ensures Inv(s.Emit(Requested(t.script[0].on, t.script[0].off)).Suspend(t))
  {
    RequestKeeps(t, s.log.monitor, s.acknowledged);
  }

  lemma RequestKeeps(t: Task, m: Monitor, acknowledged: bool)
    requires MayRun(t, m, acknowledged) && t.script != [] && t.script[0].Switch?
    ensures Legal(m, Requested(t.script[0].on, t.script[0].off))
    ensures TaskOk(t, Watch(m, Requested(t.script[0].on, t.script[0].off)), acknowledged)
  {
    assert ([Work] + t.script[1..])[1..] == t.script[1..];
  }

  lemma {:induction false} ContinueInv(s: State, t: Task)
    requires Ready(s, t)
    ensures Inv(s.Continue(t))
    decreases |t.script|, 1
  {
    if t.script == [] {
      CompleteInv(s, t);
    } else if t.script[0].Acknowledge? || t.script[0].ClearClock? {
      ContinueEffect(s, t);
    } else if t.script[0].Switch? {
      RequestInv(s, t);
    } else {
      SuspendInv(s, t);
    }
  }

  lemma {:induction false} ContinueEffect(s: State, t: Task)
    requires Ready(s, t) && t.script != [] && (t.script[0].Acknowledge? || t.script[0].ClearClock?)
    ensures Inv(s.Continue(t))
    decreases |t.script|, 0
  {
    var rest := t.(script := t.script[1..]);
    EffectReady(t, s.log.monitor, s.acknowledged);
    if t.script[0].Acknowledge? {
      ContinueInv(s.(acknowledged := t.script[0].stopped), rest);
    } else {
      ContinueInv(s.(timeError := false), rest);
    }
  }

  lemma EffectReady(t: Task, m: Monitor, acknowledged: bool)
    requires MayRun(t, m, acknowledged) && t.script != []
    requires t.script[0].Acknowledge? || t.script[0].ClearClock?
    ensures MayRun(t.(script := t.script[1..]), m,
                   if t.script[0].Acknowledge? then t.script[0].stopped else acknowledged)
  {
  }

  lemma SuspendInv(s: State, t: Task)
    requires Ready(s, t) && t.script != [] && !t.script[0].Switch?
    ensures Inv(s.Suspend(t))
  {
  }

  lemma AdmitInv(s: State, kind: Kind)
    requires Inv(s)
    ensures Inv(s.Admit(kind))
  {
    if s.Free() {
      var admitted := s.(busy := true).Emit(Admitted(kind, s.acknowledged));
      ScriptSound(kind);
      SoundMore(Script(kind), NOTHING, KnownTo(admitted.log.monitor));
      ScriptPromises(kind, admitted.log.monitor, s.acknowledged);
      ScriptFulfils(kind, admitted.log.monitor);
      ContinueInv(admitted, Task(kind, Underway, Script(kind)));
      FailInv(admitted, Task(kind, Underway, Script(kind)));
    }
  }

  lemma ReportedIdle(s: State, step: Step, o: Outcome)
    requires Inv(s) && |s.tasks| == 1
    ensures var reported := s.Take(0).Report(step, o);
            && Idle(reported, 1) && reported.acknowledged == s.acknowledged
            && reported.log.monitor == After(s.log.monitor, step, o)
  {
    assert s.Take(0).tasks == [];
    assert s.Take(0) == s.(tasks := []);
    ReportKeeps(s.Take(0), step, o);
  }

  lemma ReportKeeps(s: State, step: Step, o: Outcome)
    requires Idle(s, 1)
    ensures var reported := s.Report(step, o);
            && Idle(reported, 1) && reported.acknowledged == s.acknowledged
            && reported.log.monitor == After(s.log.monitor, step, o)
  {
  }

  lemma AdvanceRuns(t: Task, o: Outcome, physical: bool, m: Monitor, acknowledged: bool)
    requires TaskOk(t, m, acknowledged) && Advance(t.script[0], o, physical).Goes?
    ensures MayRun(t.(script := Advance(t.script[0], o, physical).value + t.script[1..]), After(m, t.script[0], o),
                   acknowledged)
  {
    var step, tail := t.script[0], t.script[1..];
    assert [step] + tail == t.script;
    match t.phase {
      case Underway =>
        AdvanceSound(step, tail, o, physical, m);
        AdvancePromises(t.kind, step, tail, o, physical, m, acknowledged);
        AdvanceFulfils(t.kind, step, tail, o, physical, m);
      case Stopping =>
        AdvanceStops(step, tail, o, physical, m);
        RestAdvances(step, tail, o, physical);
      case Filing =>
    }
  }

  lemma RaisedFails(t: Task, o: Outcome, m: Monitor, acknowledged: bool)
    requires TaskOk(t, m, acknowledged)
    ensures MayFail(t, After(m, t.script[0], o), acknowledged)
  {
  }

  lemma ResumeInv(s: State, i: nat, o: Outcome)
    requires Inv(s)
    ensures Inv(s.Resume(i, o))
  {
    if i < |s.tasks| {
      var t := s.tasks[0];
      ReportedIdle(s, t.script[0], o);
      match Advance(t.script[0], o, s.physical)
      case Raises =>
        RaisedFails(t, o, s.log.monitor, s.acknowledged);
        FailInv(s.Take(0).Report(t.script[0], o), t);
      case Goes(steps) =>
        AdvanceRuns(t, o, s.physical, s.log.monitor, s.acknowledged);
        ContinueInv(s.Take(0).Report(t.script[0], o), t.(script := steps + t.script[1..]));
    }
  }

  lemma {:induction false} RunInv(physical: bool, inputs: seq<Input>)
    ensures Inv(Run(physical, inputs))
  {
    if inputs != [] {
      RunInv(physical, inputs[..|inputs| - 1]);
      ReactInv(Run(physical, inputs[..|inputs| - 1]), inputs[|inputs| - 1]);
    }
  }

  lemma ReactInv(s: State, input: Input)
    requires Inv(s)
    ensures Inv(React(s, input))
  {
    match input
    case Request(kind) => AdmitInv(s, kind);
    case Resumption(i, outcome) => ResumeInv(s, i, outcome);
    case ClockReversed =>
    case FilesIdle(_) =>
  }

  // ----- the promises -----

  function Events(physical: bool, inputs: seq<Input>): seq<Event> {
    Run(physical, inputs).log.events
  }

  lemma {:induction false} LegalAt(events: seq<Event>, i: nat)
    requires AllLegal(events) && i < |events|
    ensures Legal(Watched(events[..i]), events[i])
  {
    if i < |events| - 1 {
      LegalAt(events[..|events| - 1], i);
      assert events[..|events| - 1][..i] == events[..i];
    }
  }

  /** Every event of every run is legal: see Legal for what that says. */
  lemma EveryEventLegal(physical: bool, inputs: seq<Input>, i: nat)
    requires i < |Events(physical, inputs)|
    ensures Legal(Watched(Events(physical, inputs)[..i]), Events(physical, inputs)[i])
  {
    RunInv(physical, inputs);
    LegalAt(Events(physical, inputs), i);
  }

  /** At most one operation is in flight, and it is what makes the node busy. */
  lemma OneInFlight(physical: bool, inputs: seq<Input>)
    ensures var s := Run(physical, inputs);
            |s.tasks| <= 1 && (s.busy <==> |s.tasks| == 1) && s.log.monitor.inFlight == |s.tasks|
  {
    RunInv(physical, inputs);
  }

  lemma {:induction false} LatchedForGood(events: seq<Event>, i: nat)
    requires i < |events| && events[i].Latched?
    ensures Watched(events).latched
  {
    if i < |events| - 1 {
      LatchedForGood(events[..|events| - 1], i);
    }
  }

  /** Once a stop is unresolved, no activation is requested and no operation begins. */
  lemma NothingAfterLatch(physical: bool, inputs: seq<Input>, i: nat, j: nat)
    requires i < j < |Events(physical, inputs)| && Events(physical, inputs)[i].Latched?
    ensures var e := Events(physical, inputs)[j];
            && !e.Admitted?
            && (e.Requested? ==> e.on == {})
            && (e.Ended? ==> !e.success)
  {
    var events := Events(physical, inputs);
    EveryEventLegal(physical, inputs, j);
    LatchedForGood(events[..j], i);
  }

  // ----- what is admitted -----

  /** Nothing a running coroutine does touches the file worker's state, and what it
      does is only added to the record. */
  predicate Onward(s: State, s': State) {
    s'.filesIdle == s.filesIdle && s'.physical == s.physical && s.log.events <= s'.log.events
  }

  lemma EmitOnward(s: State, e: Event)
    ensures Onward(s, s.Emit(e))
  {
  }

  lemma FinishOnward(s: State, kind: Kind, success: bool)
    ensures Onward(s, s.Finish(kind, success))
  {
    EmitOnward(s.(busy := false), Ended(kind, success, s.acknowledged));
  }

  lemma LatchOnward(s: State, cause: Cause)
    ensures Onward(s, s.Latch(cause))
  {
    EmitOnward(s.(unresolvedStop := true), Latched(cause));
  }

  lemma FileOnward(s: State, t: Task)
    ensures Onward(s, s.File(t))
  {
    LatchOnward(s, ClockWentBack);
  }

  lemma SuspendOnward(s: State, t: Task, s': State)
    requires t.script != []
    requires s' == if t.script[0].Switch? then s.Emit(Requested(t.script[0].on, t.script[0].off)).Suspend(t)
                   else s.Suspend(t)
    ensures Onward(s, s')
  {
    if t.script[0].Switch? {
      EmitOnward(s, Requested(t.script[0].on, t.script[0].off));
    }
  }

  lemma CompleteOnward(s: State, t: Task, s': State)
    requires s' == s.Complete(t)
    ensures Onward(s, s')
  {
    FileOnward(s, t);
    FinishOnward(s, t.kind, t.phase == Underway);
  }

  lemma StopOnward(s: State, t: Task)
    ensures var s' := s.Latch(StopRaised);
            Onward(s, if t.kind.Calibration? then s'.File(t) else s'.Finish(t.kind, false))
  {
    LatchOnward(s, StopRaised);
    FileOnward(s.Latch(StopRaised), t);
    FinishOnward(s.Latch(StopRaised), t.kind, false);
    OnwardTwice(s, s.Latch(StopRaised), s.Latch(StopRaised).File(t));
    OnwardTwice(s, s.Latch(StopRaised), s.Latch(StopRaised).Finish(t.kind, false));
  }

  lemma OnwardTwice(s: State, s': State, s'': State)
    requires Onward(s, s') && Onward(s', s'')
    ensures Onward(s, s'')
  {
  }

  lemma FailOnward(s: State, t: Task)
    ensures Onward(s, s.Fail(t))
  {
    match t.phase
    case Underway =>
      EmitOnward(s, Failed(t.kind));
      FinishOnward(s, t.kind, false);
      FinishOnward(s.(acknowledged := false), t.kind, false);
    case Stopping => StopOnward(s, t);
    case Filing => FinishOnward(s, t.kind, false);
  }

  lemma {:induction false} ContinueOnward(s: State, t: Task, s': State)
    requires s' == s.Continue(t)
    ensures Onward(s, s')
    decreases |t.script|
  {
    if t.script == [] {
      CompleteOnward(s, t, s');
    } else if t.script[0].Acknowledge? {
      ContinueOnward(s.(acknowledged := t.script[0].stopped), t.(script := t.script[1..]), s');
    } else if t.script[0].ClearClock? {
      ContinueOnward(s.(timeError := false), t.(script := t.script[1..]), s');
    } else {
      SuspendOnward(s, t, s');
    }
  }

  lemma ReportOnward(s: State, step: Step, o: Outcome)
    ensures Onward(s, s.Report(step, o))
  {
    if o.Listed? {
      EmitOnward(s, if step == StopConfirm then Confirmed(o.listing) else Reported(o.listing));
    }
  }

  lemma ResumeOnward(s: State, i: nat, o: Outcome)
    ensures Onward(s, s.Resume(i, o))
  {
    if i < |s.tasks| && s.tasks[i].script != [] {
      var t := s.tasks[i];
      var reported := s.Take(i).Report(t.script[0], o);
      ReportOnward(s.Take(i), t.script[0], o);
      match Advance(t.script[0], o, s.physical)
      case Raises =>
        FailOnward(reported, t);
        OnwardTwice(s, reported, reported.Fail(t));
      case Goes(steps) =>
        var s' := reported.Continue(t.(script := steps + t.script[1..]));
        ContinueOnward(reported, t.(script := steps + t.script[1..]), s');
        OnwardTwice(s, reported, s');
    }
  }

  lemma AdmitOnward(s: State, kind: Kind)
    ensures Onward(s, s.Admit(kind))
    ensures s.Free() ==> s.log.events + [Admitted(kind, s.acknowledged)] <= s.Admit(kind).log.events
    ensures !s.Free() ==> s.Admit(kind) == s
  {
    if s.Free() {
      var admitted := s.(busy := true).Emit(Admitted(kind, s.acknowledged));
      var t := Task(kind, Underway, Script(kind));
      ContinueOnward(admitted, t, admitted.Continue(t));
      FailOnward(admitted, t);
    }
  }

  /** What the file worker was last said to be. */
  function LastFiles(inputs: seq<Input>): bool {
    if inputs == [] then true
    else
      var last := inputs[|inputs| - 1];
      if last.FilesIdle? then last.idle else LastFiles(inputs[..|inputs| - 1])
  }

  lemma {:induction false} FilesAre(physical: bool, inputs: seq<Input>)
    ensures Run(physical, inputs).filesIdle == LastFiles(inputs) && Run(physical, inputs).physical == physical
  {
    if inputs != [] {
      var front, last := inputs[..|inputs| - 1], inputs[|inputs| - 1];
      FilesAre(physical, front);
      match last
      case Request(kind) => AdmitOnward(Run(physical, front), kind);
      case Resumption(i, o) => ResumeOnward(Run(physical, front), i, o);
      case _ =>
    }
  }

  lemma {:induction false} LatchedMeans(events: seq<Event>)
    requires Watched(events).latched
    ensures exists i :: 0 <= i < |events| && events[i].Latched?
  {
    var front, e := events[..|events| - 1], events[|events| - 1];
    if e.Latched? {
      assert events[|front|].Latched?;
    } else {
      LatchedMeans(front);
      var i :| 0 <= i < |front| && front[i].Latched?;
      assert events[i].Latched?;
    }
  }

  predicate NoneLatched(events: seq<Event>) {
    forall i :: 0 <= i < |events| ==> !events[i].Latched?
  }

  /** A request is admitted if and only if no operation is in flight, nothing has been
      latched, and the file worker is idle; one that is not changes nothing. */
  lemma AdmittedExactlyWhen(physical: bool, inputs: seq<Input>, kind: Kind)
    ensures var s, s' := Run(physical, inputs), Run(physical, inputs + [Request(kind)]);
            if s.log.monitor.inFlight == 0 && LastFiles(inputs) && NoneLatched(s.log.events) then
              s.log.events + [Admitted(kind, s.acknowledged)] <= s'.log.events
            else
              s' == s
  {
    var s := Run(physical, inputs);
    assert (inputs + [Request(kind)])[..|inputs|] == inputs;
    RunInv(physical, inputs);
    FilesAre(physical, inputs);
    AdmitOnward(s, kind);
    if s.unresolvedStop {
      LatchedMeans(s.log.events);
    }
    forall i | 0 <= i < |s.log.events| && s.log.events[i].Latched? ensures s.unresolvedStop {
      LatchedForGood(s.log.events, i);
    }
  }

  /** Preparing hardware fails at once where there is none. */
  lemma PrepareNeedsHardware(inputs: seq<Input>)
    ensures var s, s' := Run(false, inputs), Run(false, inputs + [Request(Operator(Prepare))]);
            var failing := [Admitted(Operator(Prepare), s.acknowledged), Ended(Operator(Prepare), false, false)];
            s.Free() ==> s'.log.events == s.log.events + failing
  {
    var s := Run(false, inputs);
    assert (inputs + [Request(Operator(Prepare))])[..|inputs|] == inputs;
    FilesAre(false, inputs);
  }

  // ----- the stop after a failure -----

  /** From k on the same operation runs, it does not fail, and it asks for no
      activation. */
  predicate Undisturbed(events: seq<Event>, k: nat) {
    forall j :: k < j < |events| ==>
      !events[j].Admitted? && !events[j].Failed? && (events[j].Requested? ==> events[j].on == {})
  }

  /** k is the latest final listing of a stop, it showed both controllers inactive, and
      it belongs to the operation in flight, after its failure if it has failed. */
  predicate VerifiedAt(events: seq<Event>, k: nat)
    requires k < |events|
  {
    && events[k].Confirmed? && events[k].listing.BothInactive()
    && Undisturbed(events, k)
    && forall j :: k < j < |events| ==> !events[j].Confirmed?
  }

  lemma {:induction false} VerifiedMeans(events: seq<Event>) returns (k: nat)
    requires Watched(events).verified
    ensures k < |events| && VerifiedAt(events, k)
  {
    var front, e := events[..|events| - 1], events[|events| - 1];
    if e.Confirmed? {
      k := |front|;
    } else {
      k := VerifiedMeans(front);
      assert forall j :: k < j < |front| ==> events[j] == front[j];
    }
  }

  lemma VerifiedAfter(events: seq<Event>, k: nat, j: nat)
    requires k < |events| && VerifiedAt(events, k)
    requires j < |events| && (events[j].Failed? || events[j].Admitted?)
    ensures j < k
  {
  }

  /** The operation in flight failed at f. */
  predicate FailedAt(events: seq<Event>, f: nat)
    requires f < |events|
  {
    events[f].Failed? && Undisturbed(events, f)
  }

  lemma {:induction false} UnresolvedHasFailed(events: seq<Event>)
    requires AllLegal(events) && Watched(events).unresolved
    ensures Watched(events).failed
  {
    var front, e := events[..|events| - 1], events[|events| - 1];
    if Watched(front).unresolved && !e.Admitted? {
      UnresolvedHasFailed(front);
    }
  }

  lemma {:induction false} KindMeans(events: seq<Event>, f: nat)
    requires AllLegal(events) && f < |events| && FailedAt(events, f)
    ensures events[f] == Failed(Watched(events).kind)
    decreases |events|
  {
    var front, e := events[..|events| - 1], events[|events| - 1];
    if f < |front| {
      assert forall j :: f <= j < |front| ==> events[j] == front[j];
      KindMeans(front, f);
    }
  }

  lemma FailedKept(m: Monitor, e: Event)
    requires Legal(m, e) && Watch(m, e).failed && !e.Failed?
    ensures m.failed && !e.Admitted? && (e.Requested? ==> e.on == {})
  {
  }

  lemma {:induction false} FailedMeans(events: seq<Event>) returns (f: nat)
    requires AllLegal(events) && Watched(events).failed
    ensures f < |events| && FailedAt(events, f)
  {
    var front, e := events[..|events| - 1], events[|events| - 1];
    if !e.Failed? { FailedKept(Watched(front), e); }
    if e.Failed? {
      f := |front|;
    } else {
      f := FailedMeans(front);
      assert forall j :: f <= j < |front| ==> events[j] == front[j];
    }
  }

  lemma {:induction false} UnresolvedMeans(events: seq<Event>, f: nat)
    requires AllLegal(events) && f < |events| && FailedAt(events, f)
    ensures Watched(events).unresolved <==> exists l: nat :: f < l < |events| && events[l] == Latched(StopRaised)
    decreases |events|
  {
    var front, e := events[..|events| - 1], events[|events| - 1];
    if f == |front| {
      assert Watched(front).unresolved ==> Watched(front).failed by {
        if Watched(front).unresolved { UnresolvedHasFailed(front); }
      }
    } else {
      assert forall j :: f <= j < |front| ==> events[j] == front[j];
      UnresolvedMeans(front, f);
      assert e == Latched(StopRaised) ==> events[|front|] == Latched(StopRaised);
      assert events[f].Failed? && e == events[|front|];
    }
  }

  /** A failed stop-bound operation, at its end: since its own failure it has asked for
      no activation, and either its stop's final listing has shown both motion
      controllers inactive, which is acknowledged, or that stop has raised, which
      latches it as unresolved and is not. */
  ghost predicate EndsStopped(events: seq<Event>, kind: Kind, acknowledged: bool, f: nat)
    requires f < |events|
  {
    && events[f] == Failed(kind) && Undisturbed(events, f)
    && (acknowledged ==> exists k: nat :: f < k < |events| && VerifiedAt(events, k))
    && (!acknowledged <==> exists l: nat :: f < l < |events| && events[l] == Latched(StopRaised))
  }

  /** A calibration, or an operator's start or stop, that fails or is cancelled ends
      so, under every interleaving and every outcome. */
  lemma FailureEndsStopped(physical: bool, inputs: seq<Input>, i: nat) returns (f: nat)
    requires i < |Events(physical, inputs)|
    requires Events(physical, inputs)[i].Ended? && !Events(physical, inputs)[i].success
    requires StopsOnFailure(Events(physical, inputs)[i].kind)
    ensures f < i
    ensures var e := Events(physical, inputs)[i];
            EndsStopped(Events(physical, inputs)[..i], e.kind, e.acknowledged, f)
  {
    var events := Events(physical, inputs);
    EveryEventLegal(physical, inputs, i);
    RunInv(physical, inputs);
    PrefixLegal(events, i);
    f := FailedMeans(events[..i]);
    KindMeans(events[..i], f);
    UnresolvedMeans(events[..i], f);
    if events[i].acknowledged {
      var k := VerifiedMeans(events[..i]);
      VerifiedAfter(events[..i], k, f);
    }
  }

  lemma {:induction false} PrefixLegal(events: seq<Event>, n: nat)
    requires AllLegal(events) && n <= |events|
    ensures AllLegal(events[..n])
    decreases |events|
  {
    if n < |events| {
      PrefixLegal(events[..|events| - 1], n);
      assert events[..|events| - 1][..n] == events[..n];
    } else {
      assert events[..n] == events;
    }
  }

  // ----- what is activated, and what success means -----

  /** The operation in flight was admitted at a. */
  predicate AdmittedAt(events: seq<Event>, a: nat, e: Event)
    requires a < |events|
  {
    e.Admitted? && events[a] == e && forall j :: a < j < |events| ==> !events[j].Admitted?
  }

  function Admission(m: Monitor): Event {
    Admitted(m.kind, m.entered)
  }

  /** Some operation has been admitted. */
  predicate Begun(m: Monitor) {
    m.kind != Apply || m.inFlight > 0
  }

  lemma AdmissionKept(m: Monitor, e: Event)
    ensures Admission(Watch(m, e)) == if e.Admitted? then e else Admission(m)
    ensures Begun(Watch(m, e)) ==> e.Admitted? || Begun(m)
  {
  }

  lemma {:induction false} AdmittedMeans(events: seq<Event>) returns (a: nat)
    requires Begun(Watched(events))
    ensures a < |events| && AdmittedAt(events, a, Admission(Watched(events)))
  {
    var front, e := events[..|events| - 1], events[|events| - 1];
    AdmissionKept(Watched(front), e);
    if e.Admitted? {
      a := |front|;
    } else {
      a := AdmittedMeans(front);
      assert forall j :: a <= j < |front| ==> events[j] == front[j];
    }
  }

  /** The last listing since that admission. */
  predicate ListedAt(events: seq<Event>, k: nat, l: Listing)
    requires k < |events|
  {
    && (events[k] == Reported(l) || events[k] == Confirmed(l))
    && forall j :: k < j < |events| ==> !events[j].Reported? && !events[j].Confirmed? && !events[j].Admitted?
  }

  lemma ListingKept(m: Monitor, e: Event)
    requires !e.Reported? && !e.Confirmed? && !e.Admitted?
    ensures Watch(m, e).listing == m.listing
  {
  }

  lemma {:induction false} ListedMeans(events: seq<Event>) returns (k: nat)
    requires Watched(events).listing != UNLISTED
    ensures k < |events| && ListedAt(events, k, Watched(events).listing)
  {
    var front, e := events[..|events| - 1], events[|events| - 1];
    if e.Reported? || e.Confirmed? {
      k := |front|;
    } else {
      assert !e.Admitted?;
      ListingKept(Watched(front), e);
      k := ListedMeans(front);
      assert forall j :: k <= j < |front| ==> events[j] == front[j];
    }
  }

  lemma ListedAfter(events: seq<Event>, k: nat, a: nat, l: Listing, e: Event)
    requires k < |events| && ListedAt(events, k, l)
    requires a < |events| && AdmittedAt(events, a, e)
    ensures a < k
  {
  }

  /** The sequencer is activated only by a calibration, while just listed inactive,
      and after a stop of that calibration's own whose final listing showed both
      controllers inactive, with no activation requested since. */
  lemma SequencerAfterStop(physical: bool, inputs: seq<Input>, i: nat) returns (a: nat, k: nat)
    requires i < |Events(physical, inputs)|
    requires Events(physical, inputs)[i].Requested? && Sequencer in Events(physical, inputs)[i].on
    ensures var before := Events(physical, inputs)[..i];
            && a < k < i
            && before[a].Admitted? && before[a].kind.Calibration? && (forall j :: a < j < i ==> !before[j].Admitted?)
            && VerifiedAt(before, k)
            && Watched(before).listing.sequencer == Inactive
  {
    var before := Events(physical, inputs)[..i];
    EveryEventLegal(physical, inputs, i);
    k := VerifiedMeans(before);
    a := AdmittedMeans(before);
    VerifiedAfter(before, k, a);
  }

  /** Compliance is activated only by an operation that was asked for it, a start or
      a calibration with compliance after it, and while that operation's last listing
      showed it inactive. */
  lemma ComplianceAsAsked(physical: bool, inputs: seq<Input>, i: nat) returns (a: nat, k: nat, l: Listing)
    requires i < |Events(physical, inputs)|
    requires Events(physical, inputs)[i].Requested? && Compliance in Events(physical, inputs)[i].on
    ensures var before := Events(physical, inputs)[..i];
            && a < k < i
            && before[a].Admitted? && AdmittedAt(before, a, before[a])
            && before[a].kind in {Operator(StartZeroForce), Calibration(true)}
            && ListedAt(before, k, l) && l.compliance == Inactive
  {
    var before := Events(physical, inputs)[..i];
    EveryEventLegal(physical, inputs, i);
    ComplianceLegal(Watched(before), Events(physical, inputs)[i]);
    l := Watched(before).listing;
    k := ListedMeans(before);
    a := AdmittedMeans(before);
    ListedAfter(before, k, a, l, before[a]);
  }

  lemma ComplianceLegal(m: Monitor, e: Event)
    requires Legal(m, e) && e.Requested? && Compliance in e.on
    ensures m.kind in {Operator(StartZeroForce), Calibration(true)} && m.listing.compliance == Inactive
    ensures Begun(m) && m.listing != UNLISTED
  {
  }

  lemma SequencedKept(m: Monitor, e: Event)
    requires Watch(m, e).sequenced
    ensures !e.Admitted? && (m.sequenced || (e.Requested? && Sequencer in e.on))
  {
  }

  /** The operation in flight has asked for the sequencer's activation. */
  lemma {:induction false} SequencedMeans(events: seq<Event>, a: nat, e: Event) returns (r: nat)
    requires Watched(events).sequenced && a < |events| && AdmittedAt(events, a, e)
    ensures a < r < |events| && events[r].Requested? && Sequencer in events[r].on
    decreases |events|
  {
    var front, last := events[..|events| - 1], events[|events| - 1];
    SequencedKept(Watched(front), last);
    if last.Requested? && Sequencer in last.on {
      r := |front|;
    } else {
      assert forall j :: a <= j < |front| ==> events[j] == front[j];
      r := SequencedMeans(front, a, e);
    }
  }

  /** What success says: since its admission a calibration has had the sequencer
      activated, and its last listing showed compliance active if that was asked for,
      inactive if not; so it did after a start and after any other operation, and both
      controllers inactive after a preparation or an observation. */
  lemma SuccessMeans(physical: bool, inputs: seq<Input>, i: nat) returns (a: nat, k: nat, l: Listing, r: nat)
    requires i < |Events(physical, inputs)|
    requires Events(physical, inputs)[i].Ended? && Events(physical, inputs)[i].success
    ensures var before, kind := Events(physical, inputs)[..i], Events(physical, inputs)[i].kind;
            && a < k < i
            && before[a].Admitted? && AdmittedAt(before, a, before[a]) && before[a].kind == kind
            && ListedAt(before, k, l)
            && l.compliance == (if kind in {Operator(StartZeroForce), Calibration(true)} then Active else Inactive)
            && (kind in {Operator(Prepare), Operator(Observe)} ==> l.BothInactive())
            && (kind.Calibration? ==> a < r < i && before[r].Requested? && Sequencer in before[r].on)
  {
    var before, kind := Events(physical, inputs)[..i], Events(physical, inputs)[i].kind;
    EveryEventLegal(physical, inputs, i);
    l := Watched(before).listing;
    k := ListedMeans(before);
    a := AdmittedMeans(before);
    ListedAfter(before, k, a, l, before[a]);
    r := 0;
    if kind.Calibration? {
      r := SequencedMeans(before, a, before[a]);
    }
  }

  // ----- what the node acknowledges -----

  /** A successful operation: what it reports as acknowledged. */
  lemma SuccessAcknowledges(physical: bool, inputs: seq<Input>, i: nat)
    requires i < |Events(physical, inputs)|
    requires Events(physical, inputs)[i].Ended? && Events(physical, inputs)[i].success
    ensures var before, e := Events(physical, inputs)[..i], Events(physical, inputs)[i];
            && (Acknowledges(e.kind) ==> e.acknowledged)
            && (e.kind == Operator(Observe) ==> exists k: nat :: k < i && VerifiedAt(before, k))
            && (e.kind == Operator(StartZeroForce) ==>
                  exists a: nat :: a < i && before[a] == Admitted(e.kind, e.acknowledged)
                                   && forall j :: a < j < i ==> !before[j].Admitted?)
  {
    EveryEventLegal(physical, inputs, i);
    var before, e := Events(physical, inputs)[..i], Events(physical, inputs)[i];
    if e.kind == Operator(Observe) {
      var k := VerifiedMeans(before);
    }
    if e.kind == Operator(StartZeroForce) {
      var a := AdmittedMeans(before);
      assert before[a] == Admitted(e.kind, e.acknowledged);
    }
  }
}
