/** The calibration coordinator: one operation at a time, each a coroutine that is
    resumed at its awaits in any order with any outcome, and a stop that is either
    verified or latched as unresolved. */
module Coordinator {
  datatype Motor = Sequencer | Compliance

  datatype ControllerState = Active | Inactive | Unconfigured | OtherState

  datatype Listing = Listing(sequencer: ControllerState, compliance: ControllerState)
  {
    function Of(motor: Motor): ControllerState {
      if motor == Sequencer then sequencer else compliance
    }

    predicate BothInactive() {
      sequencer == Inactive && compliance == Inactive
    }

    function In(state: ControllerState): set<Motor> {
      (if sequencer == state then {Sequencer} else {}) + (if compliance == state then {Compliance} else {})
    }
  }

  /** What a coroutine has still to do: its awaits, and two effects between them.
      Work is an await that asks the motion controllers for no change of state:
      files, parameters, feedback, pauses. */
  datatype Step =
    | Work
    | BothInactive
    | OneInactive(motor: Motor)
    | Handoff
    | Switch(on: set<Motor>, off: set<Motor>)
    | Switched(on: set<Motor>, off: set<Motor>)
    | Configure(motor: Motor)
    | StopList
    | StopRelist
    | StopVerify
    | StopConfirm
    | Acknowledge(stopped: bool)
    | ClearClock

  /** How an await ends: with a listing, with a reply that is good or not, or with an
      exception, which a failed check, a timeout or a cancellation raises as well. */
  datatype Outcome = Raised | Replied(good: bool) | Listed(listing: Listing, finished: bool)

  datatype Raising<T> = Raises | Goes(value: T)

  function When(condition: bool, steps: seq<Step>): Raising<seq<Step>> {
    if condition then Goes(steps) else Raises
  }

  /** Awaits that restore, verify and confirm both controllers' inactivity. */
  function Confirming(l: Listing, physical: bool): seq<Step> {
    Configuring(l) + Verifying(physical)
  }

  function Verifying(physical: bool): seq<Step> {
    [StopVerify, Work, Work, StopConfirm] + (if physical then [Work] else []) + [Acknowledge(true)]
  }

  function Configuring(l: Listing): seq<Step> {
    (if l.sequencer == Unconfigured then [Configure(Sequencer)] else []) +
    (if l.compliance == Unconfigured then [Configure(Compliance)] else [])
  }

  function Deactivating(l: Listing): seq<Step> {
    var active := l.In(Active);
    (if active != {} then [Switch({}, active), Switched({}, active)] else []) + [StopRelist]
  }

  function Stop(): seq<Step> {
    [Acknowledge(false), StopList]
  }

  /** Parameters read and set while inactive, the handoff, and the new baseline. */
  function StartZero(off: set<Motor>): seq<Step> {
    [Work, OneInactive(Compliance), Work, Switch({Compliance}, off), Switched({Compliance}, off), Work, Work]
  }

  /** The steps an await turns into when it ends. */
  function Advance(step: Step, o: Outcome, physical: bool): Raising<seq<Step>> {
    match step
    case Work => When(o.Replied? && o.good, [])
    case Configure(_) => When(o.Replied? && o.good, [])
    case Switch(_, _) => When(o.Replied? && o.good, [])
    case Acknowledge(_) => Raises
    case ClearClock => Raises
    case _ =>
      if !o.Listed? then Raises
      else AdvanceListing(step, o.listing, o.finished, physical)
  }

  function AdvanceListing(step: Step, l: Listing, finished: bool, physical: bool): Raising<seq<Step>> {
    match step
    case StopList => Goes(Deactivating(l))
    case StopRelist => Goes(Confirming(l, physical))
    case OneInactive(motor) => When(l.Of(motor) == Inactive, [])
    case Handoff =>
      When(l.compliance == Inactive && (l.sequencer == Active ==> finished),
        [Work] + StartZero(if l.sequencer == Active then {Sequencer} else {}))
    case Switched(on, off) =>
      When((forall m :: m in on ==> l.Of(m) == Active) && (forall m :: m in off ==> l.Of(m) == Inactive), [])
    case _ => When(l.BothInactive(), [])
  }

  // ----- tasks -----

  datatype Command = Prepare | Observe | StartZeroForce

  datatype Kind = Calibration(activateAfter: bool) | Operator(command: Command) | Apply

  datatype Phase = Underway | Stopping | Filing

  datatype Task = Task(kind: Kind, phase: Phase, script: seq<Step>)

  /** The trial's identity set while inactive, the trajectory recorded and drained. */
  function Recording(): seq<Step> {
    [Work, Work, Work] + (Activating() + [Work, Work, Work, Acknowledge(true)])
  }

  function Activating(): seq<Step> {
    [OneInactive(Sequencer), Work, Acknowledge(false), Switch({Sequencer}, {}), Switched({Sequencer}, {})]
  }

  /** The fit, and its coefficient applied while the other controller is inactive. */
  function Fitting(): seq<Step> {
    [Work, OneInactive(Compliance), Work, Work]
  }

  /** The awaits of a kind of operation when all goes well. */
  function Script(kind: Kind): seq<Step> {
    match kind
    case Calibration(activateAfter) =>
      [Work, ClearClock, Acknowledge(false), Work] +
      (Stop() + (Recording() + (Fitting() + (if activateAfter then StartZero({Sequencer}) else []) + [Work])))
    case Operator(Prepare) => [ClearClock, Work, BothInactive, Work, Work, Work, BothInactive, Acknowledge(true)]
    case Operator(Observe) => [ClearClock] + Stop()
    case Operator(StartZeroForce) => [ClearClock, Work, Handoff]
    case Apply => [Work, Work, OneInactive(Compliance), OneInactive(Compliance), Work, Work]
  }

  /** What a kind of operation may activate. */
  function MayActivate(kind: Kind): set<Motor> {
    match kind
    case Calibration(activateAfter) => if activateAfter then {Sequencer, Compliance} else {Sequencer}
    case Operator(StartZeroForce) => {Compliance}
    case _ => {}
  }

  /** Which failures are followed by a stop. */
  predicate StopsOnFailure(kind: Kind) {
    kind.Calibration? || (kind.Operator? && kind.command != Prepare)
  }

  // ----- an observer -----

  datatype Cause = StopRaised | ClockWentBack

  /** acknowledged is what the node shows at that moment; Failed is the failure that a
      stop has to follow. */
  datatype Event =
    | Admitted(kind: Kind, acknowledged: bool)
    | Requested(on: set<Motor>, off: set<Motor>)
    | Reported(listing: Listing)
    | Confirmed(listing: Listing)
    | Failed(kind: Kind)
    | Latched(cause: Cause)
    | Ended(kind: Kind, success: bool, acknowledged: bool)

  /** kind, failed, unresolved, entered and sequenced are about the operation in
      flight: which it is, whether it has failed and must stop, whether that stop has
      failed as well, what was acknowledged when it was admitted, and whether it has
      asked for the sequencer's activation.
      verified: the final listing of a stop of its own, made after its failure if it
      has failed, showed both controllers inactive and no activation has been
      requested since.
      listing: the last one since the operation was admitted. */
  datatype Monitor = Monitor(
    inFlight: int,
    kind: Kind,
    latched: bool,
    failed: bool,
    unresolved: bool,
    entered: bool,
    sequenced: bool,
    verified: bool,
    listing: Listing)

  const UNLISTED := Listing(OtherState, OtherState)

  const START_MONITOR := Monitor(0, Apply, false, false, false, false, false, false, UNLISTED)

  function Watch(m: Monitor, e: Event): Monitor {
    match e
    case Admitted(kind, acknowledged) =>
      m.(inFlight := m.inFlight + 1, kind := kind, failed := false, unresolved := false, entered := acknowledged,
         sequenced := false, verified := false, listing := UNLISTED)
    case Requested(on, _) =>
      if on == {} then m else m.(sequenced := m.sequenced || Sequencer in on, verified := false)
    case Reported(l) => m.(listing := l)
    case Confirmed(l) => m.(listing := l, verified := l.BothInactive())
    case Failed(_) => m.(failed := true, verified := false)
    case Latched(cause) => m.(latched := true, unresolved := m.unresolved || cause == StopRaised)
    case Ended(_, _, _) => m.(inFlight := m.inFlight - 1)
  }

  /** The operations whose success says that something is acknowledged; the others
      leave that as it was. */
  predicate Acknowledges(kind: Kind) {
    kind.Calibration? || (kind.Operator? && kind.command != StartZeroForce)
  }

  /** What an operation that succeeds has done: a calibration has had the sequencer
      activated and, at its last listing, compliance active if it was asked for and
      inactive if not; a start leaves compliance listed active, any other operation
      leaves it inactive, and a preparation or an observation both controllers. */
  predicate Done(m: Monitor, kind: Kind) {
    && (kind.Calibration? ==> m.sequenced)
    && m.listing.compliance == (if Compliance in MayActivate(kind) then Active else Inactive)
    && (kind.Operator? && kind.command != StartZeroForce ==> m.listing.sequencer == Inactive)
  }

  /** How an operation may end.  One that has failed and must stop ends with its own
      stop verified, which it then acknowledges, or unresolved, which it does not. */
  predicate EndsWell(m: Monitor, kind: Kind, success: bool, acknowledged: bool) {
    if success then
      && !m.latched && !m.failed && Done(m, kind)
      && acknowledged == (Acknowledges(kind) || m.entered)
      && (kind == Operator(Observe) ==> m.verified)
    else if StopsOnFailure(kind) then
      m.failed && (m.unresolved || m.verified) && acknowledged == !m.unresolved && (m.unresolved ==> m.latched)
    else acknowledged == (kind == Apply && m.entered)
  }

  /** One operation at a time, none after a latched stop; activation only of a
      controller just listed inactive and by an operation that is for it, the
      sequencer's only after a verified stop of its own, none after a failure or once a
      stop is unresolved. */
  predicate Legal(m: Monitor, e: Event) {
    match e
    case Admitted(_, _) => m.inFlight == 0 && !m.latched
    case Requested(on, _) =>
      on != {} ==>
        && !m.latched && !m.failed && on <= MayActivate(m.kind)
        && (Sequencer in on ==> m.verified && m.listing.sequencer == Inactive)
        && (Compliance in on ==> m.listing.compliance == Inactive)
    case Failed(kind) => m.inFlight == 1 && kind == m.kind && StopsOnFailure(kind) && !m.failed && !m.latched
    case Latched(_) => m.inFlight == 1 && m.failed
    case Ended(kind, success, acknowledged) =>
      m.inFlight == 1 && kind == m.kind && EndsWell(m, kind, success, acknowledged)
    case _ => true
  }

  function Watched(events: seq<Event>): Monitor {
    if events == [] then START_MONITOR else Watch(Watched(events[..|events| - 1]), events[|events| - 1])
  }

  predicate AllLegal(events: seq<Event>) {
    events != [] ==> AllLegal(events[..|events| - 1]) && Legal(Watched(events[..|events| - 1]), events[|events| - 1])
  }

  datatype Record = Record(events: seq<Event>, monitor: Monitor, legal: bool)

  type Log = r: Record | r.monitor == Watched(r.events) && r.legal == AllLegal(r.events)
    witness Record([], START_MONITOR, true)

  function Noted(log: Log, e: Event): Log {
    assert (log.events + [e])[..|log.events|] == log.events;
    Record(log.events + [e], Watch(log.monitor, e), log.legal && Legal(log.monitor, e))
  }

  // ----- the coordinator -----

  datatype State = State(
    physical: bool,
    busy: bool,
    unresolvedStop: bool,
    timeError: bool,
    filesIdle: bool,
    acknowledged: bool,
    tasks: seq<Task>,
    log: Log)
  {
    function Emit(e: Event): State {
      this.(log := Noted(log, e))
    }

    function Latch(cause: Cause): State {
      this.(unresolvedStop := true).Emit(Latched(cause))
    }

    /** The operation's last statements, which always run. */
    function Finish(kind: Kind, success: bool): State {
      this.(busy := false).Emit(Ended(kind, success, acknowledged))
    }

    /** The coroutine runs on to its next await, at which it is suspended. */
    function Continue(t: Task): State
      decreases |t.script|
    {
      if t.script == [] then Complete(t)
      else
        match t.script[0]
        case Acknowledge(stopped) => this.(acknowledged := stopped).Continue(t.(script := t.script[1..]))
        case ClearClock => this.(timeError := false).Continue(t.(script := t.script[1..]))
        case Switch(on, off) => Emit(Requested(on, off)).Suspend(t)
        case _ => Suspend(t)
    }

    function Suspend(t: Task): State {
      this.(tasks := tasks + [t])
    }

    function Complete(t: Task): State {
      match t.phase
      case Underway => Finish(t.kind, true)
      case Stopping => if t.kind.Calibration? then File(t) else Finish(t.kind, false)
      case Filing => Finish(t.kind, false)
    }

    /** A failed calibration saves what it has; a clock that went back is latched. */
    function File(t: Task): State {
      var s := if timeError then Latch(ClockWentBack) else this;
      s.Suspend(t.(phase := Filing, script := [Work, Work]))
    }

    function Fail(t: Task): State {
      match t.phase
      case Underway =>
        if StopsOnFailure(t.kind) then
          Emit(Failed(t.kind)).(acknowledged := false).Suspend(t.(phase := Stopping, script := [StopList]))
        else if t.kind == Operator(Prepare) then this.(acknowledged := false).Finish(t.kind, false)
        else Finish(t.kind, false)
      case Stopping =>
        var s := Latch(StopRaised);
        if t.kind.Calibration? then s.File(t) else s.Finish(t.kind, false)
      case Filing => Finish(t.kind, false)
    }

    predicate Free() {
      !busy && !unresolvedStop && filesIdle
    }

    function Admit(kind: Kind): State {
      if !Free() then this
      else
        var t := Task(kind, Underway, Script(kind));
        var s := this.(busy := true).Emit(Admitted(kind, acknowledged));
        if kind == Operator(Prepare) && !physical then s.Fail(t) else s.Continue(t)
    }

    function Take(i: nat): State
      requires i < |tasks|
    {
      this.(tasks := tasks[..i] + tasks[i + 1..])
    }

    function Report(step: Step, o: Outcome): State {
      if !o.Listed? then this
      else if step == StopConfirm then Emit(Confirmed(o.listing))
      else Emit(Reported(o.listing))
    }

    /** One suspended coroutine's await ends. */
    function Resume(i: nat, o: Outcome): State {
      if i >= |tasks| || tasks[i].script == [] then this
      else
        var t := tasks[i];
        var s := Take(i).Report(t.script[0], o);
        match Advance(t.script[0], o, physical)
        case Raises => s.Fail(t)
        case Goes(steps) => s.Continue(t.(script := steps + t.script[1..]))
    }
  }

  datatype Input = Request(kind: Kind) | Resumption(i: nat, outcome: Outcome) | ClockReversed | FilesIdle(idle: bool)

  function React(s: State, input: Input): State {
    match input
    case Request(kind) => s.Admit(kind)
    case Resumption(i, outcome) => s.Resume(i, outcome)
    case ClockReversed => if s.busy then s.(timeError := true) else s
    case FilesIdle(idle) => s.(filesIdle := idle)
  }

  function Run(physical: bool, inputs: seq<Input>): State {
    if inputs == [] then State(physical, false, false, false, true, !physical, [], Record([], START_MONITOR, true))
    else React(Run(physical, inputs[..|inputs| - 1]), inputs[|inputs| - 1])
  }
}
