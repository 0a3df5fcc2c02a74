/** The hardware component's cycle: reading, writing, claiming, faulting and
    stopping, driven by arbitrary feedback, clocks and commands.  The bus is the
    trace of what was received, held and sent. */
module HardwareCycle {
  import opened ControlTypes
  import opened DriveProfile
  import opened CountConversion

  const EXCHANGE_GAP_NS: int := 500_000
  const CYCLE_LIMIT_NS: int := 10_000_000

  datatype Reason =
    | NoReason
    | StartupTimeout
    | MasterLink
    | SlaveCount
    | IncompleteExchange
    | SlaveNotOperational
    | DriveLost
    | LoadCellInvalid
    | CyclePeriod
    | MonotonicGap
    | Sequencing
    | BadCommand
    | StepTooLarge
    | LogicalLimit
    | ShutdownFailure
    | EncoderDiscontinuity

  datatype Kind = Startup | Motion(claimed: bool, requested: Num, calibration: Calibration) | Stop

  datatype Event =
    | Activated
    | Received(now: int, snapshot: BusState)
    | Exchanged(snapshot: BusState)
    | Held(position: Counts)
    | Faulted(position: Counts)
    | Halted(position: Counts)
    | Sent(kind: Kind, command: Command)
    | Released

  // ----- an observer of the bus -----

  /** base: the last target sent but for stop frames, or the position measured at
      the last hold since, if based at all; stopBase: the position measured when the
      latest stop began, if halted at all; renewed: something was received since the
      last frame; lastReceive: when, in this activation, or 0. */
  datatype Monitor = Monitor(
    based: bool,
    base: Counts,
    halted: bool,
    stopBase: Counts,
    faulted: bool,
    renewed: bool,
    lastReceive: int,
    feedback: BusState)

  function Watch(m: Monitor, e: Event): Monitor {
    match e
    case Activated => m.(faulted := false, lastReceive := 0)
    case Received(now, s) => m.(renewed := true, lastReceive := now, feedback := s)
    case Exchanged(s) => m.(feedback := s)
    case Held(position) => m.(based := true, base := position)
    case Faulted(position) => m.(faulted := true, halted := true, stopBase := position)
    case Halted(position) => m.(halted := true, stopBase := position)
    case Sent(kind, command) =>
      m.(based := m.based || kind != Stop, base := if kind == Stop then m.base else command.target, renewed := false)
    case Released => m.(feedback := NO_BUS)
  }

  /** A frame sent for motion: one bounded step from the base, no deeper into an
      asserted limit, to a drive that is ready; where a controller asked for it,
      within the soft bounds and half a count of the request, and otherwise no
      step at all. */
  predicate SafeMotion(m: Monitor, kind: Kind, command: Command)
    requires kind.Motion?
  {
    && command == Command(ENABLE_OPERATION, CSP_MODE, command.target)
    && IsReady(m.feedback)
    && m.based
    && SafeStep(command.target, m.base, m.feedback.motor)
    && if kind.claimed then
         && kind.requested.Finite?
         && kind.calibration.InBounds(kind.requested.value)
         && kind.calibration.InBounds(kind.calibration.PositionOf(command.target))
         && Abs(kind.calibration.PositionOf(command.target) - kind.requested.value)
            <= Abs(kind.calibration.metresPerCount) / 2.0
       else command.target == m.base
  }

  predicate SafeStop(m: Monitor, command: Command) {
    && m.halted
    && command.target == m.stopBase
    && command.mode == CSP_MODE
    && command.controlword in {ENABLE_OPERATION, SHUTDOWN, DISABLE_VOLTAGE}
    && (command.controlword == ENABLE_OPERATION ==> EnabledCsp(m.feedback.motor))
  }

  predicate Legal(m: Monitor, e: Event) {
    match e
    case Received(now, _) => now > 0 && (m.lastReceive != 0 ==> now - m.lastReceive >= EXCHANGE_GAP_NS)
    case Sent(kind, command) =>
      if kind == Stop then SafeStop(m, command)
      else
        && m.renewed
        && !m.faulted
        && if kind == Startup then command.target == m.feedback.motor.actualPosition else SafeMotion(m, kind, command)
    case Held(position) => position == m.feedback.motor.actualPosition
    case Faulted(position) => position == m.feedback.motor.actualPosition
    case Halted(position) => position == m.feedback.motor.actualPosition
    case _ => true
  }

  /** What the observer knows after a trace, and whether all of it was legal. */
  function Watched(events: seq<Event>): Monitor {
    if events == [] then START_MONITOR else Watch(Watched(events[..|events| - 1]), events[|events| - 1])
  }

  predicate AllLegal(events: seq<Event>) {
    events != [] ==> AllLegal(events[..|events| - 1]) && Legal(Watched(events[..|events| - 1]), events[|events| - 1])
  }

  const START_MONITOR := Monitor(false, 0, false, 0, false, false, 0, NO_BUS)

  /** A trace carried with its observer. */
  datatype Record = Record(events: seq<Event>, monitor: Monitor, legal: bool)

  type Bus = r: Record | r.monitor == Watched(r.events) && r.legal == AllLegal(r.events)
    witness Record([], START_MONITOR, true)

  function Noted(bus: Bus, e: Event): Bus {
    assert (bus.events + [e])[..|bus.events|] == bus.events;
    Record(bus.events + [e], Watch(bus.monitor, e), bus.legal && Legal(bus.monitor, e))
  }

  // ----- the component -----

  datatype Times = Times(lastRead: int, lastExchange: int, interval: int, startupBegin: int, activationEnd: int)

  /** A component before its first callback. */
  function Unconfigured(timeoutNs: int): Hardware {
    Hardware(timeoutNs, false, NO_BUS, Calibration(0.0, true, false, 0.0, 0.0, false, 0), NO_SESSION, NonFinite, 0,
             Flags(false, false, false, false, false, false, false, true), Times(0, 0, 0, 0, 0), NoReason, NOT_STOPPING,
             NonFinite, Record([], START_MONITOR, true))
  }

  /** The calibration gets its reference from the session, once. */
  function Referred(c: Calibration, s: Session): Calibration {
    if s.referenceValid && !c.referenceValid then c.SetReference(s.reference).1 else c
  }

  datatype Flags = Flags(
    active: bool,
    starting: bool,
    claimed: bool,
    fault: bool,
    readPending: bool,
    skipped: bool,
    firstWrite: bool,
    stopComplete: bool)

  datatype Hardware = Hardware(
    timeoutNs: int,
    configured: bool,
    snapshot: BusState,
    calibration: Calibration,
    session: Session,
    command: Num,
    previous: Counts,
    flags: Flags,
    times: Times,
    firstFault: Reason,
    stop: Stopping,
    exported: Num,
    bus: Bus)
  {
    function Emit(e: Event): Hardware {
      this.(bus := Noted(bus, e))
    }

    function Hold(): Hardware {
      var position := snapshot.motor.actualPosition;
      Emit(Held(position)).(previous := position, command := calibration.Position(position))
    }

    function Pending(pending: bool): Hardware {
      this.(flags := flags.(readPending := pending))
    }

    function Started(): Hardware {
      this.(flags := flags.(starting := false))
    }

    function Claimed(claim: bool): Hardware {
      this.(flags := flags.(claimed := claim))
    }

    function Written(): Hardware {
      this.(flags := flags.(firstWrite := false))
    }

    function Failed(): Hardware {
      this.(stop := StopNext(stop), flags := flags.(stopComplete := true, active := false))
    }

    function Idle(): Hardware {
      this.(flags := flags.(active := false, claimed := false, starting := false, readPending := false))
    }

    function Stopped(): Hardware {
      this.(flags := flags.(stopComplete := true))
    }

    /** The first fault is kept for the record; only one stops the drive. */
    function Raise(reason: Reason): Hardware {
      var first := if firstFault == NoReason then reason else firstFault;
      if flags.fault then this.(firstFault := first)
      else
        var position := snapshot.motor.actualPosition;
        this.(firstFault := first, flags := flags.(fault := true, claimed := false), exported := NonFinite,
              previous := position, command := calibration.Position(position), stop := StopFrom(snapshot.motor),
              bus := Noted(Noted(bus, Event.Faulted(position)), Held(position)))
    }

    function RaiseIf(condition: bool, reason: Reason): Hardware {
      if condition then Raise(reason) else this
    }

    predicate CanClaim() {
      && flags.active && !flags.starting && !flags.fault
      && IsReady(snapshot)
      && session.referenceValid
      && calibration.referenceValid
      && (calibration.velocityFromEncoder ==> session.velocity.Finite?)
    }

    function Export(): Hardware {
      this.(exported := if CanClaim() then calibration.Position(snapshot.motor.actualPosition) else NonFinite)
    }

    // ----- reading -----

    function Observe(now: int): Hardware {
      var m := snapshot.motor;
      var next :=
        Observed(session, m.actualPosition, now, m.actualVelocity == 0, calibration.metresPerCount, MAXIMUM_STEP);
      this.(session := next)
          .RaiseIf(!Accepted(session, m.actualPosition, now, MAXIMUM_STEP), EncoderDiscontinuity)
          .(calibration := Referred(calibration, next))
    }

    function StartupReason(now: int): Reason {
      if !flags.starting || flags.fault then NoReason
      else if flags.firstWrite && now - times.activationEnd > CYCLE_LIMIT_NS then MonotonicGap
      else if now - times.startupBegin > timeoutNs then StartupTimeout
      else if times.interval > CYCLE_LIMIT_NS then MonotonicGap
      else NoReason
    }

    function StartupChecks(now: int): Hardware {
      RaiseIf(StartupReason(now) != NoReason, StartupReason(now))
    }

    function BusReason(): Reason {
      if !snapshot.linkUp then MasterLink
      else if snapshot.slaves != 3 then SlaveCount
      else if !snapshot.complete then IncompleteExchange
      else if !snapshot.coupler.Up() || !snapshot.load.Up() || !snapshot.drive.Up() then SlaveNotOperational
      else if !EnabledCsp(snapshot.motor) then DriveLost
      else if !ChannelsValid(snapshot) then LoadCellInvalid
      else NoReason
    }

    function RunningChecks(period: int): Hardware {
      if !flags.active || flags.starting then this
      else
        RaiseIf(BusReason() != NoReason, BusReason())
        .RaiseIf(flags.readPending, Sequencing)
        .RaiseIf(times.interval > CYCLE_LIMIT_NS, MonotonicGap)
        .RaiseIf(times.interval != 0 && (period <= 0 || period > CYCLE_LIMIT_NS), CyclePeriod)
    }

    function Timed(now: int, early: bool): Hardware {
      this.(flags := flags.(skipped := early),
            times := times.(interval := if times.lastRead != 0 then now - times.lastRead else 0, lastRead := now))
    }

    function Exchange(now: int, s: BusState): Hardware {
      var received := s.(received := true);
      this.(times := times.(lastExchange := now), snapshot := received).Emit(Received(now, received))
    }

    /** A read too soon after the last exchange leaves the bus alone. */
    function Skip(now: int): Hardware {
      Timed(now, true).RaiseIf(!flags.starting, CyclePeriod)
    }

    function Digest(now: int, period: int): Hardware {
      (if IsReady(snapshot) && !flags.fault then Observe(now) else this)
      .StartupChecks(now).RunningChecks(period).Pending(true).Export()
    }

    function Read(now: int, period: int, s: BusState): Hardware {
      if !flags.active || !configured then this
      else if times.lastExchange != 0 && now - times.lastExchange < EXCHANGE_GAP_NS then
        Skip(now)
      else
        Timed(now, false).Exchange(now, s).Digest(now, period)
    }

    // ----- writing -----

    function WriteStartup(): Hardware {
      var word := UpdateEnable(snapshot.motor, Command(0, CSP_MODE, previous)).0.controlword;
      var h := Hold();
      (if IsReady(snapshot) && session.referenceValid && calibration.referenceValid then h.Started().Export()
       else h)
      .Emit(Sent(Startup, Command(word, CSP_MODE, snapshot.motor.actualPosition)))
    }

    function Judged(): Verdict {
      var converted := if flags.claimed then calibration.ToCounts(command) else Converted(previous);
      if converted.Refused? then InvalidCommand
      else Validate(Finite(converted.counts as real), previous, snapshot.motor, MAXIMUM_STEP)
    }

    function WriteMotion(): Hardware {
      match Judged()
      case ValidCommand(counts) =>
        this.(previous := counts)
        .Emit(Sent(Motion(flags.claimed, command, calibration), Command(ENABLE_OPERATION, CSP_MODE, counts)))
      case LimitReached => Raise(LogicalLimit).WriteStop()
      case ExcessiveIncrement => Raise(StepTooLarge).WriteStop()
      case InvalidCommand => Raise(BadCommand).WriteStop()
    }

    /** One step of the stop sequence, or its end. */
    function WriteStop(): Hardware {
      var command := StopCommand(stop);
      if stop.Done() then
        Hold().Emit(Sent(Stop, command)).Failed()
      else
        Hold().Emit(Sent(Stop, command.(controlword := Guarded(command.controlword, snapshot.motor))))
              .(stop := StopNext(stop))
    }

    function Write(): Hardware {
      if !flags.active || !configured || flags.skipped then this
      else
        var h := RaiseIf(!flags.readPending, Sequencing).Pending(false);
        var sent :=
          if h.flags.fault then h.WriteStop()
          else if h.flags.starting then h.WriteStartup()
          else h.WriteMotion();
        if sent.flags.active then sent.Written() else sent
    }

    /** Whether a write reports success: it fails only when it ends the stop. */
    predicate WriteSucceeds() {
      flags.active ==> Write().flags.active
    }

    // ----- claiming -----

    predicate Prepares(start: bool, stops: bool) {
      start ==> CanClaim() && (flags.claimed ==> stops)
    }

    function Relinquish(): Hardware {
      RaiseIf(flags.active && command.NonFinite?, BadCommand).Claimed(false).Hold()
    }

    function Switch(start: bool, stops: bool): (Hardware, bool) {
      var h := if stops then Relinquish() else this;
      if !start then (h, true)
      else if !h.CanClaim() || h.flags.claimed then (h, false)
      else (h.Hold().Claimed(true), true)
    }

    // ----- lifecycle -----

    function Configure(settings: Calibration): Hardware {
      var h := this.(firstFault := NoReason);
      if settings.Valid() then h.(calibration := settings.ClearReference()) else h
    }

    function Release(): Hardware {
      Emit(Released).(configured := false, snapshot := NO_BUS)
    }

    function Armed(now: int): Hardware {
      this.(configured := true, flags := Flags(true, true, false, false, false, false, true, false),
            times := times.(lastRead := 0, lastExchange := 0, startupBegin := now, activationEnd := now))
      .Emit(Activated)
    }

    function Activate(now: int, ok: bool): Hardware {
      if !configured && !ok then Release() else Armed(now).Hold().Export()
    }

    function ShutdownExchange(s: BusState, command: Command): Hardware {
      var received := s.(received := true);
      this.(snapshot := received).Emit(Exchanged(received))
          .Emit(Sent(Stop, command.(controlword := Guarded(command.controlword, received.motor))))
    }

    /** The blocking stop of a lifecycle callback; it ends early, unsuccessfully,
        if the clock fails before an exchange. */
    function Shutdown(stopping: Stopping, exchanges: seq<BusState>): (Hardware, bool)
      decreases STOP_CYCLES - stopping.cycle
    {
      if exchanges == [] then (this, false)
      else
        var h := ShutdownExchange(exchanges[0], StopCommand(stopping));
        if stopping.Done() then
          (h, h.snapshot.linkUp && h.snapshot.complete && Decode(h.snapshot.motor.statusword) == SwitchOnDisabled)
        else h.Shutdown(StopNext(stopping), exchanges[1..])
    }

    function Suspended(): Hardware {
      this.(session := session.(suspended := true))
    }

    function Concluded(success: bool): Hardware {
      Hold().Suspended().RaiseIf(!success, ShutdownFailure).Stopped()
    }

    function Halt(exchanges: seq<BusState>): (Hardware, bool) {
      var held := if configured then Idle().Hold() else Idle();
      if flags.stopComplete || !configured then (held, true)
      else
        var stopping := StopFrom(snapshot.motor);
        var (h, success) := held.Emit(Halted(stopping.target)).Shutdown(stopping, exchanges);
        (h.Concluded(success), success)
    }

    function Deactivate(exchanges: seq<BusState>): Hardware {
      Halt(exchanges).0.Export()
    }

    function Reset(): Hardware {
      this.(session := NO_SESSION, calibration := calibration.ClearReference(), exported := NonFinite, previous := 0,
            flags := flags.(active := false, claimed := false, fault := false, readPending := false,
                            stopComplete := true),
            times := times.(lastRead := 0), stop := NOT_STOPPING)
    }

    function Cleanup(exchanges: seq<BusState>): Hardware {
      Halt(exchanges).0.Release().Reset()
    }
  }
}
