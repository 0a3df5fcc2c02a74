/** What the hardware cycle keeps in every run: readiness, claims, and the legality
    of every frame it puts on the bus. */
module HardwareSafety {
  import opened ControlTypes
  import opened DriveProfile
  import opened CountConversion
  import opened HardwareCycle

  // ----- the environment -----

  datatype Input =
    | Configuring(settings: Calibration)
    | Activating(elapsed: nat, ok: bool)
    | Deactivating(exchanges: seq<BusState>)
    | Cleaning(exchanges: seq<BusState>)
    | Reading(elapsed: nat, period: int, feedback: BusState)
    | Writing
    | Switching(start: bool, stops: bool)
    | Requesting(position: Num)

  datatype System = System(clock: int, hardware: Hardware)

  /** Before the first callback, at some positive reading of the clock. */
  function Initial(clock: int, timeoutNs: int): System {
    System(clock, Unconfigured(timeoutNs))
  }

  /** The clock never goes back. */
  function Elapsed(i: Input): nat {
    match i
    case Activating(elapsed, _) => elapsed
    case Reading(elapsed, _, _) => elapsed
    case _ => 0
  }

  /** The callback an input calls; a component is not configured while active. */
  function Respond(h: Hardware, now: int, i: Input): Hardware {
    match i
    case Configuring(settings) => if h.flags.active then h else h.Configure(settings)
    case Activating(_, ok) => h.Activate(now, ok)
    case Deactivating(exchanges) => h.Deactivate(exchanges)
    case Cleaning(exchanges) => h.Cleanup(exchanges)
    case Reading(_, period, feedback) => h.Read(now, period, feedback)
    case Writing => h.Write()
    case Switching(start, stops) => h.Switch(start, stops).0
    case Requesting(position) => h.(command := position)
  }

  function Now(s: System, i: Input): int {
    s.clock + Elapsed(i)
  }

  function Step(s: System, i: Input): System {
    System(Now(s, i), Respond(s.hardware, Now(s, i), i))
  }

  function Run(clock: int, timeoutNs: int, inputs: seq<Input>): System {
    if inputs == [] then Initial(clock, timeoutNs)
    else Step(Run(clock, timeoutNs, inputs[..|inputs| - 1]), inputs[|inputs| - 1])
  }

  // ----- the invariant -----

  ghost predicate Referenced(session: Session, calibration: Calibration) {
    && (session.referenceValid ==> session.velocity.Finite?)
    && (calibration.referenceValid ==> session.referenceValid && session.reference == calibration.reference)
  }

  /** The component and the observer of its bus agree. */
  ghost predicate Linked(h: Hardware) {
    var m := h.bus.monitor;
    && h.bus.legal
    && m.feedback == h.snapshot
    && Referenced(h.session, h.calibration)
    && (h.flags.claimed ==> h.flags.active && !h.flags.starting && !h.flags.fault)
    && (h.flags.readPending ==> m.renewed)
    && (h.flags.active ==>
          && h.configured
          && m.based && m.base == h.previous
          && m.faulted == h.flags.fault
          && (h.flags.fault ==> m.halted && m.stopBase == h.stop.target)
          && m.lastReceive == h.times.lastExchange)
  }

  /** A running component has feedback and a reference it can be claimed with. */
  ghost predicate Running(h: Hardware) {
    h.flags.active && !h.flags.starting && !h.flags.fault ==>
      IsReady(h.snapshot) && h.session.referenceValid && h.calibration.referenceValid
  }

  /** A position is shown only while the component can be claimed, and it is the
      measured one. */
  ghost predicate Shown(h: Hardware) {
    h.exported.Finite? ==> h.CanClaim() && h.exported == h.calibration.Position(h.snapshot.motor.actualPosition)
  }

  ghost predicate Inv(h: Hardware) {
    Linked(h) && Running(h) && Shown(h)
  }

  lemma InitialInv(clock: int, timeoutNs: int)
    ensures Inv(Initial(clock, timeoutNs).hardware)
  {
  }

  // ----- holding and faulting -----

  lemma HoldLinked(h: Hardware)
    requires Linked(h)
    ensures Linked(h.Hold())
  {
  }

  lemma RaiseLinked(h: Hardware, reason: Reason)
    requires Linked(h)
    ensures Linked(h.Raise(reason)) && h.Raise(reason).flags.fault
  {
  }

  lemma RaiseIfLinked(h: Hardware, condition: bool, reason: Reason)
    requires Linked(h)
    ensures Linked(h.RaiseIf(condition, reason))
    ensures condition || h.flags.fault ==> h.RaiseIf(condition, reason).flags.fault
  {
  }

  // ----- reading -----

  /** An observation keeps the reference and settles the velocity. */
  lemma ObservedReferenced(s: Session, c: Calibration, counts: Counts, now: int, stationary: bool, scale: real)
    requires Referenced(s, c)
    ensures var s' := Observed(s, counts, now, stationary, scale, MAXIMUM_STEP);
            && Referenced(s', c)
            && Referenced(s', Referred(c, s'))
            && (s.referenceValid ==> s'.referenceValid)
            && (c.referenceValid ==> Referred(c, s').referenceValid)
  {
  }

  lemma SessionLinked(h: Hardware, next: Session)
    requires Linked(h) && Referenced(next, h.calibration)
    ensures Linked(h.(session := next))
  {
  }

  lemma CalibrationLinked(h: Hardware, calibration: Calibration)
    requires Linked(h) && Referenced(h.session, calibration)
    ensures Linked(h.(calibration := calibration))
  {
  }

  lemma ObserveLinked(h: Hardware, now: int)
    requires Linked(h)
    ensures var h' := h.Observe(now);
            && Linked(h')
            && (h.session.referenceValid && h.calibration.referenceValid ==>
                  h'.session.referenceValid && h'.calibration.referenceValid)
            && h'.bus.monitor.renewed == h.bus.monitor.renewed
            && h'.snapshot == h.snapshot && h'.flags.active == h.flags.active && h'.flags.starting == h.flags.starting
            && (h.flags.fault ==> h'.flags.fault)
  {
    var m := h.snapshot.motor;
    var rejected := !Accepted(h.session, m.actualPosition, now, MAXIMUM_STEP);
    var next := Observed(h.session, m.actualPosition, now, m.actualVelocity == 0, h.calibration.metresPerCount,
      MAXIMUM_STEP);
    ObservedReferenced(h.session, h.calibration, m.actualPosition, now, m.actualVelocity == 0,
      h.calibration.metresPerCount);
    SessionLinked(h, next);
    var h1 := h.(session := next);
    RaiseIfLinked(h1, rejected, EncoderDiscontinuity);
    RaiseIfKeeps(h1, rejected, EncoderDiscontinuity);
    CalibrationLinked(h1.RaiseIf(rejected, EncoderDiscontinuity), Referred(h.calibration, next));
  }

  lemma RunningLinked(h: Hardware, period: int)
    requires Linked(h)
    ensures Linked(h.RunningChecks(period))
  {
    var h1 := h.RaiseIf(h.BusReason() != NoReason, h.BusReason());
    var h2 := h1.RaiseIf(h.flags.readPending, Sequencing);
    var h3 := h2.RaiseIf(h.times.interval > CYCLE_LIMIT_NS, MonotonicGap);
    RaiseIfLinked(h, h.BusReason() != NoReason, h.BusReason());
    RaiseIfLinked(h1, h.flags.readPending, Sequencing);
    RaiseIfLinked(h2, h.times.interval > CYCLE_LIMIT_NS, MonotonicGap);
    RaiseIfLinked(h3, h.times.interval != 0 && (period <= 0 || period > CYCLE_LIMIT_NS), CyclePeriod);
  }

  lemma ExchangeLinked(h: Hardware, now: int, s: BusState)
    requires Linked(h) && h.flags.active && now > 0
    requires h.times.lastExchange == 0 || now - h.times.lastExchange >= EXCHANGE_GAP_NS
    ensures Linked(h.Exchange(now, s)) && h.Exchange(now, s).bus.monitor.renewed
  {
  }

  lemma TimedLinked(h: Hardware, now: int, skips: bool)
    requires Linked(h)
    ensures Linked(h.Timed(now, skips))
  {
  }

  lemma PendingLinked(h: Hardware)
    requires Linked(h) && h.bus.monitor.renewed
    ensures Linked(h.Pending(true)) && Linked(h.Pending(true).Export())
    ensures Shown(h.Pending(true).Export())
  {
  }

  /** Whatever raises a fault, the observer's view of what was received stands. */
  lemma RaiseIfKeeps(h: Hardware, condition: bool, reason: Reason)
    ensures var h' := h.RaiseIf(condition, reason);
            && h'.bus.monitor.renewed == h.bus.monitor.renewed
            && h'.snapshot == h.snapshot && h'.session == h.session && h'.calibration == h.calibration
            && h'.flags.active == h.flags.active && h'.flags.starting == h.flags.starting
            && h'.flags.readPending == h.flags.readPending
            && h'.times == h.times && h'.configured == h.configured
            && (condition || h.flags.fault <==> h'.flags.fault)
  {
  }

  /** What is left running after the checks has good feedback. */
  lemma ChecksRunning(h: Hardware, period: int)
    requires h.snapshot.received
    requires h.flags.active && !h.flags.starting && !h.flags.fault ==>
               h.session.referenceValid && h.calibration.referenceValid
    ensures Running(h.RunningChecks(period))
    ensures h.RunningChecks(period).bus.monitor.renewed == h.bus.monitor.renewed
  {
    var h1 := h.RaiseIf(h.BusReason() != NoReason, h.BusReason());
    var h2 := h1.RaiseIf(h.flags.readPending, Sequencing);
    var h3 := h2.RaiseIf(h.times.interval > CYCLE_LIMIT_NS, MonotonicGap);
    RaiseIfKeeps(h, h.BusReason() != NoReason, h.BusReason());
    RaiseIfKeeps(h1, h.flags.readPending, Sequencing);
    RaiseIfKeeps(h2, h.times.interval > CYCLE_LIMIT_NS, MonotonicGap);
    RaiseIfKeeps(h3, h.times.interval != 0 && (period <= 0 || period > CYCLE_LIMIT_NS), CyclePeriod);
    assert h.BusReason() == NoReason ==> IsReady(h.snapshot);
  }

  /** A read that exchanges, after its exchange. */
  lemma FeedbackInv(h: Hardware, now: int, period: int)
    requires Linked(h) && h.snapshot.received && h.bus.monitor.renewed
    requires h.flags.active && !h.flags.starting && !h.flags.fault ==>
               h.session.referenceValid && h.calibration.referenceValid
    ensures Inv(h.Digest(now, period))
  {
    ObserveLinked(h, now);
    CheckedInv(if IsReady(h.snapshot) && !h.flags.fault then h.Observe(now) else h, now, period);
  }

  lemma CheckedInv(h: Hardware, now: int, period: int)
    requires Linked(h) && h.snapshot.received && h.bus.monitor.renewed
    requires h.flags.active && !h.flags.starting && !h.flags.fault ==>
               h.session.referenceValid && h.calibration.referenceValid
    ensures Inv(h.StartupChecks(now).RunningChecks(period).Pending(true).Export())
  {
    RaiseIfLinked(h, h.StartupReason(now) != NoReason, h.StartupReason(now));
    RaiseIfKeeps(h, h.StartupReason(now) != NoReason, h.StartupReason(now));
    RunningLinked(h.StartupChecks(now), period);
    ChecksRunning(h.StartupChecks(now), period);
    PendingLinked(h.StartupChecks(now).RunningChecks(period));
  }

  lemma SkippedInv(h: Hardware, now: int)
    requires Inv(h)
    ensures Inv(h.Skip(now))
  {
    TimedLinked(h, now, true);
    RaiseIfLinked(h.Timed(now, true), !h.flags.starting, CyclePeriod);
  }

  lemma TimedKeeps(h: Hardware, now: int)
    requires Running(h)
    ensures var h' := h.Timed(now, false);
            Running(h') && h'.flags.active == h.flags.active && h'.times.lastExchange == h.times.lastExchange
  {
  }

  lemma ExchangeKeeps(h: Hardware, now: int, s: BusState)
    ensures var h' := h.Exchange(now, s);
            && h'.snapshot.received
            && h'.session == h.session && h'.calibration == h.calibration
            && h'.flags.active == h.flags.active && h'.flags.starting == h.flags.starting
            && h'.flags.fault == h.flags.fault
  {
  }

  lemma ExchangedInv(h: Hardware, now: int, period: int, s: BusState)
    requires Linked(h) && Running(h) && h.flags.active && now > 0
    requires h.times.lastExchange == 0 || now - h.times.lastExchange >= EXCHANGE_GAP_NS
    ensures Inv(h.Exchange(now, s).Digest(now, period))
  {
    ExchangeLinked(h, now, s);
    ExchangeKeeps(h, now, s);
    FeedbackInv(h.Exchange(now, s), now, period);
  }

  lemma ReadInv(h: Hardware, now: int, period: int, s: BusState)
    requires Inv(h) && now > 0
    ensures Inv(h.Read(now, period, s))
  {
    if h.flags.active && h.configured {
      if h.times.lastExchange != 0 && now - h.times.lastExchange < EXCHANGE_GAP_NS {
        SkippedInv(h, now);
      } else {
        TimedLinked(h, now, false);
        TimedKeeps(h, now);
        ExchangedInv(h.Timed(now, false), now, period, s);
      }
    }
  }

  // ----- writing -----

  /** A word of the sequence for the position the stop began at. */
  lemma StopWordSafe(m: Monitor, s: Stopping)
    requires m.halted && m.stopBase == s.target
    ensures var c := StopCommand(s); SafeStop(m, c.(controlword := Guarded(c.controlword, m.feedback.motor)))
    ensures s.Done() ==> StopCommand(s).controlword == DISABLE_VOLTAGE && SafeStop(m, StopCommand(s))
  {
  }

  lemma StopWriteInv(h: Hardware)
    requires Linked(h) && h.flags.active && h.flags.fault && !h.flags.readPending && h.exported.NonFinite?
    ensures Inv(h.WriteStop())
  {
    StopWordSafe(h.bus.monitor, h.stop);
    StopWordSafe(h.Hold().bus.monitor, h.stop);
  }

  lemma StartupWriteInv(h: Hardware)
    requires Linked(h) && h.flags.active && h.flags.starting && !h.flags.fault
    requires h.bus.monitor.renewed && !h.flags.readPending
    requires h.exported.NonFinite?
    ensures Inv(h.WriteStartup())
  {
  }

  lemma JudgedSafe(h: Hardware)
    requires Linked(h) && Running(h) && h.flags.active && !h.flags.starting && !h.flags.fault
    requires h.Judged().ValidCommand?
    ensures SafeMotion(h.bus.monitor, Motion(h.flags.claimed, h.command, h.calibration),
                       Command(ENABLE_OPERATION, CSP_MODE, h.Judged().counts))
  {
    var converted := if h.flags.claimed then h.calibration.ToCounts(h.command) else Converted(h.previous);
    ValidateExact(converted.counts, h.previous, h.snapshot.motor);
    if h.flags.claimed {
      PositionQuantised(h.calibration, h.command.value);
    }
  }

  lemma MotionSent(h: Hardware, counts: Counts)
    requires Inv(h) && h.flags.active && !h.flags.starting && !h.flags.fault
    requires h.bus.monitor.renewed && !h.flags.readPending
    requires SafeMotion(h.bus.monitor, Motion(h.flags.claimed, h.command, h.calibration),
                        Command(ENABLE_OPERATION, CSP_MODE, counts))
    ensures Inv(h.(previous := counts)
                 .Emit(Sent(Motion(h.flags.claimed, h.command, h.calibration),
                            Command(ENABLE_OPERATION, CSP_MODE, counts))))
  {
  }

  lemma RefusedInv(h: Hardware, reason: Reason)
    requires Linked(h) && h.flags.active && !h.flags.readPending && !h.flags.fault
    ensures Inv(h.Raise(reason).WriteStop())
  {
    RaiseLinked(h, reason);
    StopWriteInv(h.Raise(reason));
  }

  lemma MotionWriteInv(h: Hardware)
    requires Inv(h) && h.flags.active && !h.flags.starting && !h.flags.fault
    requires h.bus.monitor.renewed && !h.flags.readPending
    ensures Inv(h.WriteMotion())
  {
    match h.Judged()
    case ValidCommand(counts) =>
      JudgedSafe(h);
      MotionSent(h, counts);
    case LimitReached => RefusedInv(h, LogicalLimit);
    case ExcessiveIncrement => RefusedInv(h, StepTooLarge);
    case InvalidCommand => RefusedInv(h, BadCommand);
  }

  lemma RaiseIfInv(h: Hardware, condition: bool, reason: Reason)
    requires Inv(h)
    ensures Inv(h.RaiseIf(condition, reason))
    ensures h.flags.fault ==> h.exported.NonFinite?
  {
    RaiseIfLinked(h, condition, reason);
  }

  lemma WriteInv(h: Hardware)
    requires Inv(h)
    ensures Inv(h.Write())
  {
    if h.flags.active && h.configured && !h.flags.skipped {
      var h1 := h.RaiseIf(!h.flags.readPending, Sequencing);
      RaiseIfInv(h, !h.flags.readPending, Sequencing);
      RaiseIfKeeps(h, !h.flags.readPending, Sequencing);
      PendingCleared(h1);
      var h2 := h1.Pending(false);
      RaiseIfInv(h2, false, NoReason);
      if h2.flags.fault {
        StopWriteInv(h2);
      } else if h2.flags.starting {
        StartupWriteInv(h2);
      } else {
        MotionWriteInv(h2);
      }
    }
  }

  lemma PendingCleared(h: Hardware)
    requires Inv(h)
    ensures Inv(h.Pending(false))
    ensures h.flags.starting ==> h.exported.NonFinite?
  {
  }

  // ----- claiming -----

  lemma RelinquishInv(h: Hardware)
    requires Inv(h)
    ensures Inv(h.Relinquish()) && !h.Relinquish().flags.claimed
  {
    var raises := h.flags.active && h.command.NonFinite?;
    RaiseIfInv(h, raises, BadCommand);
    UnclaimInv(h.RaiseIf(raises, BadCommand));
  }

  lemma UnclaimInv(h: Hardware)
    requires Inv(h)
    ensures Inv(h.Claimed(false).Hold())
  {
  }

  lemma SwitchInv(h: Hardware, start: bool, stops: bool)
    requires Inv(h)
    ensures Inv(h.Switch(start, stops).0)
  {
    RelinquishInv(h);
    ClaimInv(if stops then h.Relinquish() else h);
  }

  lemma ClaimInv(h: Hardware)
    requires Inv(h)
    ensures h.CanClaim() ==> Inv(h.Hold().Claimed(true))
  {
  }

  /** A switch that was prepared succeeds, unless relinquishing the old claim finds
      a command that is no number. */
  lemma PreparedSucceeds(h: Hardware, start: bool, stops: bool)
    requires Inv(h) && h.Prepares(start, stops)
    ensures h.Switch(start, stops).1 <==> !(start && stops && h.command.NonFinite?)
    ensures start && h.Switch(start, stops).1 ==>
              var after := h.Switch(start, stops).0;
              after.flags.claimed && after.previous == h.snapshot.motor.actualPosition
              && after.command == Finite(h.calibration.PositionOf(after.previous))
  {
  }

  // ----- lifecycle -----

  lemma ConfigureInv(h: Hardware, settings: Calibration)
    requires Inv(h) && !h.flags.active
    ensures Inv(h.Configure(settings))
  {
  }

  lemma ActivateInv(h: Hardware, now: int, ok: bool)
    requires Inv(h)
    ensures Inv(h.Activate(now, ok))
  {
    if !h.configured && !ok {
      ReleaseInv(h);
    } else {
      ArmInv(h, now);
    }
  }

  lemma ReleaseInv(h: Hardware)
    requires Inv(h) && !h.configured
    ensures Inv(h.Release())
  {
  }

  lemma ArmInv(h: Hardware, now: int)
    requires Inv(h)
    ensures Inv(h.Armed(now).Hold().Export())
  {
  }

  lemma ExchangeIdle(h: Hardware, s: BusState, stopping: Stopping)
    requires Linked(h) && !h.flags.active && !h.flags.readPending
    requires h.bus.monitor.halted && h.bus.monitor.stopBase == stopping.target
    ensures var h' := h.ShutdownExchange(s, StopCommand(stopping));
            && Linked(h') && h'.bus.monitor.halted && h'.bus.monitor.stopBase == stopping.target
            && h' == h.(snapshot := s.(received := true), bus := h'.bus)
  {
  }

  lemma {:induction false} ShutdownLinked(h: Hardware, stopping: Stopping, exchanges: seq<BusState>)
    requires Linked(h) && !h.flags.active && !h.flags.readPending
    requires h.bus.monitor.halted && h.bus.monitor.stopBase == stopping.target
    ensures var h' := h.Shutdown(stopping, exchanges).0;
            Linked(h') && h' == h.(snapshot := h'.snapshot, bus := h'.bus)
    decreases STOP_CYCLES - stopping.cycle
  {
    if exchanges != [] {
      ExchangeIdle(h, exchanges[0], stopping);
      if !stopping.Done() {
        ShutdownLinked(h.ShutdownExchange(exchanges[0], StopCommand(stopping)), StopNext(stopping), exchanges[1..]);
      }
    }
  }

  lemma HaltLinked(h: Hardware, exchanges: seq<BusState>)
    requires Linked(h)
    ensures var h' := h.Halt(exchanges).0;
            Linked(h') && !h'.flags.active && !h'.flags.starting && !h'.flags.claimed && !h'.flags.readPending
  {
    var held := if h.configured then h.Idle().Hold() else h.Idle();
    IdleLinked(h);
    if !h.flags.stopComplete && h.configured {
      var stopping := StopFrom(h.snapshot.motor);
      HaltedLinked(held, stopping);
      ShutdownLinked(held.Emit(Halted(stopping.target)), stopping, exchanges);
      var (done, success) := held.Emit(Halted(stopping.target)).Shutdown(stopping, exchanges);
      ConcludedLinked(done, success);
    }
  }

  lemma IdleLinked(h: Hardware)
    requires Linked(h)
    ensures var idle := h.Idle();
            Linked(idle) && Linked(idle.Hold())
  {
  }

  lemma HaltedLinked(h: Hardware, stopping: Stopping)
    requires Linked(h) && !h.flags.active && stopping == StopFrom(h.snapshot.motor)
    ensures Linked(h.Emit(Halted(stopping.target)))
    ensures h.Emit(Halted(stopping.target)).bus.monitor.halted
    ensures h.Emit(Halted(stopping.target)).bus.monitor.stopBase == stopping.target
  {
  }

  lemma ConcludedLinked(h: Hardware, success: bool)
    requires Linked(h) && !h.flags.active && !h.flags.claimed && !h.flags.starting && !h.flags.readPending
    ensures var h' := h.Concluded(success);
            Linked(h') && !h'.flags.active && !h'.flags.claimed && !h'.flags.starting && !h'.flags.readPending
  {
    HoldLinked(h);
    SessionLinked(h.Hold(), h.Hold().session.(suspended := true));
    var suspended := h.Hold().Suspended();
    RaiseIfLinked(suspended, !success, ShutdownFailure);
    RaiseIfKeeps(suspended, !success, ShutdownFailure);
    StoppedLinked(suspended.RaiseIf(!success, ShutdownFailure));
  }

  lemma StoppedLinked(h: Hardware)
    requires Linked(h)
    ensures Linked(h.Stopped())
  {
  }

  lemma DeactivateInv(h: Hardware, exchanges: seq<BusState>)
    requires Inv(h)
    ensures Inv(h.Deactivate(exchanges))
  {
    HaltLinked(h, exchanges);
    IdleShown(h.Halt(exchanges).0);
  }

  lemma IdleShown(h: Hardware)
    requires Linked(h) && !h.flags.active
    ensures Inv(h.Export())
  {
  }

  lemma CleanupInv(h: Hardware, exchanges: seq<BusState>)
    requires Inv(h)
    ensures Inv(h.Cleanup(exchanges))
  {
    HaltLinked(h, exchanges);
    ResetInv(h.Halt(exchanges).0);
  }

  lemma ResetInv(h: Hardware)
    requires Linked(h) && !h.flags.active
    ensures Inv(h.Release().Reset())
  {
  }

  // ----- whole runs -----

  lemma RespondInv(h: Hardware, now: int, i: Input)
    requires Inv(h) && now > 0
    ensures Inv(Respond(h, now, i))
  {
    match i
    case Configuring(settings) => if !h.flags.active { ConfigureInv(h, settings); }
    case Activating(_, ok) => ActivateInv(h, now, ok);
    case Deactivating(exchanges) => DeactivateInv(h, exchanges);
    case Cleaning(exchanges) => CleanupInv(h, exchanges);
    case Reading(_, period, feedback) => ReadInv(h, now, period, feedback);
    case Writing => WriteInv(h);
    case Switching(start, stops) => SwitchInv(h, start, stops);
    case Requesting(position) => RequestInv(h, position);
  }

  lemma RequestInv(h: Hardware, position: Num)
    requires Inv(h)
    ensures Inv(h.(command := position))
  {
  }

  lemma {:induction false} RunInv(clock: int, timeoutNs: int, inputs: seq<Input>)
    requires clock > 0
    ensures Inv(Run(clock, timeoutNs, inputs).hardware) && Run(clock, timeoutNs, inputs).clock > 0
  {
    if inputs == [] {
      InitialInv(clock, timeoutNs);
    } else {
      RunInv(clock, timeoutNs, inputs[..|inputs| - 1]);
      var s, i := Run(clock, timeoutNs, inputs[..|inputs| - 1]), inputs[|inputs| - 1];
      RespondInv(s.hardware, Now(s, i), i);
    }
  }
}
