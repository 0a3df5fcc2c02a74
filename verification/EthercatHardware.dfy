/** The hardware component as an object: its callbacks change its fields in place,
    and each is proved to be the step of the cycle's specification. */
module EthercatHardware {
  import opened ControlTypes
  import opened DriveProfile
  import opened CountConversion
  import opened HardwareCycle

  class Component {
    const timeoutNs: int
    const session: EncoderSession
    const stop: StopSequence
    var configured: bool
    var snapshot: BusState
    var calibration: Calibration
    var command: Num
    var previous: Counts
    var flags: Flags
    var times: Times
    var firstFault: Reason
    var exported: Num
    ghost var bus: Bus

    ghost function View(): Hardware
      reads this, session, stop
    {
      Hardware(timeoutNs, configured, snapshot, calibration, session.View(), command, previous, flags, times,
               firstFault, stop.View(), exported, bus)
    }

    constructor (timeoutNs: int)
      ensures fresh(session) && fresh(stop)
      ensures View() == Unconfigured(timeoutNs)
    {
      this.timeoutNs := timeoutNs;
      session := new EncoderSession();
      stop := new StopSequence();
      configured, snapshot, command, previous := false, NO_BUS, NonFinite, 0;
      calibration := Calibration(0.0, true, false, 0.0, 0.0, false, 0);
      flags := Flags(false, false, false, false, false, false, false, true);
      times := Times(0, 0, 0, 0, 0);
      firstFault, exported := NoReason, NonFinite;
      bus := Record([], START_MONITOR, true);
    }

    method HoldMeasured()
      modifies `previous, `command, `bus
      ensures View() == old(View()).Hold()
    {
      previous := snapshot.motor.actualPosition;
      command := calibration.Position(previous);
      bus := Noted(bus, Held(previous));
    }

    method RaiseFault(reason: Reason)
      modifies this, stop
      ensures View() == old(View()).Raise(reason)
    {
      RecordFault(reason);
      if !flags.fault {
        MarkFaulted();
        HoldMeasured();
        stop.Start(snapshot.motor);
      }
    }

    method RecordFault(reason: Reason)
      modifies `firstFault
      ensures View() == old(View()).(firstFault := if old(firstFault) == NoReason then reason else old(firstFault))
    {
      if firstFault == NoReason {
        firstFault := reason;
      }
    }

    method MarkFaulted()
      modifies `flags, `exported, `bus
      ensures View() == old(View()).Emit(Event.Faulted(snapshot.motor.actualPosition))
                                   .(flags := old(flags).(fault := true, claimed := false), exported := NonFinite)
    {
      flags, exported := flags.(fault := true, claimed := false), NonFinite;
      bus := Noted(bus, Event.Faulted(snapshot.motor.actualPosition));
    }

    method RaiseFaultIf(condition: bool, reason: Reason)
      modifies this, stop
      ensures View() == old(View()).RaiseIf(condition, reason)
    {
      if condition {
        RaiseFault(reason);
      }
    }

    method CanClaim() returns (can: bool)
      ensures can == View().CanClaim()
    {
      can := flags.active && !flags.starting && !flags.fault && IsReady(snapshot) &&
        session.referenceValid && calibration.referenceValid &&
        (calibration.velocityFromEncoder ==> session.velocity.Finite?);
    }

    method CopyState()
      modifies this
      ensures View() == old(View()).Export()
    {
      exported := NonFinite;
      var can := CanClaim();
      if can {
        exported := calibration.Position(snapshot.motor.actualPosition);
      }
    }

    // ----- reading -----

    method Observe(now: int)
      modifies this, session, stop
      ensures View() == old(View()).Observe(now)
    {
      var motor := snapshot.motor;
      var ok :=
        session.Observe(motor.actualPosition, now, motor.actualVelocity == 0, calibration.metresPerCount, MAXIMUM_STEP);
      RaiseFaultIf(!ok, EncoderDiscontinuity);
      if session.referenceValid && !calibration.referenceValid {
        calibration := calibration.SetReference(session.reference).1;
      }
    }

    method CheckStartup(now: int)
      modifies this, stop
      ensures View() == old(View()).StartupChecks(now)
    {
      if flags.starting && !flags.fault {
        if flags.firstWrite && now - times.activationEnd > CYCLE_LIMIT_NS {
          RaiseFault(MonotonicGap);
        } else if now - times.startupBegin > timeoutNs {
          RaiseFault(StartupTimeout);
        } else if times.interval > CYCLE_LIMIT_NS {
          RaiseFault(MonotonicGap);
        }
      }
    }

    method CheckBus()
      modifies this, stop
      ensures var h := old(View()); View() == h.RaiseIf(h.BusReason() != NoReason, h.BusReason())
    {
      if !snapshot.linkUp {
        RaiseFault(MasterLink);
      } else if snapshot.slaves != 3 {
        RaiseFault(SlaveCount);
      } else if !snapshot.complete {
        RaiseFault(IncompleteExchange);
      } else if !snapshot.coupler.Up() || !snapshot.load.Up() || !snapshot.drive.Up() {
        RaiseFault(SlaveNotOperational);
      } else if !EnabledCsp(snapshot.motor) {
        RaiseFault(DriveLost);
      } else if !ChannelsValid(snapshot) {
        RaiseFault(LoadCellInvalid);
      }
    }

    method CheckRunning(period: int)
      modifies this, stop
      ensures View() == old(View()).RunningChecks(period)
    {
      if !flags.active || flags.starting {
        return;
      }
      var pending, gap := flags.readPending, times.interval;
      CheckBus();
      RaiseFaultIf(pending, Sequencing);
      RaiseFaultIf(gap > CYCLE_LIMIT_NS, MonotonicGap);
      RaiseFaultIf(gap != 0 && (period <= 0 || period > CYCLE_LIMIT_NS), CyclePeriod);
    }

    method SetPending(pending: bool)
      modifies `flags
      ensures View() == old(View()).Pending(pending)
    {
      flags := flags.(readPending := pending);
    }

    method Digest(now: int, period: int)
      modifies this, session, stop
      ensures View() == old(View()).Digest(now, period)
    {
      if IsReady(snapshot) && !flags.fault {
        Observe(now);
      }
      CheckStartup(now);
      CheckRunning(period);
      SetPending(true);
      CopyState();
    }

    method Read(now: int, period: int, feedback: BusState)
      modifies this, session, stop
      ensures View() == old(View()).Read(now, period, feedback)
    {
      if !flags.active || !configured {
        return;
      }
      var early := times.lastExchange != 0 && now - times.lastExchange < EXCHANGE_GAP_NS;
      NoteRead(now, early);
      if early {
        RaiseFaultIf(!flags.starting, CyclePeriod);
      } else {
        Receive(now, feedback);
        Digest(now, period);
      }
    }

    method NoteRead(now: int, early: bool)
      modifies `times, `flags
      ensures View() == old(View()).Timed(now, early)
    {
      times := times.(interval := if times.lastRead != 0 then now - times.lastRead else 0, lastRead := now);
      flags := flags.(skipped := early);
    }

    method Receive(now: int, feedback: BusState)
      modifies `times, `snapshot, `bus
      ensures View() == old(View()).Exchange(now, feedback)
    {
      times := times.(lastExchange := now);
      snapshot := feedback.(received := true);
      bus := Noted(bus, Received(now, snapshot));
    }

    // ----- writing -----

    method Send(kind: Kind, frame: Command)
      modifies `bus
      ensures View() == old(View()).Emit(Sent(kind, frame))
    {
      bus := Noted(bus, Sent(kind, frame));
    }

    method WriteStartup()
      modifies this
      ensures View() == old(View()).WriteStartup()
    {
      var word := UpdateEnable(snapshot.motor, Command(0, CSP_MODE, previous)).0.controlword;
      var frame := Command(word, CSP_MODE, snapshot.motor.actualPosition);
      HoldMeasured();
      if IsReady(snapshot) && session.referenceValid && calibration.referenceValid {
        EndStartup();
        CopyState();
      }
      Send(Startup, frame);
    }

    method EndStartup()
      modifies `flags
      ensures View() == old(View()).Started()
    {
      flags := flags.(starting := false);
    }

    method Judge() returns (verdict: Verdict)
      ensures verdict == View().Judged()
    {
      var converted := Converted(previous);
      if flags.claimed {
        converted := calibration.ToCounts(command);
      }
      if converted.Refused? {
        return InvalidCommand;
      }
      verdict := Validate(Finite(converted.counts as real), previous, snapshot.motor, MAXIMUM_STEP);
    }

    method WriteMotion()
      modifies this, stop
      ensures View() == old(View()).WriteMotion()
    {
      var verdict := Judge();
      match verdict
      case ValidCommand(counts) =>
        SetTarget(counts);
        Send(Motion(flags.claimed, command, calibration), Command(ENABLE_OPERATION, CSP_MODE, counts));
      case LimitReached =>
        RaiseFault(LogicalLimit);
        WriteStop();
      case ExcessiveIncrement =>
        RaiseFault(StepTooLarge);
        WriteStop();
      case InvalidCommand =>
        RaiseFault(BadCommand);
        WriteStop();
    }

    method SetTarget(counts: Counts)
      modifies `previous
      ensures View() == old(View()).(previous := counts)
    {
      previous := counts;
    }

    method WriteStop()
      modifies this, stop
      ensures View() == old(View()).WriteStop()
    {
      HoldMeasured();
      var done := stop.cycle >= STOP_CYCLES;
      var frame := stop.Next();
      if done {
        Send(Stop, frame);
        EndStop();
      } else {
        Send(Stop, frame.(controlword := Guarded(frame.controlword, snapshot.motor)));
      }
    }

    method EndStop()
      modifies `flags
      ensures View() == old(View()).(flags := old(flags).(stopComplete := true, active := false))
    {
      flags := flags.(stopComplete := true, active := false);
    }

    method Write() returns (ok: bool)
      modifies this, stop
      ensures View() == old(View()).Write()
      ensures ok == old(View()).WriteSucceeds()
    {
      ghost var entry := View();
      if !flags.active || !configured || flags.skipped {
        return true;
      }
      RaiseFaultIf(!flags.readPending, Sequencing);
      SetPending(false);
      if flags.fault {
        WriteStop();
      } else if flags.starting {
        WriteStartup();
      } else {
        WriteMotion();
      }
      if flags.active {
        NoteWritten();
      }
      return flags.active;
    }

    method NoteWritten()
      modifies `flags
      ensures View() == old(View()).Written()
    {
      flags := flags.(firstWrite := false);
    }

    // ----- claiming -----

    method SetClaimed(claim: bool)
      modifies `flags
      ensures View() == old(View()).Claimed(claim)
    {
      flags := flags.(claimed := claim);
    }

    method PrepareSwitch(start: bool, stops: bool) returns (ok: bool)
      ensures ok == View().Prepares(start, stops)
    {
      var can := CanClaim();
      ok := !(start && (!can || (flags.claimed && !stops)));
    }

    method PerformSwitch(start: bool, stops: bool) returns (ok: bool)
      modifies this, stop
      ensures (View(), ok) == old(View()).Switch(start, stops)
    {
      if stops {
        RaiseFaultIf(flags.active && command.NonFinite?, BadCommand);
        SetClaimed(false);
        HoldMeasured();
      }
      if start {
        var can := CanClaim();
        if !can || flags.claimed {
          return false;
        }
        HoldMeasured();
        SetClaimed(true);
      }
      return true;
    }

    // ----- lifecycle -----

    /** granted: the master could be requested and set up. */
    method Configure(settings: Calibration, granted: bool) returns (ok: bool)
      modifies this
      ensures View() == old(View()).Configure(settings)
      ensures ok == (settings.Valid() && granted)
    {
      firstFault := NoReason;
      if !settings.Valid() {
        return false;
      }
      calibration := settings.ClearReference();
      return granted;
    }

    method Release()
      modifies `configured, `snapshot, `bus
      ensures View() == old(View()).Release()
    {
      configured, snapshot := false, NO_BUS;
      bus := Noted(bus, Released);
    }

    method Arm(now: int)
      modifies `configured, `flags, `times, `bus
      ensures View() == old(View()).Armed(now)
    {
      configured := true;
      flags := Flags(true, true, false, false, false, false, true, false);
      times := times.(lastRead := 0, lastExchange := 0, startupBegin := now, activationEnd := now);
      bus := Noted(bus, Activated);
    }

    method Activate(now: int, ok: bool)
      modifies this
      ensures View() == old(View()).Activate(now, ok)
    {
      if !configured && !ok {
        Release();
      } else {
        Arm(now);
        HoldMeasured();
        CopyState();
      }
    }

    method ExchangeOnce(feedback: BusState, frame: Command)
      modifies `snapshot, `bus
      ensures View() == old(View()).ShutdownExchange(feedback, frame)
    {
      snapshot := feedback.(received := true);
      bus := Noted(bus, Exchanged(snapshot));
      bus := Noted(bus, Sent(Stop, frame.(controlword := Guarded(frame.controlword, snapshot.motor))));
    }

    /** The loop that stops the drive from a lifecycle callback, one exchange a
        period; exchanges are those the clock lets it make. */
    method Shutdown(exchanges: seq<BusState>) returns (ok: bool)
      modifies `snapshot, `bus
      ensures (View(), ok) == old(View()).Shutdown(StopFrom(old(snapshot).motor), exchanges)
    {
      var sequence := new StopSequence();
      sequence.Start(snapshot.motor);
      var i := 0;
      while sequence.cycle < STOP_CYCLES
        invariant i <= |exchanges|
        invariant fresh(sequence)
        invariant old(View()).Shutdown(StopFrom(old(snapshot).motor), exchanges)
               == View().Shutdown(sequence.View(), exchanges[i..])
        decreases STOP_CYCLES - sequence.cycle
      {
        if i == |exchanges| {
          return false;
        }
        var frame := sequence.Next();
        ExchangeOnce(exchanges[i], frame);
        i := i + 1;
      }
      if i == |exchanges| {
        return false;
      }
      var frame := sequence.Next();
      ExchangeOnce(exchanges[i], frame);
      ok := snapshot.linkUp && snapshot.complete && Decode(snapshot.motor.statusword) == SwitchOnDisabled;
    }

    method SetIdle()
      modifies `flags
      ensures View() == old(View()).Idle()
    {
      flags := flags.(active := false, claimed := false, starting := false, readPending := false);
    }

    method NoteHalted()
      modifies `bus
      ensures View() == old(View()).Emit(Halted(snapshot.motor.actualPosition))
    {
      bus := Noted(bus, Halted(snapshot.motor.actualPosition));
    }

    method Halt(exchanges: seq<BusState>) returns (ok: bool)
      modifies this, session, stop
      ensures (View(), ok) == old(View()).Halt(exchanges)
    {
      SetIdle();
      if configured {
        HoldMeasured();
      }
      if flags.stopComplete || !configured {
        return true;
      }
      NoteHalted();
      ok := Shutdown(exchanges);
      Conclude(ok);
    }

    method Conclude(ok: bool)
      modifies this, session, stop
      ensures View() == old(View()).Concluded(ok)
    {
      HoldMeasured();
      session.Suspend();
      RaiseFaultIf(!ok, ShutdownFailure);
      NoteStopped();
    }

    method NoteStopped()
      modifies `flags
      ensures View() == old(View()).Stopped()
    {
      flags := flags.(stopComplete := true);
    }

    method Deactivate(exchanges: seq<BusState>) returns (ok: bool)
      modifies this, session, stop
      ensures View() == old(View()).Deactivate(exchanges) && ok == old(View()).Halt(exchanges).1
    {
      ok := Halt(exchanges);
      CopyState();
    }

    method Reset()
      modifies this, session, stop
      ensures View() == old(View()).Reset()
    {
      session.End();
      stop.Reset();
      calibration := calibration.ClearReference();
      exported, previous := NonFinite, 0;
      flags := flags.(active := false, claimed := false, fault := false, readPending := false, stopComplete := true);
      times := times.(lastRead := 0);
    }

    method Cleanup(exchanges: seq<BusState>) returns (ok: bool)
      modifies this, session, stop
      ensures View() == old(View()).Cleanup(exchanges) && ok == old(View()).Halt(exchanges).1
    {
      ok := Halt(exchanges);
      Release();
      Reset();
    }
  }
}
