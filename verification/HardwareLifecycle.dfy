/** What the lifecycle callbacks and the switches leave, and what a read shows. */
module HardwareLifecycle {
  import opened ControlTypes
  import opened DriveProfile
  import opened CountConversion
  import opened HardwareCycle
  import opened HardwareSafety
  import opened HardwareStartup

  // ----- what is shown -----

  /** After every read that reaches the bus the measured position is shown if and only if
      the component has started and has not faulted. */
  lemma ReadShows(clock: int, timeoutNs: int, inputs: seq<Input>, i: Input)
    requires clock > 0 && i.Reading? && Run(clock, timeoutNs, inputs).hardware.flags.active
    requires !TooSoon(Run(clock, timeoutNs, inputs).hardware, Now(Run(clock, timeoutNs, inputs), i))
    ensures var h := Run(clock, timeoutNs, inputs + [i]).hardware;
            && h.snapshot == i.feedback.(received := true)
            && h.exported == if h.flags.starting || h.flags.fault then NonFinite
                             else Finite(h.calibration.PositionOf(i.feedback.motor.actualPosition))
  {
    assert (inputs + [i])[..|inputs|] == inputs;
    RunInv(clock, timeoutNs, inputs);
    RunInv(clock, timeoutNs, inputs + [i]);
    var s := Run(clock, timeoutNs, inputs);
    ReadExports(s.hardware, Now(s, i), i.period, i.feedback);
  }

  lemma ReadExports(h: Hardware, now: int, period: int, s: BusState)
    requires h.flags.active && h.configured && !TooSoon(h, now)
    requires Inv(h.Read(now, period, s))
    ensures var h' := h.Read(now, period, s);
            && h'.flags.active && h'.snapshot == s.(received := true)
            && h'.exported == if h'.flags.starting || h'.flags.fault then NonFinite
                              else Finite(h'.calibration.PositionOf(s.motor.actualPosition))
  {
    var h0 := h.Timed(now, false).Exchange(now, s);
    ReadBegins(h, now, s);
    var h1 := if IsReady(h0.snapshot) && !h0.flags.fault then h0.Observe(now) else h0;
    ObserveReason(h0, now);
    ReadIs(h, now, period, s, h1);
    var h2 := ChecksKeep(h1, now, period);
    ExportIs(h2.Pending(true));
  }

  lemma ChecksKeep(h: Hardware, now: int, period: int) returns (h': Hardware)
    ensures h' == h.StartupChecks(now).RunningChecks(period)
    ensures h'.flags.active == h.flags.active && h'.snapshot == h.snapshot
  {
    RaiseIfKeeps(h, h.StartupReason(now) != NoReason, h.StartupReason(now));
    var h1 := h.StartupChecks(now);
    RaiseIfKeeps(h1, h1.BusReason() != NoReason, h1.BusReason());
    var h2 := h1.RaiseIf(h1.BusReason() != NoReason, h1.BusReason());
    RaiseIfKeeps(h2, h1.flags.readPending, Sequencing);
    var h3 := h2.RaiseIf(h1.flags.readPending, Sequencing);
    RaiseIfKeeps(h3, h1.times.interval > CYCLE_LIMIT_NS, MonotonicGap);
    var h4 := h3.RaiseIf(h1.times.interval > CYCLE_LIMIT_NS, MonotonicGap);
    RaiseIfKeeps(h4, h1.times.interval != 0 && (period <= 0 || period > CYCLE_LIMIT_NS), CyclePeriod);
    h' := h1.RunningChecks(period);
  }

  lemma ExportIs(h: Hardware)
    ensures var h' := h.Export();
            && h' == h.(exported := h'.exported) && (h'.CanClaim() <==> h.CanClaim())
            && h'.exported == if !h.CanClaim() then NonFinite
                              else h.calibration.Position(h.snapshot.motor.actualPosition)
  {
  }

  // ----- activation and configuration -----

  /** An activation succeeds if the master is configured or can be; it then starts from
      the position last measured, with nothing claimed, nothing shown and no fault. */
  lemma ActivationStarts(h: Hardware, now: int, ok: bool)
    ensures var h' := h.Activate(now, ok);
            if h.configured || ok then
              && h'.configured && Starts(h') && !h'.flags.claimed && !h'.flags.readPending && !h'.flags.skipped
              && h'.flags.firstWrite && !h'.flags.stopComplete
              && h'.times.startupBegin == h'.times.activationEnd == now
              && h'.times.lastRead == h'.times.lastExchange == 0
              && h'.previous == h.snapshot.motor.actualPosition && h'.exported.NonFinite?
              && h'.session == h.session && h'.firstFault == h.firstFault
            else !h'.configured && h'.flags == h.flags && h'.snapshot == NO_BUS
  {
  }

  /** New settings never bring a reference along, and refused ones change nothing but the
      record of the first fault. */
  lemma ConfigurationIs(h: Hardware, settings: Calibration)
    ensures var h' := h.Configure(settings);
            && h'.firstFault == NoReason
            && (settings.Valid() ==>
                  && !h'.calibration.referenceValid && h'.calibration.metresPerCount == settings.metresPerCount
                  && h'.calibration.lower == settings.lower && h'.calibration.upper == settings.upper
                  && h'.calibration.softBounds == settings.softBounds)
            && (!settings.Valid() ==> h'.calibration == h.calibration)
            && h'.session == h.session && h'.flags == h.flags && h'.bus == h.bus
  {
  }

  // ----- claims -----

  /** Giving up the claim leaves the drive asked to stay where it was just measured; a
      command that is no number is a fault of an active component. */
  lemma RelinquishHolds(h: Hardware)
    requires h.firstFault == NoReason && !h.flags.fault
    ensures var h' := h.Switch(false, true).0;
            && h.Switch(false, true).1
            && !h'.flags.claimed && h'.previous == h.snapshot.motor.actualPosition
            && h'.command == h.calibration.Position(h.snapshot.motor.actualPosition)
            && (h'.flags.fault <==> h.flags.active && h.command.NonFinite?)
            && h'.firstFault == (if h.flags.active && h.command.NonFinite? then BadCommand else NoReason)
  {
    RaiseIfReason(h, h.flags.active && h.command.NonFinite?, BadCommand);
  }

  // ----- the blocking stop -----

  /** The drive has been seen with its voltage disabled, over a working bus. */
  predicate Confirms(s: BusState) {
    s.linkUp && s.complete && Decode(s.motor.statusword) == SwitchOnDisabled
  }

  /** The exchanges that the sequence still has to make. */
  function Needed(stopping: Stopping): nat {
    if stopping.cycle >= 120 then 1 else 121 - stopping.cycle
  }

  /** The exchanges that are made: the sequence's, or as many as there are. */
  function Made(stopping: Stopping, exchanges: seq<BusState>): nat {
    if |exchanges| < Needed(stopping) then |exchanges| else Needed(stopping)
  }

  /** After one exchange one less is needed, and the last is still the last. */
  lemma OneLess(stopping: Stopping, exchanges: seq<BusState>)
    requires exchanges != [] && !stopping.Done()
    ensures var next, rest := StopNext(stopping), exchanges[1..];
            && Needed(next) == Needed(stopping) - 1 >= 1
            && Made(next, rest) == Made(stopping, exchanges) - 1
            && (|rest| >= Needed(next) ==> rest[Needed(next) - 1] == exchanges[Needed(stopping) - 1])
            && (rest != [] ==> rest[Made(next, rest) - 1] == exchanges[Made(stopping, exchanges) - 1])
            && (rest == [] ==> Made(stopping, exchanges) == 1)
  {
  }

  /** A blocking stop succeeds if and only if its whole sequence could be exchanged and
      the last exchange showed the drive disabled. */
  lemma {:induction false} ShutdownSucceedsExactly(h: Hardware, stopping: Stopping, exchanges: seq<BusState>)
    ensures h.Shutdown(stopping, exchanges).1 <==>
              |exchanges| >= Needed(stopping) && Confirms(exchanges[Needed(stopping) - 1])
    decreases STOP_CYCLES - stopping.cycle
  {
    if exchanges != [] {
      var h1 := ExchangeIs(h, exchanges[0], StopCommand(stopping));
      if !stopping.Done() {
        OneLess(stopping, exchanges);
        ShutdownSucceedsExactly(h1, StopNext(stopping), exchanges[1..]);
      }
    }
  }

  /** And it makes no more exchanges than that, keeping what the last one showed. */
  lemma {:induction false} ShutdownKeeps(h: Hardware, stopping: Stopping, exchanges: seq<BusState>)
    ensures var h' := h.Shutdown(stopping, exchanges).0;
            && h' == h.(snapshot := h'.snapshot, bus := h'.bus)
            && |h'.bus.events| == |h.bus.events| + 2 * Made(stopping, exchanges)
            && h'.snapshot == (if exchanges == [] then h.snapshot
                               else exchanges[Made(stopping, exchanges) - 1].(received := true))
    decreases STOP_CYCLES - stopping.cycle
  {
    if exchanges != [] {
      var h1 := ExchangeIs(h, exchanges[0], StopCommand(stopping));
      if !stopping.Done() {
        OneLess(stopping, exchanges);
        ShutdownKeeps(h1, StopNext(stopping), exchanges[1..]);
      }
    }
  }

  lemma ExchangeIs(h: Hardware, s: BusState, command: Command) returns (h': Hardware)
    ensures h' == h.ShutdownExchange(s, command)
    ensures h' == h.(snapshot := s.(received := true), bus := h'.bus) && |h'.bus.events| == |h.bus.events| + 2
  {
    h' := h.ShutdownExchange(s, command);
  }

  /** A lifecycle stop of a component that has one due leaves it idle, its session
      suspended, held where the last exchange found it, and faulted unless that exchange
      confirmed it; otherwise it sends nothing. */
  lemma StopLeaves(h: Hardware, exchanges: seq<BusState>)
    ensures var (h', success) := h.Halt(exchanges);
            && !h'.flags.active && !h'.flags.starting && !h'.flags.claimed && !h'.flags.readPending
            && h'.times == h.times && h'.configured == h.configured
            && if h.configured && !h.flags.stopComplete then
                 && h'.session == h.session.(suspended := true) && h'.flags.stopComplete
                 && h'.previous == h'.snapshot.motor.actualPosition
                 && (success <==> |exchanges| >= Needed(StopFrom(h.snapshot.motor))
                                  && Confirms(exchanges[Needed(StopFrom(h.snapshot.motor)) - 1]))
                 && (h'.flags.fault <==> h.flags.fault || !success)
                 && h'.firstFault == (if !success && h.firstFault == NoReason then ShutdownFailure else h.firstFault)
               else
                 && success && h'.session == h.session && h'.firstFault == h.firstFault
                 && h'.flags.fault == h.flags.fault && h'.snapshot == h.snapshot
                 && |h'.bus.events| == |h.bus.events| + (if h.configured then 1 else 0)
  {
    var held := IdleIs(h);
    if h.configured && !h.flags.stopComplete {
      var stopping := StopFrom(h.snapshot.motor);
      var halted := held.Emit(Halted(stopping.target));
      ShutdownSucceedsExactly(halted, stopping, exchanges);
      ShutdownKeeps(halted, stopping, exchanges);
      var (done, success) := halted.Shutdown(stopping, exchanges);
      ConcludedIs(done, success);
    }
  }

  lemma IdleIs(h: Hardware) returns (h': Hardware)
    ensures h' == if h.configured then h.Idle().Hold() else h.Idle()
    ensures h'.flags == h.flags.(active := false, claimed := false, starting := false, readPending := false)
    ensures h'.session == h.session && h'.firstFault == h.firstFault && h'.snapshot == h.snapshot
    ensures h'.times == h.times && h'.configured == h.configured
    ensures |h'.bus.events| == |h.bus.events| + (if h.configured then 1 else 0)
  {
    h' := if h.configured then h.Idle().Hold() else h.Idle();
  }

  lemma ConcludedIs(h: Hardware, success: bool)
    requires !h.flags.claimed
    ensures var h' := h.Concluded(success);
            && h'.flags == h.flags.(fault := h.flags.fault || !success, stopComplete := true)
            && h'.session == h.session.(suspended := true)
            && h'.previous == h'.snapshot.motor.actualPosition && h'.snapshot == h.snapshot
            && h'.firstFault == (if !success && h.firstFault == NoReason then ShutdownFailure else h.firstFault)
            && h'.times == h.times && h'.configured == h.configured
  {
    HoldIs(h);
    RaiseIfReason(h.Hold().Suspended(), !success, ShutdownFailure);
    RaisedAt(h.Hold().Suspended(), !success, ShutdownFailure);
  }

  lemma HoldIs(h: Hardware)
    ensures var h' := h.Hold();
            && h' == h.(bus := h'.bus, previous := h.snapshot.motor.actualPosition,
                        command := h.calibration.Position(h.snapshot.motor.actualPosition))
  {
  }

  lemma RaisedAt(h: Hardware, condition: bool, reason: Reason)
    requires h.previous == h.snapshot.motor.actualPosition
    ensures var h' := h.RaiseIf(condition, reason);
            h'.previous == h.snapshot.motor.actualPosition && h'.session == h.session
  {
  }

  /** Cleaning up forgets the session, the reference and the bus, but not the first
      fault. */
  lemma CleanupForgets(h: Hardware, exchanges: seq<BusState>)
    ensures var h' := h.Cleanup(exchanges);
            && h'.session == NO_SESSION && !h'.calibration.referenceValid && h'.snapshot == NO_BUS
            && !h'.configured && !h'.flags.active && !h'.flags.claimed && !h'.flags.fault && h'.flags.stopComplete
            && h'.times.lastRead == 0 && h'.stop == NOT_STOPPING && h'.previous == 0
            && h'.exported.NonFinite? && h'.firstFault == h.Halt(exchanges).0.firstFault
  {
  }
}
