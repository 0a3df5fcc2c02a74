/** A start that ends: while it lasts every read is within its deadline, and the first
    one past it is the fault that stops the drive.  And the reason each fault gives. */
module HardwareStartup {
  import opened ControlTypes
  import opened DriveProfile
  import opened CountConversion
  import opened HardwareCycle
  import opened HardwareSafety
  import opened HardwareRuns

  predicate Starts(h: Hardware) {
    h.flags.active && h.flags.starting && !h.flags.fault
  }

  /** The read comes so soon after the last exchange that the bus is left alone. */
  predicate TooSoon(h: Hardware, now: int) {
    h.times.lastExchange != 0 && now - h.times.lastExchange < 500_000
  }

  // ----- the conditions of a read, on its times and its feedback -----

  /** Ready feedback with an encoder count that is out of time or farther from the last
      one than the time since allows. */
  predicate Jumped(h: Hardware, now: int, s: BusState) {
    && IsReady(s.(received := true))
    && h.session.haveRead
    && (now <= h.session.lastNs
        || CountAbs(s.motor.actualPosition - h.session.previous) as real > Allowed(h.session, now, MAXIMUM_STEP))
  }

  predicate FirstWriteLate(h: Hardware, now: int) {
    h.flags.firstWrite && now - h.times.activationEnd > 10_000_000
  }

  predicate Overdue(h: Hardware, now: int) {
    now - h.times.startupBegin > h.timeoutNs
  }

  predicate Gapped(h: Hardware, now: int) {
    h.times.lastRead != 0 && now - h.times.lastRead > 10_000_000
  }

  /** The fault that a read would raise while starting. */
  function StartingFault(h: Hardware, now: int, s: BusState): Reason {
    if Jumped(h, now, s) then EncoderDiscontinuity
    else if FirstWriteLate(h, now) then MonotonicGap
    else if Overdue(h, now) then Reason.StartupTimeout
    else if Gapped(h, now) then MonotonicGap
    else NoReason
  }

  lemma JumpedIs(h: Hardware, now: int, s: BusState)
    ensures Jumped(h, now, s) <==>
              IsReady(s.(received := true)) && !Accepted(h.session, s.motor.actualPosition, now, MAXIMUM_STEP)
  {
  }

  lemma RaiseIfReason(h: Hardware, condition: bool, reason: Reason)
    requires condition ==> reason != NoReason
    ensures var h' := h.RaiseIf(condition, reason);
            && h'.firstFault == (if condition && h.firstFault == NoReason then reason else h.firstFault)
            && h'.timeoutNs == h.timeoutNs
            && (h'.flags.fault <==> condition || h.flags.fault)
            && h'.flags == h.flags.(fault := h'.flags.fault, claimed := h'.flags.claimed)
            && h'.times == h.times && h'.snapshot == h.snapshot && h'.configured == h.configured
  {
  }

  /** What a read has done before its checks. */
  lemma ReadBegins(h: Hardware, now: int, s: BusState)
    ensures var h' := h.Timed(now, false).Exchange(now, s);
            && h'.snapshot == s.(received := true) && h'.session == h.session && h'.timeoutNs == h.timeoutNs
            && h'.flags == h.flags.(skipped := false) && h'.firstFault == h.firstFault
            && h'.times == h.times.(lastRead := now, lastExchange := now, interval := h'.times.interval)
            && (h'.times.interval > CYCLE_LIMIT_NS <==> Gapped(h, now))
            && (h'.times.interval != 0 <==> h.times.lastRead != 0 && now != h.times.lastRead)
            && h'.configured == h.configured
  {
  }

  lemma ObserveReason(h: Hardware, now: int)
    ensures var h' := h.Observe(now);
            var jumps := !Accepted(h.session, h.snapshot.motor.actualPosition, now, MAXIMUM_STEP);
            && h'.firstFault == (if jumps && h.firstFault == NoReason then EncoderDiscontinuity else h.firstFault)
            && h'.timeoutNs == h.timeoutNs
            && (h'.flags.fault <==> jumps || h.flags.fault)
            && h'.flags == h.flags.(fault := h'.flags.fault, claimed := h'.flags.claimed)
            && h'.times == h.times && h'.snapshot == h.snapshot && h'.configured == h.configured
  {
  }

  /** After the observation, or without one. */
  lemma Observes(h: Hardware, now: int, s: BusState) returns (h': Hardware)
    requires h.flags.active && h.configured && !h.flags.fault
    ensures var h0 := h.Timed(now, false).Exchange(now, s);
            h' == if IsReady(h0.snapshot) && !h0.flags.fault then h0.Observe(now) else h0
    ensures h'.flags == h.flags.(skipped := false, fault := h'.flags.fault, claimed := h'.flags.claimed)
    ensures h'.flags.fault <==> Jumped(h, now, s)
    ensures h'.firstFault ==
              if Jumped(h, now, s) && h.firstFault == NoReason then EncoderDiscontinuity else h.firstFault
    ensures h'.timeoutNs == h.timeoutNs && h'.configured && h'.snapshot == s.(received := true)
    ensures h'.times == h.times.(lastRead := now, lastExchange := now, interval := h'.times.interval)
    ensures h'.times.interval > CYCLE_LIMIT_NS <==> Gapped(h, now)
    ensures h'.times.interval != 0 <==> h.times.lastRead != 0 && now != h.times.lastRead
  {
    var h0 := h.Timed(now, false).Exchange(now, s);
    ReadBegins(h, now, s);
    JumpedIs(h, now, s);
    ObserveReason(h0, now);
    h' := if IsReady(h0.snapshot) && !h0.flags.fault then h0.Observe(now) else h0;
  }

  lemma DigestEnds(h: Hardware)
    ensures var h' := h.Pending(true).Export();
            && h'.firstFault == h.firstFault && h'.flags == h.flags.(readPending := true) && h'.times == h.times
            && h'.timeoutNs == h.timeoutNs
  {
  }

  lemma ReadIs(h: Hardware, now: int, period: int, s: BusState, h1: Hardware)
    requires h.flags.active && h.configured && !TooSoon(h, now)
    requires var h0 := h.Timed(now, false).Exchange(now, s);
             h1 == if IsReady(h0.snapshot) && !h0.flags.fault then h0.Observe(now) else h0
    ensures h.Read(now, period, s) == h1.StartupChecks(now).RunningChecks(period).Pending(true).Export()
  {
  }

  /** A starting component faults on a read if and only if the encoder jumped, the first
      write is late, the deadline has passed or a cycle was missed, with the reason of
      the first of these; otherwise it goes on starting. */
  lemma StartingReadFaultsExactly(h: Hardware, now: int, period: int, s: BusState)
    requires Starts(h) && h.configured && !TooSoon(h, now)
    ensures var h' := h.Read(now, period, s);
            && (h'.flags.fault <==>
                  Jumped(h, now, s) || FirstWriteLate(h, now) || Overdue(h, now) || Gapped(h, now))
            && (h.firstFault == NoReason ==> h'.firstFault == StartingFault(h, now, s))
            && h'.flags.active && h'.flags.starting
            && h'.times == h.times.(lastRead := now, lastExchange := now, interval := h'.times.interval)
            && h'.timeoutNs == h.timeoutNs
  {
    var h1 := Observes(h, now, s);
    ReadIs(h, now, period, s, h1);
    StartingChecks(h, now, s, h1);
    DigestEnds(h1.StartupChecks(now));
  }

  lemma StartingChecks(h: Hardware, now: int, s: BusState, h1: Hardware)
    requires Starts(h)
    requires h1.flags == h.flags.(skipped := false, fault := h1.flags.fault, claimed := h1.flags.claimed)
    requires h1.flags.fault <==> Jumped(h, now, s)
    requires h1.firstFault ==
               if Jumped(h, now, s) && h.firstFault == NoReason then EncoderDiscontinuity else h.firstFault
    requires h1.times == h.times.(lastRead := now, lastExchange := now, interval := h1.times.interval)
    requires h1.timeoutNs == h.timeoutNs && (h1.times.interval > CYCLE_LIMIT_NS <==> Gapped(h, now))
    ensures var h2 := h1.StartupChecks(now);
            && h2.flags.active && h2.flags.starting
            && (h2.flags.fault <==> StartingFault(h, now, s) != NoReason)
            && (h.firstFault == NoReason ==> h2.firstFault == StartingFault(h, now, s))
            && h2.times == h1.times && h2.timeoutNs == h1.timeoutNs
            && forall period :: h2.RunningChecks(period) == h2
  {
    RaiseIfReason(h1, h1.StartupReason(now) != NoReason, h1.StartupReason(now));
  }

  /** A read too soon neither faults a start nor touches the bus. */
  lemma StartingSkip(h: Hardware, now: int, period: int, s: BusState)
    requires Starts(h) && h.configured && TooSoon(h, now)
    ensures var h' := h.Read(now, period, s);
            && Starts(h') && h'.bus == h.bus && h'.times.lastExchange == h.times.lastExchange
            && h'.firstFault == h.firstFault && h'.flags.skipped
  {
  }

  // ----- over runs -----

  /** When the latest activation was called. */
  function ActivatedAt(clock: int, timeoutNs: int, inputs: seq<Input>): int {
    if inputs == [] then clock
    else if inputs[|inputs| - 1].Activating? then Run(clock, timeoutNs, inputs).clock
    else ActivatedAt(clock, timeoutNs, inputs[..|inputs| - 1])
  }

  /** What a callback but a read and an activation leaves. */
  predicate Leaves(h: Hardware, h': Hardware) {
    && h'.timeoutNs == h.timeoutNs
    && h'.times.startupBegin == h.times.startupBegin && h'.times.activationEnd == h.times.activationEnd
    && h'.times.lastExchange == h.times.lastExchange
    && (h'.flags.active ==> h.flags.active)
    && (Starts(h') ==> Starts(h))
  }

  lemma HaltLeaves(h: Hardware, exchanges: seq<BusState>)
    requires Linked(h)
    ensures Leaves(h, h.Halt(exchanges).0) && !h.Halt(exchanges).0.flags.active
  {
    HaltLinked(h, exchanges);
    IdleLinked(h);
    if !h.flags.stopComplete && h.configured {
      var held, stopping := h.Idle().Hold(), StopFrom(h.snapshot.motor);
      HaltedLinked(held, stopping);
      ShutdownLinked(held.Emit(Halted(stopping.target)), stopping, exchanges);
      var (done, success) := held.Emit(Halted(stopping.target)).Shutdown(stopping, exchanges);
      ConcludedLeaves(done, success);
    }
  }

  lemma ConcludedLeaves(h: Hardware, success: bool)
    requires !h.flags.active
    ensures Leaves(h, h.Concluded(success))
  {
    RaiseIfReason(h.Hold().Suspended(), !success, ShutdownFailure);
  }

  lemma WriteLeaves(h: Hardware)
    ensures Leaves(h, h.Write())
  {
    if h.flags.active && h.configured && !h.flags.skipped {
      RaiseIfReason(h, !h.flags.readPending, Sequencing);
      var h' := h.RaiseIf(!h.flags.readPending, Sequencing).Pending(false);
      StopWriteLeaves(h');
      StartupWriteLeaves(h');
      MotionWriteLeaves(h');
    }
  }

  lemma LeavesTwice(h: Hardware, h': Hardware, h'': Hardware)
    requires Leaves(h, h') && Leaves(h', h'')
    ensures Leaves(h, h'')
  {
  }

  lemma HoldLeaves(h: Hardware)
    ensures Leaves(h, h.Hold()) && h.Hold().flags == h.flags
  {
  }

  lemma RaiseLeaves(h: Hardware, reason: Reason)
    ensures Leaves(h, h.Raise(reason))
  {
  }

  lemma StopWriteLeaves(h: Hardware)
    ensures Leaves(h, h.WriteStop())
  {
    HoldLeaves(h);
  }

  lemma StartupWriteLeaves(h: Hardware)
    ensures Leaves(h, h.WriteStartup())
  {
    HoldLeaves(h);
  }

  lemma RefusedLeaves(h: Hardware, reason: Reason)
    ensures Leaves(h, h.Raise(reason).WriteStop())
  {
    RaiseLeaves(h, reason);
    StopWriteLeaves(h.Raise(reason));
    LeavesTwice(h, h.Raise(reason), h.Raise(reason).WriteStop());
  }

  lemma MotionWriteLeaves(h: Hardware)
    ensures Leaves(h, h.WriteMotion())
  {
    match h.Judged()
    case ValidCommand(_) =>
    case LimitReached => RefusedLeaves(h, LogicalLimit);
    case ExcessiveIncrement => RefusedLeaves(h, StepTooLarge);
    case InvalidCommand => RefusedLeaves(h, BadCommand);
  }

  lemma RelinquishLeaves(h: Hardware)
    ensures Leaves(h, h.Relinquish())
  {
    var raised := h.RaiseIf(h.flags.active && h.command.NonFinite?, BadCommand);
    RaiseIfReason(h, h.flags.active && h.command.NonFinite?, BadCommand);
    HoldLeaves(raised.Claimed(false));
    LeavesTwice(h, raised.Claimed(false), raised.Claimed(false).Hold());
  }

  lemma ClaimLeaves(h: Hardware)
    ensures Leaves(h, h.Hold().Claimed(true))
  {
    HoldLeaves(h);
  }

  lemma SwitchLeaves(h: Hardware, start: bool, stops: bool)
    ensures Leaves(h, h.Switch(start, stops).0)
  {
    var h' := if stops then h.Relinquish() else h;
    RelinquishLeaves(h);
    ClaimLeaves(h');
    LeavesTwice(h, h', h'.Hold().Claimed(true));
  }

  lemma RespondLeaves(h: Hardware, now: int, i: Input)
    requires Linked(h) && !i.Reading? && !i.Activating?
    ensures Leaves(h, Respond(h, now, i))
  {
    match i
    case Deactivating(exchanges) => HaltLeaves(h, exchanges);
    case Cleaning(exchanges) => HaltLeaves(h, exchanges);
    case Writing => WriteLeaves(h);
    case Switching(start, stops) => SwitchLeaves(h, start, stops);
    case _ =>
  }

  /** A start under way was activated then, and every exchange it has made was in time. */
  ghost predicate InTime(h: Hardware, at: int) {
    && (h.flags.active ==> h.times.startupBegin == at)
    && (Starts(h) && h.times.lastExchange != 0 ==> h.times.lastExchange - at <= h.timeoutNs)
  }

  lemma ReadInTime(h: Hardware, now: int, period: int, s: BusState, at: int)
    requires InTime(h, at)
    ensures InTime(h.Read(now, period, s), at) && h.Read(now, period, s).timeoutNs == h.timeoutNs
  {
    if h.flags.active && h.configured {
      if TooSoon(h, now) {
        SkipKeeps(h, now);
      } else if Starts(h) {
        StartingReadFaultsExactly(h, now, period, s);
      } else {
        ReadStays(h, now, period, s);
      }
    }
  }

  lemma SkipKeeps(h: Hardware, now: int)
    ensures var h' := h.Skip(now);
            && h'.timeoutNs == h.timeoutNs && h'.times.startupBegin == h.times.startupBegin
            && h'.times.lastExchange == h.times.lastExchange && h'.flags.active == h.flags.active
            && (Starts(h') ==> Starts(h))
  {
    RaiseIfReason(h.Timed(now, true), !h.flags.starting, CyclePeriod);
  }

  /** A read never begins a start again. */
  lemma ReadStays(h: Hardware, now: int, period: int, s: BusState)
    requires h.flags.active && h.configured && !TooSoon(h, now) && !Starts(h)
    ensures var h' := h.Read(now, period, s);
            && !Starts(h') && h'.flags.active && h'.times.startupBegin == h.times.startupBegin
            && h'.timeoutNs == h.timeoutNs
  {
    var h0 := h.Timed(now, false).Exchange(now, s);
    ReadBegins(h, now, s);
    ObserveReason(h0, now);
    var h1 := if IsReady(h0.snapshot) && !h0.flags.fault then h0.Observe(now) else h0;
    ReadIs(h, now, period, s, h1);
    var h2 := ChecksStay(h1, now, period);
    DigestEnds(h2);
  }

  /** Four checks, of which the first that finds something wrong gives the reason. */
  function FirstOf(bus: Reason, pending: bool, gap: bool, period: bool): Reason {
    if bus != NoReason then bus
    else if pending then Sequencing
    else if gap then MonotonicGap
    else if period then CyclePeriod
    else NoReason
  }

  lemma Checks(h: Hardware, condition: bool, reason: Reason) returns (h': Hardware)
    requires condition ==> reason != NoReason
    ensures h' == h.RaiseIf(condition, reason)
    ensures h'.firstFault == if condition && h.firstFault == NoReason then reason else h.firstFault
    ensures h'.flags.fault <==> condition || h.flags.fault
    ensures h'.flags == h.flags.(fault := h'.flags.fault, claimed := h'.flags.claimed)
    ensures h'.times == h.times && h'.timeoutNs == h.timeoutNs
  {
    h' := h.RaiseIf(condition, reason);
    RaiseIfReason(h, condition, reason);
  }

  lemma FourChecks(h: Hardware, period: int) returns (h': Hardware)
    requires h.flags.active && !h.flags.starting
    ensures h' == h.RunningChecks(period)
    ensures var reason := FirstOf(h.BusReason(), h.flags.readPending, h.times.interval > CYCLE_LIMIT_NS,
                                  h.times.interval != 0 && (period <= 0 || period > CYCLE_LIMIT_NS));
            && h'.firstFault == (if h.firstFault == NoReason then reason else h.firstFault)
            && (h'.flags.fault <==> h.flags.fault || reason != NoReason)
    ensures h'.flags == h.flags.(fault := h'.flags.fault, claimed := h'.flags.claimed)
    ensures h'.times == h.times && h'.timeoutNs == h.timeoutNs
  {
    var bus, gap := h.BusReason(), h.times.interval > CYCLE_LIMIT_NS;
    var late := h.times.interval != 0 && (period <= 0 || period > CYCLE_LIMIT_NS);
    h' := InTurn(h, bus, h.flags.readPending, gap, late);
    RunningChecksAre(h, period, bus, h.flags.readPending, gap, late, h');
  }

  lemma InTurn(h: Hardware, bus: Reason, pending: bool, gap: bool, period: bool) returns (h': Hardware)
    ensures h' == h.RaiseIf(bus != NoReason, bus).RaiseIf(pending, Sequencing).RaiseIf(gap, MonotonicGap)
                   .RaiseIf(period, CyclePeriod)
    ensures h'.firstFault == if h.firstFault == NoReason then FirstOf(bus, pending, gap, period) else h.firstFault
    ensures h'.flags.fault <==> h.flags.fault || FirstOf(bus, pending, gap, period) != NoReason
    ensures h'.flags == h.flags.(fault := h'.flags.fault, claimed := h'.flags.claimed)
    ensures h'.times == h.times && h'.timeoutNs == h.timeoutNs
  {
    h' := Checks(h, bus != NoReason, bus);
    h' := Checks(h', pending, Sequencing);
    h' := Checks(h', gap, MonotonicGap);
    h' := Checks(h', period, CyclePeriod);
  }

  lemma RunningChecksAre(h: Hardware, period: int, bus: Reason, pending: bool, gap: bool, late: bool, h': Hardware)
    requires h.flags.active && !h.flags.starting && bus == h.BusReason() && pending == h.flags.readPending
    requires gap == (h.times.interval > CYCLE_LIMIT_NS)
    requires late == (h.times.interval != 0 && (period <= 0 || period > CYCLE_LIMIT_NS))
    requires h' == h.RaiseIf(bus != NoReason, bus).RaiseIf(pending, Sequencing).RaiseIf(gap, MonotonicGap)
                    .RaiseIf(late, CyclePeriod)
    ensures h' == h.RunningChecks(period)
  {
  }

  lemma ChecksStay(h: Hardware, now: int, period: int) returns (h': Hardware)
    ensures h' == h.StartupChecks(now).RunningChecks(period)
    ensures h'.flags == h.flags.(fault := h'.flags.fault, claimed := h'.flags.claimed)
    ensures (h.flags.fault ==> h'.flags.fault) && h'.times == h.times && h'.timeoutNs == h.timeoutNs
  {
    h' := Checks(h, h.StartupReason(now) != NoReason, h.StartupReason(now));
    assert h' == h.StartupChecks(now);
    if h'.flags.active && !h'.flags.starting {
      h' := FourChecks(h', period);
    }
  }

  lemma ActivateInTime(h: Hardware, now: int, ok: bool, at: int)
    requires Linked(h) && InTime(h, at)
    ensures InTime(h.Activate(now, ok), now) && h.Activate(now, ok).timeoutNs == h.timeoutNs
  {
  }

  lemma {:induction false} RunInTime(clock: int, timeoutNs: int, inputs: seq<Input>)
    requires clock > 0
    ensures var h := Run(clock, timeoutNs, inputs).hardware;
            InTime(h, ActivatedAt(clock, timeoutNs, inputs)) && h.timeoutNs == timeoutNs
  {
    if inputs != [] {
      var front, i := inputs[..|inputs| - 1], inputs[|inputs| - 1];
      RunInTime(clock, timeoutNs, front);
      RunInv(clock, timeoutNs, front);
      var s, at := Run(clock, timeoutNs, front), ActivatedAt(clock, timeoutNs, front);
      match i
      case Activating(_, ok) => ActivateInTime(s.hardware, Now(s, i), ok, at);
      case Reading(_, period, feedback) => ReadInTime(s.hardware, Now(s, i), period, feedback, at);
      case _ => RespondLeaves(s.hardware, Now(s, i), i);
    }
  }

  /** In every run a component that is still starting has made its last exchange within
      the deadline of its activation. */
  lemma StartIsInTime(clock: int, timeoutNs: int, inputs: seq<Input>)
    requires clock > 0 && Starts(Run(clock, timeoutNs, inputs).hardware)
    ensures var h := Run(clock, timeoutNs, inputs).hardware;
            h.times.lastExchange != 0 ==>
              h.times.lastExchange - ActivatedAt(clock, timeoutNs, inputs) <= timeoutNs
  {
    RunInTime(clock, timeoutNs, inputs);
  }

  /** And its first read past that deadline that reaches the bus is its fault, which
      stops the drive. */
  lemma StartTimesOut(clock: int, timeoutNs: int, inputs: seq<Input>, i: Input)
    requires clock > 0 && i.Reading? && Starts(Run(clock, timeoutNs, inputs).hardware)
    requires var s := Run(clock, timeoutNs, inputs);
             && !TooSoon(s.hardware, Now(s, i))
             && Now(s, i) - ActivatedAt(clock, timeoutNs, inputs) > timeoutNs
    ensures var h, h' := Run(clock, timeoutNs, inputs).hardware, Run(clock, timeoutNs, inputs + [i]).hardware;
            && Halting(h')
            && (h.firstFault == NoReason ==>
                  h'.firstFault in {EncoderDiscontinuity, MonotonicGap, Reason.StartupTimeout})
  {
    assert (inputs + [i])[..|inputs|] == inputs;
    RunInTime(clock, timeoutNs, inputs);
    RunInv(clock, timeoutNs, inputs);
    RunInv(clock, timeoutNs, inputs + [i]);
    var s := Run(clock, timeoutNs, inputs);
    StartingReadFaultsExactly(s.hardware, Now(s, i), i.period, i.feedback);
  }

  /** The velocity shown would be a number. */
  predicate CanRun(h: Hardware) {
    h.calibration.velocityFromEncoder ==> h.session.velocity.Finite?
  }

  /** A write ends the start exactly when the bus is ready and the session has given the
      calibration its reference, and then shows the position; either way it asks the
      drive to stay where it is. */
  lemma StartEndsExactly(h: Hardware)
    requires Starts(h) && h.configured && !h.flags.skipped && h.flags.readPending
    ensures var h', at := h.Write(), h.snapshot.motor.actualPosition;
            && !h'.flags.fault
            && (h'.flags.starting <==>
                  !(IsReady(h.snapshot) && h.session.referenceValid && h.calibration.referenceValid))
            && h'.previous == at
            && (!h'.flags.starting && CanRun(h) ==> h'.exported == Finite(h.calibration.PositionOf(at)))
            && exists word :: h'.bus.events == h.bus.events + [Held(at), Sent(Startup, Command(word, CSP_MODE, at))]
  {
    var word := UpdateEnable(h.snapshot.motor, Command(0, CSP_MODE, h.previous)).0.controlword;
    var at := h.snapshot.motor.actualPosition;
    assert h.Write().bus.events == h.bus.events + [Held(at), Sent(Startup, Command(word, CSP_MODE, at))];
  }

  // ----- the reason of a running component's fault -----

  /** What is wrong with the bus, the worst first. */
  function BusFault(s: BusState): Reason {
    if !s.linkUp then MasterLink
    else if s.slaves != 3 then SlaveCount
    else if !s.complete then IncompleteExchange
    else if !s.coupler.Up() || !s.load.Up() || !s.drive.Up() then SlaveNotOperational
    else if !EnabledCsp(s.motor) then DriveLost
    else if !ChannelsValid(s) then LoadCellInvalid
    else NoReason
  }

  function RunningFault(h: Hardware, now: int, period: int, s: BusState): Reason {
    if Jumped(h, now, s) then EncoderDiscontinuity
    else if BusFault(s) != NoReason then BusFault(s)
    else if h.flags.readPending then Sequencing
    else if Gapped(h, now) then MonotonicGap
    else if h.times.lastRead != 0 && now != h.times.lastRead && (period <= 0 || period > 10_000_000) then CyclePeriod
    else NoReason
  }

  /** A running component's read gives the reason of the first thing it finds wrong, in
      this order, and has none exactly when it does not fault. */
  lemma RunningReadReason(h: Hardware, now: int, period: int, s: BusState)
    requires h.flags.active && h.configured && !h.flags.starting && !h.flags.fault && h.firstFault == NoReason
    ensures var h' := h.Read(now, period, s);
            && h'.firstFault == (if TooSoon(h, now) then CyclePeriod else RunningFault(h, now, period, s))
            && (h'.flags.fault <==> h'.firstFault != NoReason)
  {
    if TooSoon(h, now) {
      RaiseIfReason(h.Timed(now, true), true, CyclePeriod);
    } else {
      var h1 := Observes(h, now, s);
      ReadIs(h, now, period, s, h1);
      assert h1.StartupChecks(now) == h1;
      var h2 := FourChecks(h1, period);
      BusFaultIs(h1, s);
      DigestEnds(h2);
    }
  }

  lemma BusFaultIs(h: Hardware, s: BusState)
    requires h.snapshot == s.(received := true)
    ensures h.BusReason() == BusFault(s)
  {
  }

  /** And so does a write: no read before it, a request that cannot be converted, a step
      of more than a thousand counts, or one deeper into an asserted limit. */
  lemma RunningWriteReason(h: Hardware)
    requires h.flags.active && h.configured && !h.flags.skipped && !h.flags.starting && !h.flags.fault
    requires h.firstFault == NoReason
    ensures h.Write().firstFault ==
              if !h.flags.readPending then Sequencing
              else if Asked(h).Refused? then BadCommand
              else if Asked(h).counts - h.previous > 1000 || h.previous - Asked(h).counts > 1000 then StepTooLarge
              else if !SafeStep(Asked(h).counts, h.previous, h.snapshot.motor) then LogicalLimit
              else NoReason
  {
    var h1 := Checks(h, !h.flags.readPending, Sequencing);
    WriteIs(h, h1.Pending(false));
    if h.flags.readPending {
      JudgedIs(h1.Pending(false));
      MotionReason(h1.Pending(false));
    } else {
      StopKeepsReason(h1.Pending(false));
    }
  }

  lemma WriteIs(h: Hardware, h1: Hardware)
    requires h.flags.active && h.configured && !h.flags.skipped && !h.flags.starting
    requires h1 == h.RaiseIf(!h.flags.readPending, Sequencing).Pending(false)
    ensures h.Write().firstFault == (if h1.flags.fault then h1.WriteStop() else h1.WriteMotion()).firstFault
  {
  }

  lemma StopKeepsReason(h: Hardware)
    ensures h.WriteStop().firstFault == h.firstFault
  {
  }

  lemma RefusedReason(h: Hardware, reason: Reason)
    requires h.firstFault == NoReason
    ensures h.Raise(reason).WriteStop().firstFault == reason
  {
    StopKeepsReason(h.Raise(reason));
  }

  lemma JudgedIs(h: Hardware)
    ensures h.Judged() ==
              if Asked(h).Refused? then InvalidCommand
              else if Asked(h).counts - h.previous > 1000 || h.previous - Asked(h).counts > 1000 then ExcessiveIncrement
              else if !SafeStep(Asked(h).counts, h.previous, h.snapshot.motor) then LimitReached
              else ValidCommand(Asked(h).counts)
  {
    if Asked(h).Converted? {
      ValidateExact(Asked(h).counts, h.previous, h.snapshot.motor);
    }
  }

  function JudgedReason(verdict: Verdict): Reason {
    match verdict
    case ValidCommand(_) => NoReason
    case LimitReached => LogicalLimit
    case ExcessiveIncrement => StepTooLarge
    case InvalidCommand => BadCommand
  }

  lemma MotionReason(h: Hardware)
    requires !h.flags.fault && h.firstFault == NoReason
    ensures h.WriteMotion().firstFault == JudgedReason(h.Judged())
  {
    RefusedReason(h, BadCommand);
    RefusedReason(h, StepTooLarge);
    RefusedReason(h, LogicalLimit);
  }
}
