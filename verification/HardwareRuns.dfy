/** The promises of the hardware cycle over whole runs, read off the trace of the
    bus. */
module HardwareRuns {
  import opened ControlTypes
  import opened DriveProfile
  import opened CountConversion
  import opened HardwareCycle
  import opened HardwareSafety

  lemma {:induction false} LegalAt(events: seq<Event>, i: nat)
    requires AllLegal(events) && i < |events|
    ensures Legal(Watched(events[..i]), events[i])
  {
    if i < |events| - 1 {
      LegalAt(events[..|events| - 1], i);
      assert events[..|events| - 1][..i] == events[..i];
    }
  }

  function Events(clock: int, timeoutNs: int, inputs: seq<Input>): seq<Event> {
    Run(clock, timeoutNs, inputs).hardware.bus.events
  }

  /** Every frame of every run is legal at the moment it is sent. */
  lemma EveryFrameLegal(clock: int, timeoutNs: int, inputs: seq<Input>, i: nat)
    requires clock > 0 && i < |Events(clock, timeoutNs, inputs)|
    ensures var events := Events(clock, timeoutNs, inputs);
            Legal(Watched(events[..i]), events[i])
  {
    RunInv(clock, timeoutNs, inputs);
    LegalAt(Events(clock, timeoutNs, inputs), i);
  }

  /** The event sets the position the next motion frame is measured from: a target sent,
      but for a stop, or a hold where the drive was just measured. */
  predicate Bases(events: seq<Event>, b: nat, base: Counts)
    requires b < |events|
  {
    match events[b]
    case Held(position) => base == position == Watched(events[..b]).feedback.motor.actualPosition
    case Sent(kind, command) => kind != Stop && base == command.target
    case _ => false
  }

  predicate Rebases(e: Event) {
    e.Held? || (e.Sent? && e.kind != Stop)
  }

  /** b is the latest event that does. */
  predicate BasedAt(events: seq<Event>, b: nat, base: Counts)
    requires b < |events|
  {
    Bases(events, b, base) && forall j :: b < j < |events| ==> !Rebases(events[j])
  }

  lemma {:induction false} BaseMeans(events: seq<Event>) returns (b: nat)
    requires AllLegal(events) && Watched(events).based
    ensures b < |events| && BasedAt(events, b, Watched(events).base)
  {
    var front, e := events[..|events| - 1], events[|events| - 1];
    if Rebases(e) {
      b := |front|;
    } else {
      b := BaseMeans(front);
      assert front[..b] == events[..b];
      assert forall j :: b <= j < |front| ==> events[j] == front[j];
    }
  }

  /** b is the latest beginning of a stop, where the drive was just measured. */
  predicate StoppedAt(events: seq<Event>, b: nat, position: Counts)
    requires b < |events|
  {
    && (events[b] == Event.Faulted(position) || events[b] == Halted(position))
    && position == Watched(events[..b]).feedback.motor.actualPosition
    && forall j :: b < j < |events| ==> !events[j].Faulted? && !events[j].Halted?
  }

  lemma {:induction false} StopMeans(events: seq<Event>) returns (b: nat)
    requires AllLegal(events) && Watched(events).halted
    ensures b < |events| && StoppedAt(events, b, Watched(events).stopBase)
  {
    var front, e := events[..|events| - 1], events[|events| - 1];
    if e.Faulted? || e.Halted? {
      b := |front|;
    } else {
      b := StopMeans(front);
      assert front[..b] == events[..b];
      assert forall j :: b <= j < |front| ==> events[j] == front[j];
    }
  }

  /** Motion-frame safety: a frame sent while running moves at most a thousand
      counts from the last one sent, or from the position measured at a hold
      since, and never deeper into a limit. */
  lemma MotionFramesSafe(clock: int, timeoutNs: int, inputs: seq<Input>, i: nat, kind: Kind, target: Counts)
    returns (b: nat, base: Counts)
    requires clock > 0 && i < |Events(clock, timeoutNs, inputs)| && kind.Motion?
    requires Events(clock, timeoutNs, inputs)[i] == Sent(kind, Command(ENABLE_OPERATION, CSP_MODE, target))
    ensures b < i && BasedAt(Events(clock, timeoutNs, inputs)[..i], b, base)
    ensures var m := Watched(Events(clock, timeoutNs, inputs)[..i]);
            && IsReady(m.feedback) && !m.faulted
            && -1000 <= target - base <= 1000
            && (m.feedback.motor.negativeLimit ==> target >= base && target >= m.feedback.motor.actualPosition)
            && (m.feedback.motor.positiveLimit ==> target <= base && target <= m.feedback.motor.actualPosition)
            && (!kind.claimed ==> target == base)
    ensures kind.claimed ==> kind.requested.Finite? && Meets(kind.calibration, kind.requested.value, target)
  {
    var events := Events(clock, timeoutNs, inputs);
    EveryFrameLegal(clock, timeoutNs, inputs, i);
    RunInv(clock, timeoutNs, inputs);
    PrefixLegal(events, i);
    b := BaseMeans(events[..i]);
    base := Watched(events[..i]).base;
  }

  /** Every frame of a stop holds the position measured when that stop began, and
      enables operation only of a drive last seen enabled in CSP. */
  lemma StopFramesHold(clock: int, timeoutNs: int, inputs: seq<Input>, i: nat) returns (b: nat)
    requires clock > 0 && i < |Events(clock, timeoutNs, inputs)|
    requires Events(clock, timeoutNs, inputs)[i].Sent? && Events(clock, timeoutNs, inputs)[i].kind == Stop
    ensures var events := Events(clock, timeoutNs, inputs);
            var c := events[i].command;
            && b < i && StoppedAt(events[..i], b, c.target)
            && c.mode == CSP_MODE && c.controlword in {ENABLE_OPERATION, SHUTDOWN, DISABLE_VOLTAGE}
            && (c.controlword == ENABLE_OPERATION ==> EnabledCsp(Watched(events[..i]).feedback.motor))
  {
    var events := Events(clock, timeoutNs, inputs);
    EveryFrameLegal(clock, timeoutNs, inputs, i);
    RunInv(clock, timeoutNs, inputs);
    PrefixLegal(events, i);
    b := StopMeans(events[..i]);
  }

  /** A target within the soft bounds, as is the request it meets to half a count. */
  predicate Meets(c: Calibration, q: real, target: Counts) {
    && c.InBounds(q)
    && c.InBounds(c.PositionOf(target))
    && Abs(c.PositionOf(target) - q) <= Abs(c.metresPerCount) / 2.0
  }

  /** And every frame sent while running has that form. */
  lemma MotionFrameForm(clock: int, timeoutNs: int, inputs: seq<Input>, i: nat)
    requires clock > 0 && i < |Events(clock, timeoutNs, inputs)|
    requires Events(clock, timeoutNs, inputs)[i].Sent? && Events(clock, timeoutNs, inputs)[i].kind.Motion?
    ensures var e := Events(clock, timeoutNs, inputs)[i];
            e == Sent(e.kind, Command(ENABLE_OPERATION, CSP_MODE, e.command.target))
  {
    EveryFrameLegal(clock, timeoutNs, inputs, i);
  }

  /** Startup only ever asks the drive to stay where it was just measured. */
  lemma StartupFramesHold(clock: int, timeoutNs: int, inputs: seq<Input>, i: nat)
    requires clock > 0 && i < |Events(clock, timeoutNs, inputs)|
    requires Events(clock, timeoutNs, inputs)[i].Sent? && Events(clock, timeoutNs, inputs)[i].kind.Startup?
    ensures var events := Events(clock, timeoutNs, inputs);
            events[i].command.target == Watched(events[..i]).feedback.motor.actualPosition
  {
    EveryFrameLegal(clock, timeoutNs, inputs, i);
  }

  // ----- what the observer's fields mean -----

  /** Something was received since the last frame. */
  lemma {:induction false} RenewedMeans(events: seq<Event>)
    requires Watched(events).renewed
    ensures exists k :: 0 <= k < |events| && events[k].Received? && forall j :: k < j < |events| ==> !events[j].Sent?
  {
    var front, e := events[..|events| - 1], events[|events| - 1];
    if !e.Received? {
      RenewedMeans(front);
      var k :| 0 <= k < |front| && front[k].Received? && forall j :: k < j < |front| ==> !front[j].Sent?;
      assert events[k].Received? && forall j :: k < j < |events| - 1 ==> events[j] == front[j];
    }
  }

  /** A frame that is not part of a stop follows a receive of its own. */
  lemma FrameFollowsReceive(clock: int, timeoutNs: int, inputs: seq<Input>, i: nat)
    requires clock > 0 && i < |Events(clock, timeoutNs, inputs)|
    requires Events(clock, timeoutNs, inputs)[i].Sent? && Events(clock, timeoutNs, inputs)[i].kind != Stop
    ensures var events := Events(clock, timeoutNs, inputs);
            exists k :: 0 <= k < i && events[k].Received? && forall j :: k < j < i ==> !events[j].Sent?
  {
    var events := Events(clock, timeoutNs, inputs);
    EveryFrameLegal(clock, timeoutNs, inputs, i);
    RenewedMeans(events[..i]);
    var k :| 0 <= k < i && events[..i][k].Received? && forall j :: k < j < i ==> !events[..i][j].Sent?;
    assert events[k].Received? && forall j :: k < j < i ==> events[j] == events[..i][j];
  }

  /** Since that receive no activation began. */
  predicate SameActivation(events: seq<Event>, k: nat) {
    forall j :: k < j < |events| ==> !events[j].Activated?
  }

  /** The observer's last receive is no earlier than any of this activation. */
  lemma {:induction false} LastReceiveMeans(events: seq<Event>, k: nat)
    requires AllLegal(events) && k < |events| && events[k].Received? && SameActivation(events, k)
    ensures Watched(events).lastReceive >= events[k].now > 0
  {
    var n := |events| - 1;
    if k < n {
      assert SameActivation(events[..n], k);
      LastReceiveMeans(events[..n], k);
    } else {
      LegalAt(events, k);
    }
  }

  /** Receives of one activation are at least half a millisecond apart. */
  lemma ReceivesSpaced(clock: int, timeoutNs: int, inputs: seq<Input>, i: nat, j: nat)
    requires clock > 0 && i < j < |Events(clock, timeoutNs, inputs)|
    requires Events(clock, timeoutNs, inputs)[i].Received? && Events(clock, timeoutNs, inputs)[j].Received?
    requires SameActivation(Events(clock, timeoutNs, inputs)[..j], i)
    ensures var events := Events(clock, timeoutNs, inputs);
            events[j].now - events[i].now >= 500_000
  {
    var events := Events(clock, timeoutNs, inputs);
    RunInv(clock, timeoutNs, inputs);
    PrefixLegal(events, j);
    LastReceiveMeans(events[..j], i);
    LegalAt(events, j);
  }

  lemma {:induction false} PrefixLegal(events: seq<Event>, n: nat)
    requires AllLegal(events) && n <= |events|
    ensures AllLegal(events[..n])
  {
    if n < |events| {
      PrefixLegal(events[..|events| - 1], n);
      assert events[..|events| - 1][..n] == events[..n];
    } else {
      assert events[..n] == events;
    }
  }

  /** Readiness and claims: a component that is running has a ready bus, a session
      and the session's reference; a claimed one is running; and the position it
      shows is the measured one. */
  lemma RunningIsReady(clock: int, timeoutNs: int, inputs: seq<Input>)
    requires clock > 0
    ensures var h := Run(clock, timeoutNs, inputs).hardware;
            && (h.flags.active && !h.flags.starting && !h.flags.fault ==>
                  && IsReady(h.snapshot)
                  && h.session.referenceValid
                  && h.calibration.referenceValid
                  && h.calibration.reference == h.session.reference
                  && h.CanClaim())
            && (h.flags.claimed ==> h.CanClaim())
            && (h.exported.Finite? ==>
                  h.CanClaim() && h.exported.value == h.calibration.PositionOf(h.snapshot.motor.actualPosition))
  {
    RunInv(clock, timeoutNs, inputs);
  }

  // ----- the bounded stop -----

  /** The cycle and its stop sequence alone, without the lifecycle. */
  predicate Cyclic(i: Input) {
    i.Reading? || i.Writing? || i.Switching? || i.Requesting?
  }

  predicate Halting(h: Hardware) {
    h.flags.active && h.configured && h.flags.fault
  }

  function RespondAll(s: System, inputs: seq<Input>): System {
    if inputs == [] then s else Step(RespondAll(s, inputs[..|inputs| - 1]), inputs[|inputs| - 1])
  }

  /** The writes that reach the bus. */
  function Writes(s: System, inputs: seq<Input>): nat {
    if inputs == [] then 0 else
    Writes(s, inputs[..|inputs| - 1]) +
    (if Reaches(RespondAll(s, inputs[..|inputs| - 1]).hardware, inputs[|inputs| - 1]) then 1 else 0)
  }

  lemma DigestHalting(h: Hardware, now: int, period: int)
    requires Halting(h)
    ensures Halting(h.Digest(now, period)) && h.Digest(now, period).stop == h.stop
  {
  }

  lemma ExchangeHalting(h: Hardware, now: int, s: BusState)
    requires Halting(h)
    ensures var h' := h.Timed(now, false).Exchange(now, s); Halting(h') && h'.stop == h.stop
    ensures Halting(h.Skip(now)) && h.Skip(now).stop == h.stop
  {
  }

  /** A fault is already up, so nothing but a write moves the sequence on. */
  lemma HaltingKept(h: Hardware, now: int, i: Input)
    requires Halting(h) && Cyclic(i) && (i.Writing? ==> h.flags.skipped)
    ensures Halting(Respond(h, now, i)) && Respond(h, now, i).stop == h.stop
  {
    match i
    case Reading(_, period, s) =>
      ExchangeHalting(h, now, s);
      DigestHalting(h.Timed(now, false).Exchange(now, s), now, period);
    case Switching(start, stops) => SwitchHalting(h, start, stops);
    case _ =>
  }

  lemma SwitchHalting(h: Hardware, start: bool, stops: bool)
    requires Halting(h)
    ensures Halting(h.Switch(start, stops).0) && h.Switch(start, stops).0.stop == h.stop
  {
  }

  lemma HaltingWrite(h: Hardware)
    requires Halting(h) && !h.flags.skipped
    ensures var h' := h.Write();
            if h.stop.Done() then
              !h'.flags.active && h'.flags.stopComplete && !h.WriteSucceeds()
              && LastFrame(h'.bus.events, Command(DISABLE_VOLTAGE, CSP_MODE, h.stop.target))
            else Halting(h') && h'.stop == StopNext(h.stop) && h.WriteSucceeds()
  {
  }

  predicate LastFrame(events: seq<Event>, command: Command) {
    if events == [] then false
    else if events[|events| - 1].Sent? then events[|events| - 1] == Sent(Stop, command)
    else LastFrame(events[..|events| - 1], command)
  }

  /** The end of a stop: the last frame disabled the voltage where the stop began. */
  ghost predicate Ended(h: Hardware, target: Counts) {
    && !h.flags.active
    && h.flags.stopComplete
    && LastFrame(h.bus.events, Command(DISABLE_VOLTAGE, CSP_MODE, target))
  }

  lemma HoldKeepsFrame(h: Hardware, command: Command)
    requires LastFrame(h.bus.events, command)
    ensures LastFrame(h.Hold().bus.events, command)
  {
  }

  lemma EndedKept(h: Hardware, now: int, i: Input, target: Counts)
    requires Ended(h, target) && Cyclic(i)
    ensures Ended(Respond(h, now, i), target)
  {
    HoldKeepsFrame(h, Command(DISABLE_VOLTAGE, CSP_MODE, target));
    assert h.Relinquish() == h.Claimed(false).Hold();
  }

  /** The frames that a stop at this position still has to send, the last one
      included: none once it has ended, and -1 where there is no such stop. */
  ghost function FramesLeft(h: Hardware, target: Counts): int {
    if Halting(h) && h.stop.target == target then 1 + (if h.stop.Done() then 0 else STOP_CYCLES - h.stop.cycle)
    else if Ended(h, target) then 0
    else -1
  }

  /** The write reaches the bus. */
  predicate Reaches(h: Hardware, i: Input) {
    i.Writing? && h.flags.active && h.configured && !h.flags.skipped
  }

  lemma FramesLeftStep(h: Hardware, now: int, i: Input, target: Counts)
    requires Cyclic(i) && FramesLeft(h, target) >= 0
    ensures FramesLeft(Respond(h, now, i), target) == FramesLeft(h, target) - (if Reaches(h, i) then 1 else 0) >= 0
  {
    if !Halting(h) {
      EndedKept(h, now, i, target);
    } else if i.Writing? && !h.flags.skipped {
      HaltingWrite(h);
    } else {
      HaltingKept(h, now, i);
    }
  }

  /** Bounded stop: from a fault on, whatever the feedback, the clock, the commands
      and the claims, every write that reaches the bus sends one frame of what is
      left of the sequence, at most 121, and with the last of them, which disables
      the voltage, the component has failed. */
  lemma {:induction false} StopIsBounded(s: System, inputs: seq<Input>)
    requires Halting(s.hardware)
    requires forall k :: 0 <= k < |inputs| ==> Cyclic(inputs[k])
    ensures var target := s.hardware.stop.target;
            && 1 <= FramesLeft(s.hardware, target) <= 121
            && FramesLeft(RespondAll(s, inputs).hardware, target) == FramesLeft(s.hardware, target) - Writes(s, inputs)
            && Writes(s, inputs) <= FramesLeft(s.hardware, target)
  {
    if inputs != [] {
      var front, i := inputs[..|inputs| - 1], inputs[|inputs| - 1];
      StopIsBounded(s, front);
      FramesLeftStep(RespondAll(s, front).hardware, Now(RespondAll(s, front), i), i, s.hardware.stop.target);
    }
  }

  /** What no frames left means, and what a frame left means. */
  lemma FramesLeftMeans(h: Hardware, target: Counts)
    ensures FramesLeft(h, target) == 0 <==> Ended(h, target)
    ensures FramesLeft(h, target) > 0 <==> h.flags.active && h.configured && h.flags.fault && h.stop.target == target
  {
  }

  /** A drive that was not enabled when the fault came is never enabled by the stop,
      which is then twenty frames shorter. */
  lemma StopStarts(h: Hardware, reason: Reason)
    requires h.flags.active && h.configured && !h.flags.fault
    ensures var h' := h.Raise(reason);
            && Halting(h')
            && h'.stop.target == h.snapshot.motor.actualPosition == h'.previous
            && FramesLeft(h', h'.stop.target) == if EnabledCsp(h.snapshot.motor) then 121 else 101
  {
  }

  // ----- when it faults, and when it does not -----

  /** What a running component must find wrong with an exchange. */
  predicate Faulty(h: Hardware, now: int, period: int, s: BusState) {
    var received := s.(received := true);
    var interval := if h.times.lastRead != 0 then now - h.times.lastRead else 0;
    || !IsReady(received)
    || !Accepted(h.session, s.motor.actualPosition, now, MAXIMUM_STEP)
    || h.flags.readPending
    || interval > CYCLE_LIMIT_NS
    || (interval != 0 && (period <= 0 || period > CYCLE_LIMIT_NS))
  }

  lemma ChecksFault(h: Hardware, period: int)
    requires h.snapshot.received && h.flags.active && !h.flags.starting
    ensures h.RunningChecks(period).flags.fault <==>
              || h.flags.fault || !IsReady(h.snapshot) || h.flags.readPending
              || h.times.interval > CYCLE_LIMIT_NS
              || (h.times.interval != 0 && (period <= 0 || period > CYCLE_LIMIT_NS))
  {
    var h1 := h.RaiseIf(h.BusReason() != NoReason, h.BusReason());
    var h2 := h1.RaiseIf(h.flags.readPending, Sequencing);
    var h3 := h2.RaiseIf(h.times.interval > CYCLE_LIMIT_NS, MonotonicGap);
    RaiseIfKeeps(h, h.BusReason() != NoReason, h.BusReason());
    RaiseIfKeeps(h1, h.flags.readPending, Sequencing);
    RaiseIfKeeps(h2, h.times.interval > CYCLE_LIMIT_NS, MonotonicGap);
    RaiseIfKeeps(h3, h.times.interval != 0 && (period <= 0 || period > CYCLE_LIMIT_NS), CyclePeriod);
    assert h.BusReason() == NoReason <==> IsReady(h.snapshot);
  }

  /** A running component faults on a read exactly when the read comes too soon or
      something is wrong with the exchange. */
  lemma ReadFaultsExactly(h: Hardware, now: int, period: int, s: BusState)
    requires h.flags.active && h.configured && !h.flags.starting && !h.flags.fault
    ensures h.Read(now, period, s).flags.fault <==>
              if h.times.lastExchange != 0 && now - h.times.lastExchange < EXCHANGE_GAP_NS then true
              else Faulty(h, now, period, s)
  {
    var h0 := h.Timed(now, false).Exchange(now, s);
    ExchangeHeld(h, now, s);
    var h1 := if IsReady(h0.snapshot) then h0.Observe(now) else h0;
    ObserveFaults(h0, now);
    ChecksFault(h1, period);
    RaiseIfKeeps(h1, false, NoReason);
  }

  lemma ExchangeHeld(h: Hardware, now: int, s: BusState)
    ensures var h' := h.Timed(now, false).Exchange(now, s);
            && h'.snapshot == s.(received := true) && h'.session == h.session
            && h'.flags == h.flags.(skipped := false)
            && h'.times.interval == (if h.times.lastRead != 0 then now - h.times.lastRead else 0)
  {
  }

  lemma ObserveFaults(h: Hardware, now: int)
    requires !h.flags.fault
    ensures var h' := h.Observe(now);
            && h'.flags == h.flags.(fault := h'.flags.fault, claimed := h'.flags.claimed)
            && (h'.flags.fault <==> !Accepted(h.session, h.snapshot.motor.actualPosition, now, MAXIMUM_STEP))
            && h'.snapshot == h.snapshot && h'.times == h.times
  {
  }

  /** The step a running component is asked for, if its request can be converted. */
  function Asked(h: Hardware): Conversion {
    if h.flags.claimed then h.calibration.ToCounts(h.command) else Converted(h.previous)
  }

  /** And on a write exactly when no read preceded it or the step asked for cannot
      be converted or is not safe; every other request is sent as it is. */
  lemma WriteFaultsExactly(h: Hardware)
    requires h.flags.active && h.configured && !h.flags.skipped && !h.flags.starting && !h.flags.fault
    ensures var good := h.flags.readPending && Asked(h).Converted?
                        && SafeStep(Asked(h).counts, h.previous, h.snapshot.motor);
            && (h.Write().flags.fault <==> !good)
            && (good ==>
                  && h.Write().previous == Asked(h).counts
                  && h.Write().bus.events == h.bus.events +
                       [Sent(Motion(h.flags.claimed, h.command, h.calibration),
                             Command(ENABLE_OPERATION, CSP_MODE, Asked(h).counts))])
  {
    if Asked(h).Converted? {
      ValidateExact(Asked(h).counts, h.previous, h.snapshot.motor);
    }
  }
}
