/** The component against a drive that answers as its profile says: starting up, it
    enables the drive, takes its reference from it and can be claimed within a fixed
    number of cycles; and once it has stopped, the drive's voltage is disabled. */
module HardwareAndDrive {
  import opened ControlTypes
  import opened DriveProfile
  import opened CountConversion
  import opened HardwareCycle
  import opened HardwareSafety
  import HardwareRuns

  /** One cycle: a read that takes this long after the last one, and a write. */
  datatype Turn = Turn(elapsed: nat, period: int, feedback: BusState)

  function Calls(turns: seq<Turn>): seq<Input> {
    if turns == [] then [] else
    var t := turns[|turns| - 1];
    Calls(turns[..|turns| - 1]) + [Reads(t)] + [Writing]
  }

  function Reads(t: Turn): Input {
    Reading(t.elapsed, t.period, t.feedback)
  }

  function TurnOnce(s: System, t: Turn): System {
    Step(Step(s, Reads(t)), Writing)
  }

  function After(s: System, turns: seq<Turn>): System {
    if turns == [] then s else TurnOnce(After(s, turns[..|turns| - 1]), turns[|turns| - 1])
  }

  lemma RunMore(clock: int, timeoutNs: int, inputs: seq<Input>, i: Input)
    ensures Run(clock, timeoutNs, inputs + [i]) == Step(Run(clock, timeoutNs, inputs), i)
  {
    assert (inputs + [i])[..|inputs|] == inputs;
  }

  lemma OneTurnRuns(clock: int, timeoutNs: int, inputs: seq<Input>, t: Turn, s: System)
    requires Run(clock, timeoutNs, inputs) == s
    ensures Run(clock, timeoutNs, inputs + [Reads(t)] + [Writing]) == TurnOnce(s, t)
  {
    RunMore(clock, timeoutNs, inputs, Reads(t));
    RunMore(clock, timeoutNs, inputs + [Reads(t)], Writing);
  }

  lemma {:induction false} CallsMore(inputs: seq<Input>, turns: seq<Turn>)
    requires turns != []
    ensures var n := |turns| - 1;
            inputs + Calls(turns) == inputs + Calls(turns[..n]) + [Reads(turns[n])] + [Writing]
  {
  }

  /** The turns are a part of a run. */
  lemma {:induction false} TurnsRun(clock: int, timeoutNs: int, inputs: seq<Input>, turns: seq<Turn>)
    returns (s: System)
    ensures s == After(Run(clock, timeoutNs, inputs), turns)
    ensures s == Run(clock, timeoutNs, inputs + Calls(turns))
  {
    if turns == [] {
      assert inputs + Calls(turns) == inputs;
      s := Run(clock, timeoutNs, inputs);
    } else {
      var n := |turns| - 1;
      var before := TurnsRun(clock, timeoutNs, inputs, turns[..n]);
      OneTurnRuns(clock, timeoutNs, inputs + Calls(turns[..n]), turns[n], before);
      CallsMore(inputs, turns);
      s := TurnOnce(before, turns[n]);
    }
  }

  /** The word of the last frame sent. */
  function LastWord(events: seq<Event>): int {
    if events == [] then DISABLE_VOLTAGE
    else if events[|events| - 1].Sent? then events[|events| - 1].command.controlword
    else LastWord(events[..|events| - 1])
  }

  // ----- the other end of the bus -----

  /** A cycle in time, with a healthy bus and a drive at rest at this count. */
  predicate Nominal(t: Turn, at: Counts) {
    && EXCHANGE_GAP_NS <= t.elapsed <= CYCLE_LIMIT_NS
    && 0 < t.period <= CYCLE_LIMIT_NS
    && Healthy(t.feedback)
    && t.feedback.motor.modeDisplay == CSP_MODE
    && t.feedback.motor.actualPosition == at
    && t.feedback.motor.actualVelocity == 0
  }

  predicate Healthy(s: BusState) {
    s.linkUp && s.slaves == 3 && s.complete && s.coupler.Up() && s.load.Up() && s.drive.Up() && ChannelsValid(s)
  }

  function DriveState(t: Turn): State {
    Decode(t.feedback.motor.statusword)
  }

  /** The drive shows in every turn what it made of the word sent in the last one. */
  ghost predicate Answers(s: System, turns: seq<Turn>) {
    forall i :: 0 <= i < |turns| - 1 ==> AnswersAt(s, turns, i)
  }

  ghost predicate AnswersAt(s: System, turns: seq<Turn>, i: int)
    requires 0 <= i < |turns| - 1
  {
    DriveState(turns[i + 1]) == React(DriveState(turns[i]), LastWord(After(s, turns[..i + 1]).hardware.bus.events))
  }

  // ----- between turns -----

  /** A component on its way, n turns after activation, that has no reason to fault. */
  ghost predicate OnTheWay(s: System, at: Counts, n: nat) {
    var h := s.hardware;
    && s.clock > 0 && h.configured
    && h.flags.active && !h.flags.claimed && !h.flags.fault && !h.flags.readPending
    && (h.times.lastRead == 0 || h.times.lastRead == s.clock)
    && (h.times.lastExchange == 0 || h.times.lastExchange == s.clock)
    && Fits(h.session, at, s.clock)
    && (h.flags.starting ==> InTime(h, s.clock, n))
    && (!h.flags.starting ==> h.previous == at)
  }

  /** The session would accept this count. */
  predicate Fits(session: Session, at: Counts, now: int) {
    session.haveRead ==> session.lastNs <= now && CountAbs(at - session.previous) <= MAXIMUM_STEP
  }

  predicate InTime(h: Hardware, now: int, n: nat) {
    && now - h.times.startupBegin <= n * CYCLE_LIMIT_NS
    && (h.flags.firstWrite ==> now <= h.times.activationEnd)
  }

  lemma FitsAccepted(session: Session, at: Counts, before: int, now: int)
    requires Fits(session, at, before) && now > before
    ensures Accepted(session, at, now, MAXIMUM_STEP)
  {
  }

  /** The session after a read of such a turn. */
  function Seen(h: Hardware, t: Turn, now: int): Session {
    if IsReady(t.feedback.(received := true)) then
      Observed(h.session, t.feedback.motor.actualPosition, now, true, h.calibration.metresPerCount, MAXIMUM_STEP)
    else h.session
  }

  /** The component right after the exchange of such a turn, or after its
      observation, with nothing raised. */
  ghost predicate Exchanged(h: Hardware, t: Turn, now: int, e: Hardware) {
    && e.snapshot == t.feedback.(received := true)
    && e.flags == h.flags.(skipped := false)
    && e.times == h.times.(interval := e.times.interval, lastRead := now, lastExchange := now)
    && 0 <= e.times.interval <= CYCLE_LIMIT_NS
    && e.previous == h.previous && e.timeoutNs == h.timeoutNs && e.configured
  }

  /** The session and the reference it supplies. */
  ghost predicate Sees(h: Hardware, t: Turn, now: int, e: Hardware) {
    && e.session == Seen(h, t, now)
    && e.calibration == (if IsReady(e.snapshot) then Referred(h.calibration, e.session) else h.calibration)
  }

  lemma ExchangeTurn(s: System, t: Turn, at: Counts, n: nat) returns (e: Hardware)
    requires OnTheWay(s, at, n) && Nominal(t, at)
    ensures var h, now := s.hardware, Now(s, Reads(t));
            && h.Read(now, t.period, t.feedback) == e.Digest(now, t.period)
            && Exchanged(h, t, now, e) && e.session == h.session && e.calibration == h.calibration
  {
    e := s.hardware.Timed(Now(s, Reads(t)), false).Exchange(Now(s, Reads(t)), t.feedback);
  }

  /** Nothing in the turn is a reason to fault. */
  ghost predicate Timely(h: Hardware, t: Turn, now: int) {
    && h.flags.active && !h.flags.fault && !h.flags.readPending
    && Accepted(h.session, t.feedback.motor.actualPosition, now, MAXIMUM_STEP)
    && 0 < t.period <= CYCLE_LIMIT_NS
    && if h.flags.starting then
         && now - h.times.startupBegin <= h.timeoutNs
         && (h.flags.firstWrite ==> now - h.times.activationEnd <= CYCLE_LIMIT_NS)
       else DriveState(t) == OperationEnabled
  }

  lemma TurnTimely(s: System, t: Turn, at: Counts, n: nat)
    requires OnTheWay(s, at, n) && Nominal(t, at)
    requires s.hardware.flags.starting ==> (n + 1) * CYCLE_LIMIT_NS <= s.hardware.timeoutNs
    requires !s.hardware.flags.starting ==> DriveState(t) == OperationEnabled
    ensures Timely(s.hardware, t, Now(s, Reads(t)))
  {
    FitsAccepted(s.hardware.session, at, s.clock, Now(s, Reads(t)));
  }

  lemma ObserveTurn(h: Hardware, t: Turn, now: int, e: Hardware)
    requires Exchanged(h, t, now, e) && e.session == h.session && e.calibration == h.calibration
    requires Timely(h, t, now) && t.feedback.motor.actualVelocity == 0
    ensures var o := if IsReady(e.snapshot) && !e.flags.fault then e.Observe(now) else e;
            Exchanged(h, t, now, o) && Sees(h, t, now, o)
  {
  }

  lemma ChecksTurn(h: Hardware, t: Turn, now: int, e: Hardware)
    requires Exchanged(h, t, now, e) && Timely(h, t, now)
    requires Healthy(t.feedback) && t.feedback.motor.modeDisplay == CSP_MODE
    ensures e.StartupChecks(now).RunningChecks(t.period) == e
  {
    assert e.StartupReason(now) == NoReason;
    assert h.flags.starting || e.BusReason() == NoReason;
  }

  /** What a read of such a turn leaves. */
  ghost predicate ReadTo(h: Hardware, t: Turn, now: int, r: Hardware) {
    && r.flags == h.flags.(readPending := true, skipped := false)
    && Exchanged(h.(flags := r.flags), t, now, r) && Sees(h, t, now, r)
  }

  lemma ExportTurn(h: Hardware, t: Turn, now: int, e: Hardware)
    requires Exchanged(h, t, now, e) && Sees(h, t, now, e)
    ensures ReadTo(h, t, now, e.Pending(true).Export())
  {
  }

  lemma ReadTurn(s: System, t: Turn, at: Counts, n: nat) returns (r: Hardware)
    requires OnTheWay(s, at, n) && Nominal(t, at) && Timely(s.hardware, t, Now(s, Reads(t)))
    ensures r == s.hardware.Read(Now(s, Reads(t)), t.period, t.feedback)
    ensures ReadTo(s.hardware, t, Now(s, Reads(t)), r)
  {
    var e := ExchangeTurn(s, t, at, n);
    r := DigestTurn(s.hardware, t, Now(s, Reads(t)), e);
  }

  lemma DigestTurn(h: Hardware, t: Turn, now: int, e: Hardware) returns (r: Hardware)
    requires Exchanged(h, t, now, e) && e.session == h.session && e.calibration == h.calibration
    requires Timely(h, t, now) && t.feedback.motor.actualVelocity == 0
    requires Healthy(t.feedback) && t.feedback.motor.modeDisplay == CSP_MODE
    ensures r == e.Digest(now, t.period) && ReadTo(h, t, now, r)
  {
    var o := if IsReady(e.snapshot) && !e.flags.fault then e.Observe(now) else e;
    ObserveTurn(h, t, now, e);
    ChecksTurn(h, t, now, o);
    ExportTurn(h, t, now, o);
    r := o.Pending(true).Export();
  }

  /** What the write that follows leaves: one frame more, with the session, the
      reference and the feedback as they were read. */
  ghost predicate WrittenTo(r: Hardware, at: Counts, word: int, starting: bool, w: Hardware) {
    && w.flags == r.flags.(readPending := false, firstWrite := false, starting := starting)
    && w.session == r.session && w.calibration == r.calibration && w.times == r.times
    && w.timeoutNs == r.timeoutNs && w.configured && w.previous == at
    && LastWord(w.bus.events) == word
  }

  predicate Complete(r: Hardware) {
    IsReady(r.snapshot) && r.session.referenceValid && r.calibration.referenceValid
  }

  predicate Writable(r: Hardware) {
    r.configured && r.flags.active && !r.flags.fault && r.flags.readPending && !r.flags.skipped && !r.flags.claimed
  }

  lemma StartupWrite(r: Hardware) returns (w: Hardware)
    requires Writable(r) && r.flags.starting
    ensures w == r.Write()
    ensures WrittenTo(r, r.snapshot.motor.actualPosition, ReachOp(r.snapshot.motor.statusword).0, !Complete(r), w)
  {
    w := r.Pending(false).WriteStartup().Written();
  }

  lemma MotionWrite(r: Hardware) returns (w: Hardware)
    requires Writable(r) && !r.flags.starting && r.previous == r.snapshot.motor.actualPosition
    ensures w == r.Write()
    ensures WrittenTo(r, r.previous, ENABLE_OPERATION, false, w)
  {
    ValidateExact(r.previous, r.previous, r.snapshot.motor);
    w := r.Pending(false)
          .Emit(Sent(Motion(false, r.command, r.calibration), Command(ENABLE_OPERATION, CSP_MODE, r.previous)))
          .Written();
  }

  // ----- turn by turn -----

  const STARTUP_NS: int := 6 * CYCLE_LIMIT_NS

  /** The session has read this count at rest. */
  predicate AtRest(session: Session, at: Counts) {
    session.haveRead && session.previous == at && session.previousStationary
  }

  /** How far n turns have come that found the drive this many exchanges from being
      enabled: then one more for the first count at rest, and one for the second. */
  ghost predicate Started(h: Hardware, at: Counts, n: nat, rank: nat) {
    && h.timeoutNs >= STARTUP_NS
    && (n > rank ==> AtRest(h.session, at))
    && (n > rank + 1 ==> !h.flags.starting)
  }

  /** What turn n shows of the drive. */
  ghost predicate Shows(t: Turn, n: nat, rank: nat) {
    Settled(DriveState(t)) && Rank(DriveState(t)) == if n < rank then rank - n else 0
  }

  /** The read of a turn sees the drive enabled or not, and its second count at rest
      supplies the reference. */
  lemma SeenReference(h: Hardware, t: Turn, at: Counts, now: int, n: nat, rank: nat)
    requires Nominal(t, at) && Shows(t, n, rank) && Started(h, at, n, rank)
    requires Fits(h.session, at, now - t.elapsed) && Referenced(h.session, h.calibration)
    ensures var seen := Seen(h, t, now);
            && (n >= rank <==> IsReady(t.feedback.(received := true)))
            && Fits(seen, at, now)
            && (n >= rank ==> AtRest(seen, at))
            && (n > rank ==> seen.referenceValid && Referred(h.calibration, seen).referenceValid)
  {
    FitsAccepted(h.session, at, now - t.elapsed, now);
  }

  lemma StepReads(s: System, t: Turn, r: Hardware)
    requires r == s.hardware.Read(Now(s, Reads(t)), t.period, t.feedback)
    ensures Step(s, Reads(t)) == System(Now(s, Reads(t)), r)
  {
  }

  lemma StepWrites(s: System, w: Hardware)
    requires w == s.hardware.Write()
    ensures Step(s, Writing) == System(s.clock, w)
  {
  }

  lemma TurnReads(s: System, t: Turn, at: Counts, n: nat, rank: nat) returns (r: Hardware)
    requires OnTheWay(s, at, n) && Started(s.hardware, at, n, rank) && rank <= 4
    requires Nominal(t, at)
    requires !s.hardware.flags.starting ==> DriveState(t) == OperationEnabled
    ensures Step(s, Reads(t)) == System(Now(s, Reads(t)), r)
    ensures ReadTo(s.hardware, t, Now(s, Reads(t)), r)
  {
    TurnTimely(s, t, at, n);
    r := ReadTurn(s, t, at, n);
    StepReads(s, t, r);
  }

  lemma TurnWrites(h: Hardware, t: Turn, at: Counts, now: int, r: Hardware) returns (w: Hardware)
    requires h.configured && h.flags.active && !h.flags.fault && !h.flags.claimed && !h.flags.readPending
    requires h.flags.starting || (h.previous == at && DriveState(t) == OperationEnabled)
    requires Nominal(t, at) && ReadTo(h, t, now, r)
    ensures Step(System(now, r), Writing) == System(now, w)
    ensures WrittenTo(r, at, ReachOp(t.feedback.motor.statusword).0, r.flags.starting && !Complete(r), w)
  {
    if r.flags.starting {
      w := StartupWrite(r);
    } else {
      w := MotionWrite(r);
    }
    StepWrites(System(now, r), w);
  }

  lemma StepInv(s: System, i: Input)
    requires Inv(s.hardware) && s.clock > 0
    ensures Inv(Step(s, i).hardware) && Step(s, i).clock > 0
  {
    RespondInv(s.hardware, Now(s, i), i);
  }

  lemma TurnInv(s: System, t: Turn)
    requires Inv(s.hardware) && s.clock > 0
    ensures Inv(TurnOnce(s, t).hardware)
  {
    StepInv(s, Reads(t));
    StepInv(Step(s, Reads(t)), Writing);
  }

  lemma TurnTakes(s: System, t: Turn, at: Counts, n: nat, rank: nat) returns (r: Hardware, w: Hardware)
    requires OnTheWay(s, at, n) && Started(s.hardware, at, n, rank) && rank <= 4
    requires Nominal(t, at)
    requires !s.hardware.flags.starting ==> DriveState(t) == OperationEnabled
    ensures TurnOnce(s, t) == System(Now(s, Reads(t)), w)
    ensures ReadTo(s.hardware, t, Now(s, Reads(t)), r)
    ensures WrittenTo(r, at, ReachOp(t.feedback.motor.statusword).0, r.flags.starting && !Complete(r), w)
  {
    r := TurnReads(s, t, at, n, rank);
    w := TurnWrites(s.hardware, t, at, Now(s, Reads(t)), r);
  }

  lemma TurnKeeps(s: System, t: Turn, at: Counts, n: nat, rank: nat)
    requires OnTheWay(s, at, n) && Inv(s.hardware) && Started(s.hardware, at, n, rank) && rank <= 4
    requires Nominal(t, at) && Shows(t, n, rank)
    requires !s.hardware.flags.starting ==> DriveState(t) == OperationEnabled
    ensures var s' := TurnOnce(s, t);
            && OnTheWay(s', at, n + 1) && Inv(s'.hardware) && Started(s'.hardware, at, n + 1, rank)
            && LastWord(s'.hardware.bus.events) == ReachOp(t.feedback.motor.statusword).0
            && (!s'.hardware.flags.starting ==> DriveState(t) == OperationEnabled)
  {
    TurnInv(s, t);
    var r, w := TurnTakes(s, t, at, n, rank);
    SeenReference(s.hardware, t, at, Now(s, Reads(t)), n, rank);
    KeptOnTheWay(s, t, at, n, rank, r, w);
  }

  lemma KeptOnTheWay(s: System, t: Turn, at: Counts, n: nat, rank: nat, r: Hardware, w: Hardware)
    requires OnTheWay(s, at, n) && Started(s.hardware, at, n, rank) && Nominal(t, at)
    requires !s.hardware.flags.starting ==> DriveState(t) == OperationEnabled
    requires ReadTo(s.hardware, t, Now(s, Reads(t)), r)
    requires WrittenTo(r, at, ReachOp(t.feedback.motor.statusword).0, r.flags.starting && !Complete(r), w)
    requires var seen := Seen(s.hardware, t, Now(s, Reads(t)));
             && (n >= rank <==> IsReady(t.feedback.(received := true)))
             && Fits(seen, at, Now(s, Reads(t)))
             && (n >= rank ==> AtRest(seen, at))
             && (n > rank ==> seen.referenceValid && Referred(s.hardware.calibration, seen).referenceValid)
    ensures OnTheWay(System(Now(s, Reads(t)), w), at, n + 1) && Started(w, at, n + 1, rank)
    ensures !w.flags.starting ==> DriveState(t) == OperationEnabled
  {
  }

  // ----- starting up -----

  /** What the activation leaves. */
  lemma ActivatedOnTheWay(s: System, elapsed: nat, ok: bool, at: Counts, rank: nat)
    requires Inv(s.hardware) && s.clock > 0 && (s.hardware.configured || ok)
    requires s.hardware.timeoutNs >= STARTUP_NS && Fits(s.hardware.session, at, s.clock + elapsed)
    ensures var s' := Step(s, Activating(elapsed, ok));
            && OnTheWay(s', at, 0) && Inv(s'.hardware) && Started(s'.hardware, at, 0, rank)
            && s'.hardware.flags.starting
  {
    StepInv(s, Activating(elapsed, ok));
  }

  /** What holds after n turns. */
  ghost predicate GoneOn(s: System, n: nat, at: Counts, rank: nat) {
    OnTheWay(s, at, n) && Started(s.hardware, at, n, rank)
  }

  ghost predicate Beginning(s: System, at: Counts, rank: nat) {
    GoneOn(s, 0, at, rank) && Inv(s.hardware) && s.hardware.flags.starting
  }

  lemma {:induction false} AfterInv(s: System, turns: seq<Turn>)
    requires Inv(s.hardware) && s.clock > 0
    ensures Inv(After(s, turns).hardware) && After(s, turns).clock > 0
  {
    if turns != [] {
      AfterInv(s, turns[..|turns| - 1]);
      TurnInv(After(s, turns[..|turns| - 1]), turns[|turns| - 1]);
    }
  }

  lemma GoOn(s: System, n: nat, t: Turn, at: Counts, rank: nat) returns (s': System)
    requires GoneOn(s, n, at, rank) && Inv(s.hardware) && Nominal(t, at) && rank <= 4
    requires Shows(t, n, rank) && (!s.hardware.flags.starting ==> DriveState(t) == OperationEnabled)
    ensures s' == TurnOnce(s, t) && GoneOn(s', n + 1, at, rank) && Went(s'.hardware, t, n, rank)
  {
    TurnKeeps(s, t, at, n, rank);
    s' := TurnOnce(s, t);
  }

  /** A drive that answers comes one exchange closer to being enabled in each turn and
      then stays enabled, and the component goes along with it. */
  lemma {:induction false} TurnsGo(s: System, turns: seq<Turn>, at: Counts, rank: nat) returns (s': System)
    requires Beginning(s, at, rank) && rank <= 4 && turns != []
    requires forall t :: t in turns ==> Nominal(t, at)
    requires Answers(s, turns)
    requires Settled(DriveState(turns[0])) && Rank(DriveState(turns[0])) == rank
    ensures s' == After(s, turns) && GoneOn(s', |turns|, at, rank)
    ensures Went(s'.hardware, turns[|turns| - 1], |turns| - 1, rank)
  {
    var n := |turns| - 1;
    var front, t, before := turns[..n], turns[n], s;
    assert t in turns;
    AfterMore(s, turns);
    if n > 0 {
      AnswersBefore(s, turns);
      before := TurnsGo(s, front, at, rank);
      AnswersLast(s, turns, before);
      NextShows(before.hardware, front[n - 1], t, n - 1, rank);
    }
    AfterInv(s, front);
    s' := GoOn(before, n, t, at, rank);
  }

  lemma {:induction false} AfterMore(s: System, turns: seq<Turn>)
    requires turns != []
    ensures After(s, turns) == TurnOnce(After(s, turns[..|turns| - 1]), turns[|turns| - 1])
    ensures |turns| == 1 ==> After(s, turns[..|turns| - 1]) == s
  {
  }

  lemma {:induction false} AnswersLast(s: System, turns: seq<Turn>, before: System)
    requires |turns| > 1 && Answers(s, turns) && before == After(s, turns[..|turns| - 1])
    ensures DriveState(turns[|turns| - 1]) ==
            React(DriveState(turns[|turns| - 2]), LastWord(before.hardware.bus.events))
  {
    assert AnswersAt(s, turns, |turns| - 2);
  }

  /** After turn n: the word sent was the one the drive's state asks for. */
  ghost predicate Went(h: Hardware, t: Turn, n: nat, rank: nat) {
    && Shows(t, n, rank)
    && LastWord(h.bus.events) == ReachOp(t.feedback.motor.statusword).0
    && (!h.flags.starting ==> DriveState(t) == OperationEnabled)
  }

  lemma NextShows(h: Hardware, t: Turn, t': Turn, n: nat, rank: nat)
    requires Went(h, t, n, rank) && DriveState(t') == React(DriveState(t), LastWord(h.bus.events))
    ensures Shows(t', n + 1, rank) && (!h.flags.starting ==> DriveState(t') == OperationEnabled)
  {
  }

  lemma {:induction false} AnswersBefore(s: System, turns: seq<Turn>)
    requires Answers(s, turns) && turns != []
    ensures Answers(s, turns[..|turns| - 1])
  {
    var front := turns[..|turns| - 1];
    forall i | 0 <= i < |front| - 1 ensures AnswersAt(s, front, i) {
      assert AnswersAt(s, turns, i);
      assert front[..i + 1] == turns[..i + 1];
    }
  }

  /** Startup: activated at a healthy bus with a settled drive at rest that answers
      every word as its profile says, the component can be claimed once the drive
      has had its exchanges and two more, at most six cycles, and from then on. */
  lemma {:induction false} StartsUp(s: System, elapsed: nat, ok: bool, turns: seq<Turn>, at: Counts)
    requires Inv(s.hardware) && s.clock > 0 && (s.hardware.configured || ok)
    requires s.hardware.timeoutNs >= STARTUP_NS && Fits(s.hardware.session, at, s.clock + elapsed)
    requires forall t :: t in turns ==> Nominal(t, at)
    requires Answers(Step(s, Activating(elapsed, ok)), turns)
    requires turns != [] && Settled(DriveState(turns[0]))
    ensures Rank(DriveState(turns[0])) + 2 <= 6
    ensures |turns| >= Rank(DriveState(turns[0])) + 2 ==>
              After(Step(s, Activating(elapsed, ok)), turns).hardware.CanClaim()
  {
    var rank := Rank(DriveState(turns[0]));
    ActivatedOnTheWay(s, elapsed, ok, at, rank);
    if |turns| >= rank + 2 {
      ClaimableAfter(Step(s, Activating(elapsed, ok)), turns, at, rank);
    }
  }

  lemma {:induction false} ClaimableAfter(s: System, turns: seq<Turn>, at: Counts, rank: nat)
    requires Beginning(s, at, rank)
    requires forall t :: t in turns ==> Nominal(t, at)
    requires Answers(s, turns) && rank <= 4 && |turns| >= rank + 2
    requires Settled(DriveState(turns[0])) && Rank(DriveState(turns[0])) == rank
    ensures After(s, turns).hardware.CanClaim()
  {
    var s' := TurnsGo(s, turns, at, rank);
    AfterInv(s, turns);
    Claimable(s', at, |turns|, rank);
  }

  lemma Claimable(s: System, at: Counts, n: nat, rank: nat)
    requires OnTheWay(s, at, n) && Inv(s.hardware) && Started(s.hardware, at, n, rank) && n > rank + 1
    ensures s.hardware.CanClaim()
  {
  }

  /** The same of a run, from any state another activation may find. */
  lemma {:induction false} RunStartsUp(clock: int, timeoutNs: int, inputs: seq<Input>, elapsed: nat, ok: bool,
      turns: seq<Turn>, at: Counts)
    requires clock > 0
    requires var s := Run(clock, timeoutNs, inputs);
             && (s.hardware.configured || ok) && s.hardware.timeoutNs >= STARTUP_NS
             && Fits(s.hardware.session, at, s.clock + elapsed)
             && Answers(Step(s, Activating(elapsed, ok)), turns)
    requires forall t :: t in turns ==> Nominal(t, at)
    requires |turns| >= 6 && Settled(DriveState(turns[0]))
    ensures Run(clock, timeoutNs, inputs + [Activating(elapsed, ok)] + Calls(turns)).hardware.CanClaim()
  {
    var s := Run(clock, timeoutNs, inputs);
    RunInv(clock, timeoutNs, inputs);
    StartsUp(s, elapsed, ok, turns, at);
    RunMore(clock, timeoutNs, inputs, Activating(elapsed, ok));
    var after := TurnsRun(clock, timeoutNs, inputs + [Activating(elapsed, ok)], turns);
  }

  // ----- stopped -----

  /** What a drive has made of every frame of a trace. */
  function DriveAfter(state: State, events: seq<Event>): State {
    if events == [] then state else
    var before, e := DriveAfter(state, events[..|events| - 1]), events[|events| - 1];
    if e.Sent? then React(before, e.command.controlword) else before
  }

  /** A drive that is not in a fault of its own stays out of it. */
  lemma {:induction false} StaysSettled(state: State, events: seq<Event>)
    requires Settled(state) && state != State.Fault
    ensures Settled(DriveAfter(state, events)) && DriveAfter(state, events) != State.Fault
  {
    if events != [] {
      StaysSettled(state, events[..|events| - 1]);
    }
  }

  /** When a stop has ended, every such drive has its voltage disabled, whatever it was
      sent before. */
  lemma StoppedDriveDisabled(h: Hardware, target: Counts, state: State)
    requires HardwareRuns.Ended(h, target) && Settled(state) && state != State.Fault
    ensures DriveAfter(state, h.bus.events) == SwitchOnDisabled
  {
    LastFrameDisables(state, h.bus.events, Command(DISABLE_VOLTAGE, CSP_MODE, target));
  }

  lemma {:induction false} LastFrameDisables(state: State, events: seq<Event>, command: Command)
    requires HardwareRuns.LastFrame(events, command) && command.controlword == DISABLE_VOLTAGE
    requires Settled(state) && state != State.Fault
    ensures DriveAfter(state, events) == SwitchOnDisabled
  {
    var front, e := events[..|events| - 1], events[|events| - 1];
    StaysSettled(state, front);
    if !e.Sent? {
      LastFrameDisables(state, front, command);
    }
  }
}
