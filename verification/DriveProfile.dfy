/** The drive profile as the stage uses it: statusword decoding, the enabling
    steps, readiness of the bus and the sequence that stops the drive.  States,
    statusword patterns and control commands are those of CiA DSP 402 V2.0,
    section 10. */
module DriveProfile {
  type Counts = x: int | -0x8000_0000 <= x < 0x8000_0000

  const CSP_MODE: int := 8
  const DISABLE_VOLTAGE: int := 0x0000
  const SHUTDOWN: int := 0x0006
  const SWITCH_ON: int := 0x0007
  const ENABLE_OPERATION: int := 0x000F
  const FAULT_RESET: int := 0x0080

  datatype State =
    | NotReadyToSwitchOn
    | SwitchOnDisabled
    | ReadyToSwitchOn
    | SwitchedOn
    | OperationEnabled
    | QuickStopActive
    | FaultReactionActive
    | Fault
    | Unknown

  /** The six bits of a statusword that the masks 0x004F and 0x006F keep: nibble
      is bits 0 to 3; no decision looks at any other bit. */
  datatype Status = Status(nibble: nat, bit5: bool, bit6: bool)

  datatype Motor = Motor(
    statusword: Status,
    modeDisplay: int,
    actualPosition: Counts,
    actualVelocity: int,
    negativeLimit: bool,
    positiveLimit: bool)

  datatype Command = Command(controlword: int, mode: int, target: Counts)

  function StatusOf(word: bv16): Status {
    Status((word & 0x000F) as nat, word & 0x0020 != 0, word & 0x0040 != 0)
  }

  /** The masked comparisons, in the order the source makes them. */
  function DecodeWord(word: bv16): State {
    if word & 0x004F == 0x0008 then Fault
    else if word & 0x004F == 0x000F then FaultReactionActive
    else if word & 0x006F == 0x0007 then QuickStopActive
    else if word & 0x006F == 0x0027 then OperationEnabled
    else if word & 0x006F == 0x0023 then SwitchedOn
    else if word & 0x006F == 0x0021 then ReadyToSwitchOn
    else if word & 0x004F == 0x0040 then SwitchOnDisabled
    else if word & 0x004F == 0x0000 then NotReadyToSwitchOn
    else Unknown
  }

  /** The statusword patterns of the profile. */
  function Decode(s: Status): State {
    if s.bit6 then (if s.nibble == 0 then SwitchOnDisabled else Unknown)
    else if s.nibble == 0 then NotReadyToSwitchOn
    else if s.nibble == 8 then Fault
    else if s.nibble == 15 then FaultReactionActive
    else if s.nibble == 7 then (if s.bit5 then OperationEnabled else QuickStopActive)
    else if s.bit5 && s.nibble == 3 then SwitchedOn
    else if s.bit5 && s.nibble == 1 then ReadyToSwitchOn
    else Unknown
  }

  predicate EnabledCsp(m: Motor) {
    Decode(m.statusword) == OperationEnabled && m.modeDisplay == CSP_MODE
  }

  /** The masks decode every statusword to the state whose pattern it has, whatever
      the order of the tests, and the quick test for Operation Enabled agrees. */
  lemma MasksDecode(word: bv16)
    ensures DecodeWord(word) == Decode(StatusOf(word))
    ensures word & 0x006F == 0x0027 <==> Decode(StatusOf(word)) == OperationEnabled
  {
    var low := word & 0x000F;
    NibbleIs(low);
    assert word & 0x004F == low | (word & 0x0040);
    assert word & 0x006F == low | (word & 0x0020) | (word & 0x0040);
  }

  lemma NibbleIs(low: bv16)
    requires low <= 0x000F
    ensures low == 0 <==> low as nat == 0
    ensures low == 1 <==> low as nat == 1
    ensures low == 3 <==> low as nat == 3
    ensures low == 7 <==> low as nat == 7
    ensures low == 8 <==> low as nat == 8
    ensures low == 15 <==> low as nat == 15
  {
  }

  /** The controlword for the next enabling step, and whether it is the last. */
  function ReachOp(sw: Status): (int, bool) {
    match Decode(sw)
    case Fault => (FAULT_RESET, false)
    case SwitchOnDisabled => (SHUTDOWN, false)
    case ReadyToSwitchOn => (SWITCH_ON, false)
    case SwitchedOn => (ENABLE_OPERATION, false)
    case OperationEnabled => (ENABLE_OPERATION, true)
    case QuickStopActive => (ENABLE_OPERATION, false)
    case _ => (SHUTDOWN, false)
  }

  function UpdateEnable(m: Motor, command: Command): (Command, bool) {
    var (word, enabled) := ReachOp(m.statusword);
    var target := if !enabled || m.modeDisplay != CSP_MODE then m.actualPosition else command.target;
    (Command(word, CSP_MODE, target), enabled && m.modeDisplay == CSP_MODE)
  }

  /** While a drive is being enabled it is asked to stay where it is, in CSP; a reset is
      asked of a fault alone, an operation only of a drive switched on, and anything that
      has to settle first is only asked to be ready. */
  lemma EnablingHolds(m: Motor, command: Command)
    ensures var (c, done) := UpdateEnable(m, command);
            && (done <==> EnabledCsp(m))
            && c.mode == CSP_MODE
            && c.target == (if EnabledCsp(m) then command.target else m.actualPosition)
            && (c.controlword == FAULT_RESET <==> Decode(m.statusword) == Fault)
            && (c.controlword == ENABLE_OPERATION <==>
                  Decode(m.statusword) in {SwitchedOn, OperationEnabled, QuickStopActive})
            && (c.controlword == SWITCH_ON <==> Decode(m.statusword) == ReadyToSwitchOn)
            && (Decode(m.statusword) in {NotReadyToSwitchOn, FaultReactionActive, Unknown} ==>
                  c.controlword == SHUTDOWN)
  {
  }

  // ----- the drive's side -----

  /** What a drive makes of a controlword: the transitions of the profile that
      these five controlwords can ask for. */
  function React(state: State, word: int): State {
    if state == Fault then (if word == FAULT_RESET then SwitchOnDisabled else Fault)
    else if state in {NotReadyToSwitchOn, FaultReactionActive, Unknown} then state
    else if word == DISABLE_VOLTAGE then SwitchOnDisabled
    else if word == SHUTDOWN then (if state == QuickStopActive then state else ReadyToSwitchOn)
    else if word == SWITCH_ON then
      (if state == ReadyToSwitchOn || state == OperationEnabled then SwitchedOn else state)
    else if word == ENABLE_OPERATION then
      (if state == SwitchedOn || state == QuickStopActive then OperationEnabled else state)
    else state
  }

  /** Exchanges still needed before the drive is enabled. */
  function Rank(state: State): nat {
    match state
    case Fault => 4
    case SwitchOnDisabled => 3
    case ReadyToSwitchOn => 2
    case SwitchedOn => 1
    case QuickStopActive => 1
    case _ => 0
  }

  predicate Settled(state: State) {
    state !in {NotReadyToSwitchOn, FaultReactionActive, Unknown}
  }

  /** A drive that answers every controlword as the profile says. */
  ghost predicate Obeys(words: seq<Status>) {
    forall i :: 0 <= i < |words| - 1 ==> Decode(words[i + 1]) == React(Decode(words[i]), ReachOp(words[i]).0)
  }

  /** Such a drive is in Operation Enabled after at most four exchanges and stays
      there; every step asks for exactly the next state. */
  lemma {:induction false} EnablingReaches(words: seq<Status>, n: nat)
    requires Obeys(words) && n < |words| && Settled(Decode(words[0]))
    ensures Settled(Decode(words[n]))
    ensures Rank(Decode(words[n])) == if n < Rank(Decode(words[0])) then Rank(Decode(words[0])) - n else 0
    ensures n >= Rank(Decode(words[0])) ==> Decode(words[n]) == OperationEnabled && ReachOp(words[n]).1
  {
    if n > 0 {
      EnablingReaches(words, n - 1);
      assert Decode(words[n - 1 + 1]) == React(Decode(words[n - 1]), ReachOp(words[n - 1]).0);
    }
  }

  // ----- the stop sequence -----

  const STOP_CYCLES: nat := 120

  datatype Stopping = Stopping(cycle: nat, target: Counts)
  {
    predicate Done() {
      cycle >= STOP_CYCLES
    }
  }

  const NOT_STOPPING := Stopping(STOP_CYCLES, 0)

  /** A drive that is not enabled is never enabled merely to stop it. */
  function StopFrom(m: Motor): Stopping {
    Stopping(if EnabledCsp(m) then 0 else 20, m.actualPosition)
  }

  function StopWord(cycle: nat): int {
    if cycle < 20 then ENABLE_OPERATION else if cycle < 70 then SHUTDOWN else DISABLE_VOLTAGE
  }

  function StopCommand(s: Stopping): Command {
    Command(StopWord(s.cycle), CSP_MODE, s.target)
  }

  function StopNext(s: Stopping): Stopping {
    if s.Done() then s else s.(cycle := s.cycle + 1)
  }

  class StopSequence {
    var cycle: nat
    var target: Counts

    function View(): Stopping
      reads this
    {
      Stopping(cycle, target)
    }

    constructor ()
      ensures View() == NOT_STOPPING
    {
      cycle, target := STOP_CYCLES, 0;
    }

    method Reset()
      modifies this
      ensures View() == NOT_STOPPING
    {
      cycle, target := STOP_CYCLES, 0;
    }

    method Start(motor: Motor)
      modifies this
      ensures View() == StopFrom(motor)
    {
      target := motor.actualPosition;
      cycle := if EnabledCsp(motor) then 0 else 20;
    }

    method Next() returns (command: Command)
      modifies this
      ensures command == StopCommand(old(View()))
      ensures View() == StopNext(old(View()))
    {
      var word := if cycle < 20 then ENABLE_OPERATION else if cycle < 70 then SHUTDOWN else DISABLE_VOLTAGE;
      command := Command(word, CSP_MODE, target);
      if cycle < STOP_CYCLES {
        cycle := cycle + 1;
      }
    }
  }

  /** A word of the sequence as it is sent: Enable Operation only to a drive whose
      latest feedback is enabled. */
  function Guarded(word: int, m: Motor): int {
    if word == ENABLE_OPERATION && !EnabledCsp(m) then SHUTDOWN else word
  }

  /** The state of a drive that has answered the words sent from one cycle on, to
      the last one sent after the sequence is done. */
  function Stopped(state: State, cycle: nat, feedback: nat -> Motor): State
    decreases STOP_CYCLES - cycle
  {
    var after := React(state, Guarded(StopWord(cycle), feedback(cycle)));
    if cycle >= STOP_CYCLES then after else Stopped(after, cycle + 1, feedback)
  }

  /** Whatever the feedback on the way, a drive that is settled and not in fault
      ends with its voltage disabled. */
  lemma {:induction false} StoppingDisables(state: State, cycle: nat, feedback: nat -> Motor)
    requires Settled(state) && state != Fault
    ensures Stopped(state, cycle, feedback) == SwitchOnDisabled
    decreases STOP_CYCLES - cycle
  {
    if cycle < STOP_CYCLES {
      StoppingDisables(React(state, Guarded(StopWord(cycle), feedback(cycle))), cycle + 1, feedback);
    }
  }

  /** The words sent from one cycle to the end, the last frame included. */
  function Words(cycle: nat): seq<int>
    decreases STOP_CYCLES - cycle
  {
    [StopWord(cycle)] + (if cycle >= STOP_CYCLES then [] else Words(cycle + 1))
  }

  function Repeated(word: int, n: nat): seq<int> {
    seq(n, _ => word)
  }

  /** Twenty frames hold an enabled drive, fifty shut it down, the rest disable the
      voltage. */
  lemma {:induction false} StopSchedule(cycle: nat)
    requires cycle <= STOP_CYCLES
    ensures Words(cycle) ==
            Repeated(ENABLE_OPERATION, if cycle < 20 then 20 - cycle else 0) +
            Repeated(SHUTDOWN, if cycle < 20 then 50 else if cycle < 70 then 70 - cycle else 0) +
            Repeated(DISABLE_VOLTAGE, if cycle < 70 then 51 else 121 - cycle)
    decreases STOP_CYCLES - cycle
  {
    if cycle < STOP_CYCLES {
      StopSchedule(cycle + 1);
    }
  }

  // ----- the bus -----

  datatype Slave = Slave(online: bool, operational: bool)
  {
    predicate Up() {
      online && operational
    }
  }

  datatype Channel = Channel(raw: int, samples: nat, error: bool, txPdoState: bool)
  {
    predicate Valid() {
      samples > 0 && !txPdoState && !error
    }
  }

  /** One cyclic exchange's worth of feedback; received is false until the first. */
  datatype BusState = BusState(
    received: bool,
    linkUp: bool,
    slaves: nat,
    complete: bool,
    coupler: Slave,
    load: Slave,
    drive: Slave,
    motor: Motor,
    x: Channel,
    y: Channel,
    z: Channel)

  predicate ChannelsValid(s: BusState) {
    s.x.Valid() && s.y.Valid() && s.z.Valid()
  }

  predicate IsReady(s: BusState) {
    && s.received
    && s.linkUp
    && s.slaves == 3
    && s.complete
    && s.coupler.Up()
    && s.load.Up()
    && s.drive.Up()
    && EnabledCsp(s.motor)
    && ChannelsValid(s)
  }

  const NO_SLAVE := Slave(false, false)
  const NO_CHANNEL := Channel(0, 0, false, false)
  const NO_MOTOR := Motor(Status(0, false, false), 0, 0, 0, false, false)
  const NO_BUS :=
    BusState(false, false, 0, false, NO_SLAVE, NO_SLAVE, NO_SLAVE, NO_MOTOR, NO_CHANNEL, NO_CHANNEL, NO_CHANNEL)
}
