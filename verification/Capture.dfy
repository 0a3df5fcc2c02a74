/** The capture object itself, one whole call at a time.  A call is the
    uninterrupted run of its thread's steps, and what it does to the caller is
    one operation on a bounded queue. */
module Capture {
  import opened ControlTypes
  import opened IntArithmetic
  import opened CaptureRing
  import opened Options

  /** The ring after a begin and a finish that nothing interrupts. */
  function Began(s: Ring, id: nat): Ring {
    s.(trial := id, sequence := 0, drops := 0, publishedDrops := 0, last := CaptureRecord(id, 0, EMPTY_SNAPSHOT),
       running := true, base := |s.accepted|)
  }

  function Finished(s: Ring, completed: bool): Ring {
    s.(terminal := Completion(s.last, s.drops, completed), running := false, terminalPending := true)
  }

  lemma BeganSteps(capacity: nat, s: Ring, id: nat)
    requires BetweenCalls(capacity, s) && !s.running && !s.terminalPending && id != 0
    ensures Began(s, id) == Step(capacity, Step(capacity, s, BeginLoadPending(id)), BeginStoreDrops)
  {
  }

  lemma FinishedSteps(capacity: nat, s: Ring, completed: bool)
    requires BetweenCalls(capacity, s) && s.running
    ensures Finished(s, completed)
         == Step(capacity, Step(capacity, s, FinishStoreTerminal(completed)), FinishStorePending)
  {
  }

  function Stamped(s: Ring, state: Snapshot): Ring {
    s.(sequence := s.sequence + 1, last := CaptureRecord(s.trial, s.sequence + 1, state))
  }

  /** The ring after an append that nothing interrupts. */
  function Appended(capacity: nat, s: Ring, state: Snapshot): Ring
    requires capacity >= 1 && |s.slots| == capacity
  {
    var s1 := Stamped(s, state);
    if (s.write - s.read) % WRAP == capacity then
      s1.(drops := s.drops + 1, publishedDrops := s.drops + 1)
    else
      s1.(slots := s.slots[s.write % capacity := s1.last], write := (s.write + 1) % WRAP,
          accepted := s.accepted + [s1.last])
  }

  /** The ring after a pop that nothing interrupts. */
  function Popped(capacity: nat, s: Ring): Ring
    requires capacity >= 1 && |s.slots| == capacity
  {
    if s.read == s.write then s
    else s.(read := (s.read + 1) % WRAP, popped := s.popped + [s.slots[s.read % capacity]])
  }

  ghost predicate BetweenCalls(capacity: nat, s: Ring) {
    Usable(capacity) && Inv(capacity, s) && s.producer == ProducerIdle && s.consumer == ConsumerIdle
  }

  /** It is the run of the producer's own steps. */
  lemma AppendedSteps(capacity: nat, s: Ring, state: Snapshot)
    requires BetweenCalls(capacity, s) && s.running
    ensures var s2 := Step(capacity, Step(capacity, s, AppendLoadWrite(state)), AppendLoadRead);
            Appended(capacity, s, state) ==
            (if s2.producer == AppendFull then Step(capacity, s2, AppendStoreDrops)
             else Step(capacity, Step(capacity, s2, AppendStoreSlot), AppendStoreWrite))
  {
  }

  lemma PoppedSteps(capacity: nat, s: Ring)
    requires BetweenCalls(capacity, s)
    ensures var s2 := Step(capacity, Step(capacity, s, PopLoadRead), PopLoadWrite);
            if s.read == s.write then Popped(capacity, s) == s2
            else Popped(capacity, s) == Step(capacity, Step(capacity, s2, PopLoadSlot), PopStoreRead)
  {
    var s1 := s.(consumer := PopLoaded(s.read));
    assert Step(capacity, s, PopLoadRead) == s1;
    assert s.read == s.write ==> s1.(consumer := ConsumerIdle) == s;
  }

  /** One step of either thread, with the invariant. */
  lemma StepKeepsInv(capacity: nat, s: Ring, a: Action)
    requires Usable(capacity) && Inv(capacity, s)
    ensures Inv(capacity, Step(capacity, s, a))
  {
    if Enabled(s, a) {
      if ProducerAction(a) { ProducerKeepsInv(capacity, s, a); } else { ConsumerKeepsInv(capacity, s, a); }
    }
  }

  lemma AppendedInv(capacity: nat, s: Ring, state: Snapshot)
    requires BetweenCalls(capacity, s) && s.running
    ensures Inv(capacity, Appended(capacity, s, state))
  {
    var s1 := Step(capacity, s, AppendLoadWrite(state));
    var s2 := Step(capacity, s1, AppendLoadRead);
    StepKeepsInv(capacity, s, AppendLoadWrite(state));
    StepKeepsInv(capacity, s1, AppendLoadRead);
    StepKeepsInv(capacity, s2, AppendStoreDrops);
    StepKeepsInv(capacity, s2, AppendStoreSlot);
    StepKeepsInv(capacity, Step(capacity, s2, AppendStoreSlot), AppendStoreWrite);
    AppendedSteps(capacity, s, state);
  }

  lemma PoppedInv(capacity: nat, s: Ring)
    requires BetweenCalls(capacity, s)
    ensures Inv(capacity, Popped(capacity, s))
  {
    var s1 := Step(capacity, s, PopLoadRead);
    var s2 := Step(capacity, s1, PopLoadWrite);
    StepKeepsInv(capacity, s, PopLoadRead);
    StepKeepsInv(capacity, s1, PopLoadWrite);
    StepKeepsInv(capacity, s2, PopLoadSlot);
    StepKeepsInv(capacity, Step(capacity, s2, PopLoadSlot), PopStoreRead);
    PoppedSteps(capacity, s);
  }

  /** What an uninterrupted append and pop do to the queue. */
  lemma WholeCalls(capacity: nat, s: Ring)
    requires BetweenCalls(capacity, s)
    ensures var n := |s.accepted| - |s.popped|;
            && ((s.write - s.read) % WRAP == n && (s.read == s.write <==> n == 0))
            && (n > 0 ==> Popped(capacity, s).popped == s.popped + [s.accepted[|s.popped|]])
  {
    WrapDistance(|s.accepted|, |s.popped|, WRAP);
    if |s.accepted| > |s.popped| {
      SlotIs(capacity, s, 0);
      WrapSlot(|s.popped|, WRAP, capacity);
    }
  }

  lemma AppendedQueue(capacity: nat, s: Ring, state: Snapshot)
    requires BetweenCalls(capacity, s) && s.running
    ensures var s' := Appended(capacity, s, state);
            var q := s.accepted[|s.popped|..];
            && s'.popped == s.popped && |s'.popped| <= |s'.accepted|
            && s'.accepted[|s'.popped|..] == (if |q| < capacity then q + [s'.last] else q)
            && s'.drops == s.drops + (if |q| < capacity then 0 else 1)
  {
    WholeCalls(capacity, s);
  }

  /** The terminal taken once everything was popped accounts for the whole trial. */
  lemma TakenBalanced(capacity: nat, s: Ring)
    requires BetweenCalls(capacity, s) && s.terminalPending && |s.accepted| == |s.popped|
    ensures Inv(capacity, s.(terminalPending := false)) && Balanced(s.(terminalPending := false), s.terminal)
  {
  }

  class CaptureBuffer {
    const capacity: nat
    const records: array<CaptureRecord>
    var read: nat
    var write: nat
    var publishedDrops: nat
    var terminalPending: bool
    var trial: nat
    var sequence: nat
    var drops: nat
    var running: bool
    var last: CaptureRecord
    var terminal: Completion
    ghost var accepted: seq<CaptureRecord>
    ghost var popped: seq<CaptureRecord>
    ghost var base: nat

    /** The state between calls. */
    ghost function View(): Ring
      reads this, records
    {
      Ring(records[..], read, write, publishedDrops, terminalPending, trial, sequence, drops, running, last, terminal,
           ProducerIdle, ConsumerIdle, accepted, popped, base)
    }

    ghost predicate Valid()
      reads this, records
    {
      Usable(capacity) && records.Length == capacity && Inv(capacity, View())
    }

    ghost function Queue(): seq<CaptureRecord>
      reads this, records
      requires Valid()
    {
      accepted[|popped|..]
    }

    constructor (size: nat)
      requires Usable(size)
      ensures Valid() && fresh(records) && capacity == size
      ensures View() == Empty(size) && Queue() == []
    {
      capacity := size;
      var slots := new CaptureRecord[size](_ => NO_RECORD);
      records := slots;
      read, write, publishedDrops, terminalPending := 0, 0, 0, false;
      trial, sequence, drops, running, last, terminal := 0, 0, 0, false, NO_RECORD, NO_COMPLETION;
      accepted, popped, base := [], [], 0;
      new;
      assert records[..] == Empty(size).slots;
    }

    method Begin(id: nat) returns (ok: bool)
      requires Valid()
      modifies this
      ensures Valid()
      ensures ok == (!old(running) && !old(terminalPending) && id != 0)
      ensures !ok ==> View() == old(View())
      ensures ok ==> View() == Began(old(View()), id)
      ensures Queue() == old(Queue())
    {
      if running || terminalPending || id == 0 {
        return false;
      }
      trial, sequence, drops := id, 0, 0;
      publishedDrops := 0;
      last := CaptureRecord(trial, 0, EMPTY_SNAPSHOT);
      running := true;
      base := |accepted|;
      return true;
    }

    method Append(state: Snapshot)
      requires Valid()
      modifies this, records
      ensures Valid()
      ensures View() == if old(running) then Appended(capacity, old(View()), state) else old(View())
      ensures Queue() == if old(running) && |old(Queue())| < capacity then old(Queue()) + [last] else old(Queue())
      ensures running == old(running) && trial == old(trial)
      ensures terminalPending == old(terminalPending) && terminal == old(terminal)
      ensures drops == old(drops) + if old(running) && |old(Queue())| >= capacity then 1 else 0
      ensures last == if old(running) then CaptureRecord(trial, old(last).sequence + 1, state) else old(last)
    {
      if !running {
        return;
      }
      ghost var s := View();
      ghost var done := Appended(capacity, s, state);
      assert Inv(capacity, done) by {
        AppendedInv(capacity, s, state);
      }
      AppendedQueue(capacity, s, state);
      Stamp(state);
      if (write - read) % WRAP == capacity {
        CountDrop();
      } else {
        Publish();
      }
    }

    method Stamp(state: Snapshot)
      modifies `sequence, `last
      ensures View() == Stamped(old(View()), state)
    {
      sequence := sequence + 1;
      last := CaptureRecord(trial, sequence, state);
    }

    method CountDrop()
      modifies `drops, `publishedDrops
      ensures View() == old(View()).(drops := old(drops) + 1, publishedDrops := old(drops) + 1)
    {
      drops := drops + 1;
      publishedDrops := drops;
    }

    /** The slot store and the index store of an append that found room. */
    method Publish()
      requires capacity >= 1 && records.Length == capacity
      modifies `write, `accepted, records
      ensures View() == old(View()).(slots := old(records[..])[old(write) % capacity := last],
                                     write := (old(write) + 1) % WRAP, accepted := old(accepted) + [last])
    {
      var w := write;
      records[w % capacity] := last;
      write := (w + 1) % WRAP;
      accepted := accepted + [last];
    }

    method Finish(completed: bool)
      requires Valid()
      modifies this
      ensures Valid()
      ensures View() == if old(running) then Finished(old(View()), completed) else old(View())
      ensures Queue() == old(Queue())
    {
      if !running {
        return;
      }
      terminal := Completion(last, drops, completed);
      running := false;
      terminalPending := true;
    }

    method Pop() returns (out: Option<CaptureRecord>)
      requires Valid()
      modifies this
      ensures Valid()
      ensures out.None? <==> old(Queue()) == []
      ensures View() == Popped(capacity, old(View()))
      ensures out.None? ==> View() == old(View())
      ensures out.Some? ==> old(Queue()) == [out.value] + Queue()
    {
      ghost var s := View();
      WholeCalls(capacity, s);
      PoppedInv(capacity, s);
      var r := read;
      if r == write {
        return None;
      }
      var taken := records[r % capacity];
      read := (r + 1) % WRAP;
      popped := popped + [taken];
      assert View() == Popped(capacity, s);
      return Some(taken);
    }

    method TakeCompletion() returns (out: Option<Completion>)
      requires Valid()
      modifies this
      ensures Valid() && Queue() == old(Queue())
      ensures out.Some? <==> old(terminalPending) && old(Queue()) == []
      ensures out.None? ==> View() == old(View())
      ensures out.Some? ==> View() == old(View()).(terminalPending := false)
      ensures out.Some? ==> out.value == old(terminal) && Balanced(View(), out.value)
    {
      WholeCalls(capacity, View());
      if !terminalPending || read != write {
        return None;
      }
      TakenBalanced(capacity, View());
      out := Some(terminal);
      terminalPending := false;
    }
  }
}
