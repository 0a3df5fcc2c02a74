/** For which capacities the wrapping ring is a queue at all: exactly those that
    divide the range of its 64-bit indices. */
module RingCapacity {
  import opened ControlTypes
  import opened IntArithmetic
  import opened CaptureRing

  const APPEND: seq<Action> :=
    [AppendLoadWrite(EMPTY_SNAPSHOT), AppendLoadRead, AppendStoreSlot, AppendStoreWrite]

  const POP: seq<Action> := [PopLoadRead, PopLoadWrite, PopLoadSlot, PopStoreRead]

  lemma {:induction false} ExecuteConcat(capacity: nat, s: Ring, a: seq<Action>, b: seq<Action>)
    requires capacity >= 1 && |s.slots| == capacity
    ensures Execute(capacity, s, a + b) == Execute(capacity, Execute(capacity, s, a), b)
  {
    if b == [] {
      assert a + b == a;
    } else {
      var n := |b| - 1;
      ExecuteConcat(capacity, s, a, b[..n]);
      assert (a + b)[..|a + b| - 1] == a + b[..n];
    }
  }

  lemma ExecuteOne(capacity: nat, s: Ring, actions: seq<Action>, a: Action)
    requires capacity >= 1 && |s.slots| == capacity
    ensures Execute(capacity, s, actions + [a]) == Step(capacity, Execute(capacity, s, actions), a)
  {
  }

  lemma ExecuteFour(capacity: nat, s: Ring, a: Action, b: Action, c: Action, d: Action)
    requires capacity >= 1 && |s.slots| == capacity
    ensures Execute(capacity, s, [a, b, c, d]) ==
            Step(capacity, Step(capacity, Step(capacity, Step(capacity, s, a), b), c), d)
  {
    ExecuteOne(capacity, s, [], a);
    ExecuteOne(capacity, s, [a], b);
    ExecuteOne(capacity, s, [a, b], c);
    ExecuteOne(capacity, s, [a, b, c], d);
    assert [] + [a] == [a] && [a] + [b] == [a, b] && [a, b] + [c] == [a, b, c] && [a, b, c] + [d] == [a, b, c, d];
  }

  /** Between operations of a running trial: n records popped, k more appended. */
  ghost predicate Quiet(capacity: nat, s: Ring, n: nat, k: nat)
    requires capacity >= 1
  {
    && |s.slots| == capacity && s.producer == ProducerIdle && s.consumer == ConsumerIdle && s.running
    && |s.popped| == n && |s.accepted| == n + k
    && s.read == n % WRAP && s.write == (n + k) % WRAP
    && s.sequence == n + k
    && (forall i :: 0 <= i < n + k ==> s.accepted[i].sequence == i + 1)
    && (k > 0 ==> s.slots[((n + k - 1) % WRAP) % capacity] == s.accepted[n + k - 1])
  }

  lemma AppendStarts(capacity: nat, s: Ring, n: nat, k: nat)
    requires 1 <= capacity < WRAP && k < capacity && Quiet(capacity, s, n, k)
    ensures var s1 := s.(sequence := s.sequence + 1, last := CaptureRecord(s.trial, s.sequence + 1, EMPTY_SNAPSHOT));
            && Step(capacity, s, APPEND[0]) == s1.(producer := AppendLoaded(s.write))
            && Step(capacity, s1.(producer := AppendLoaded(s.write)), APPEND[1]) == s1.(producer := AppendRoom(s.write))
  {
    WrapDistance(n + k, n, WRAP);
  }

  lemma AppendEnds(capacity: nat, s: Ring, n: nat, k: nat)
    requires 1 <= capacity < WRAP && k < capacity && Quiet(capacity, s, n, k)
    ensures var s1 := s.(sequence := s.sequence + 1, last := CaptureRecord(s.trial, s.sequence + 1, EMPTY_SNAPSHOT),
                         producer := AppendRoom(s.write));
            var s' := Step(capacity, Step(capacity, s1, APPEND[2]), APPEND[3]);
            Quiet(capacity, s', n, k + 1) && s'.popped == s.popped && s.accepted <= s'.accepted
  {
    WrapNext(n + k, WRAP);
    var s1 := s.(sequence := s.sequence + 1, last := CaptureRecord(s.trial, s.sequence + 1, EMPTY_SNAPSHOT),
                 producer := AppendRoom(s.write));
    var s2 := s1.(slots := s.slots[s.write % capacity := s1.last], producer := AppendWritten(s.write));
    assert Step(capacity, s1, APPEND[2]) == s2;
    var s3 := s2.(write := (s.write + 1) % WRAP, producer := ProducerIdle, accepted := s.accepted + [s1.last]);
    assert Step(capacity, s2, APPEND[3]) == s3;
  }

  lemma AppendQuiet(capacity: nat, s: Ring, n: nat, k: nat)
    requires 1 <= capacity < WRAP && k < capacity && Quiet(capacity, s, n, k)
    ensures var s' := Execute(capacity, s, APPEND);
            Quiet(capacity, s', n, k + 1) && s'.popped == s.popped && s.accepted <= s'.accepted
  {
    ExecuteFour(capacity, s, APPEND[0], APPEND[1], APPEND[2], APPEND[3]);
    AppendStarts(capacity, s, n, k);
    AppendEnds(capacity, s, n, k);
  }

  lemma PopStarts(capacity: nat, s: Ring)
    requires 1 <= capacity && |s.slots| == capacity && s.consumer == ConsumerIdle && s.read != s.write
    ensures var r := s.read;
            && Step(capacity, s, PopLoadRead) == s.(consumer := PopLoaded(r))
            && Step(capacity, s.(consumer := PopLoaded(r)), PopLoadWrite) == s.(consumer := PopAvailable(r))
            && Step(capacity, s.(consumer := PopAvailable(r)), PopLoadSlot) ==
               s.(consumer := PopTaken(r, s.slots[r % capacity]))
  {
  }

  lemma NotEmpty(capacity: nat, s: Ring, n: nat, k: nat)
    requires 1 <= capacity < WRAP && 1 <= k <= capacity && Quiet(capacity, s, n, k)
    ensures s.read != s.write
  {
    DistinctSlots(n + k, n, WRAP);
  }

  lemma PopQuiet(capacity: nat, s: Ring, n: nat, k: nat)
    requires 1 <= capacity < WRAP && 1 <= k <= capacity && Quiet(capacity, s, n, k)
    ensures var s' := Execute(capacity, s, POP);
            && s'.popped == s.popped + [s.slots[(n % WRAP) % capacity]]
            && s'.accepted == s.accepted
            && (k == 1 ==> Quiet(capacity, s', n + 1, 0))
  {
    NotEmpty(capacity, s, n, k);
    ExecuteFour(capacity, s, PopLoadRead, PopLoadWrite, PopLoadSlot, PopStoreRead);
    PopStarts(capacity, s);
    PopStored(capacity, s, n, k, s.slots[(n % WRAP) % capacity]);
  }

  lemma PopStored(capacity: nat, s: Ring, n: nat, k: nat, out: CaptureRecord)
    requires capacity >= 1 && 1 <= k && Quiet(capacity, s, n, k)
    ensures var s' := Step(capacity, s.(consumer := PopTaken(n % WRAP, out)), PopStoreRead);
            && s'.popped == s.popped + [out] && s'.accepted == s.accepted
            && (k == 1 ==> Quiet(capacity, s', n + 1, 0))
  {
    WrapNext(n, WRAP);
  }

  /** A run that appends and pops n records one at a time. */
  lemma {:induction false} Pairs(capacity: nat, n: nat) returns (actions: seq<Action>)
    requires 1 <= capacity < WRAP
    ensures var s := Execute(capacity, Empty(capacity), actions);
            Quiet(capacity, s, n, 0) && s.popped == s.accepted
  {
    if n == 0 {
      actions := [BeginLoadPending(1)] + [BeginStoreDrops];
      ExecuteOne(capacity, Empty(capacity), [], BeginLoadPending(1));
      assert [] + [BeginLoadPending(1)] == [BeginLoadPending(1)];
      ExecuteOne(capacity, Empty(capacity), [BeginLoadPending(1)], BeginStoreDrops);
    } else {
      var before := Pairs(capacity, n - 1);
      var s := Execute(capacity, Empty(capacity), before);
      AppendQuiet(capacity, s, n - 1, 0);
      var s1 := Execute(capacity, s, APPEND);
      PopQuiet(capacity, s1, n - 1, 1);
      ExecuteConcat(capacity, Empty(capacity), before, APPEND);
      ExecuteConcat(capacity, Empty(capacity), before + APPEND, POP);
      actions := before + APPEND + POP;
    }
  }

  /** The same run followed by k appends. */
  lemma {:induction false} Fill(capacity: nat, n: nat, k: nat) returns (actions: seq<Action>)
    requires 1 <= capacity < WRAP && k <= capacity
    ensures var s := Execute(capacity, Empty(capacity), actions);
            Quiet(capacity, s, n, k) && s.popped == s.accepted[..n]
  {
    if k == 0 {
      actions := Pairs(capacity, n);
      var s := Execute(capacity, Empty(capacity), actions);
      assert s.accepted[..n] == s.accepted;
    } else {
      var before := Fill(capacity, n, k - 1);
      var s := Execute(capacity, Empty(capacity), before);
      AppendQuiet(capacity, s, n, k - 1);
      ExecuteConcat(capacity, Empty(capacity), before, APPEND);
      actions := before + APPEND;
    }
  }

  /** The consumer always gets the accepted records, in order. */
  ghost predicate IsQueue(capacity: nat)
    requires capacity >= 1
  {
    forall actions :: var s := Execute(capacity, Empty(capacity), actions); s.popped <= s.accepted
  }

  lemma LastMultiple(capacity: nat)
    requires 1 <= capacity < WRAP
    ensures var r := WRAP % capacity;
            var n := WRAP - r;
            ((n % WRAP) % capacity == 0 || r == 0) && ((n + r) % WRAP) % capacity == 0 && r < capacity && n >= 0
  {
    var r := WRAP % capacity;
    assert WRAP - r == (WRAP / capacity) * capacity;
    Quotients(WRAP - r, capacity, WRAP / capacity, 0);
    Quotients(WRAP, WRAP, 1, 0);
    Quotients(0, capacity, 0, 0);
    if r > 0 {
      Quotients(WRAP - r, WRAP, 0, WRAP - r);
    }
  }

  /** A capacity that does not divide the index range loses a record when the
      indices wrap. */
  lemma WrongWrap(capacity: nat)
    requires 1 <= capacity < WRAP && WRAP % capacity != 0
    ensures !IsQueue(capacity)
  {
    var r := WRAP % capacity;
    var n := WRAP - r;
    LastMultiple(capacity);
    var before := Fill(capacity, n, r + 1);
    var s := Execute(capacity, Empty(capacity), before);
    PopQuiet(capacity, s, n, r + 1);
    ExecuteConcat(capacity, Empty(capacity), before, POP);
    var s' := Execute(capacity, Empty(capacity), before + POP);
    assert s'.popped[n] == s.slots[0] == s.accepted[n + r];
    assert s.accepted[n + r].sequence != s.accepted[n].sequence;
    assert !(s'.popped <= s'.accepted);
  }

  /** The ring is a queue over runs of any length if and only if its capacity
      divides the range of the indices. */
  lemma QueueExactly(capacity: nat)
    requires 1 <= capacity < WRAP
    ensures IsQueue(capacity) <==> WRAP % capacity == 0
  {
    if WRAP % capacity == 0 {
      forall actions
        ensures var s := Execute(capacity, Empty(capacity), actions); s.popped <= s.accepted
      {
        RingIsFifo(capacity, actions);
      }
    } else {
      WrongWrap(capacity);
    }
  }

  /** The capacity the telemetry pipeline uses. */
  lemma PipelineCapacity()
    ensures Usable(8192) && IsQueue(8192)
  {
    QueueExactly(8192);
  }
}
