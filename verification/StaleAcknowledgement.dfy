/** A start of compliance does not reset what an earlier stop has left acknowledged:
    the node can show a stop as acknowledged while compliance is active. */
module StaleAcknowledgement {
  import opened Coordinator
  import opened CoordinatorSafety
  import opened CoordinatorProgress

  const START := Operator(StartZeroForce)
  const OBSERVE := Operator(Observe)

  /** The operation has just succeeded; this is shown as acknowledged, and compliance
      was last listed so. */
  predicate Shows(s: State, kind: Kind, acknowledged: bool, compliance: ControllerState) {
    Succeeded(s, kind) && s.acknowledged == acknowledged && s.log.monitor.listing.compliance == compliance
  }

  lemma EndShows(m: Monitor, e: Event)
    requires Legal(m, e) && e.Ended? && e.success
    ensures Watch(m, e).listing.compliance == if Compliance in MayActivate(e.kind) then Active else Inactive
    ensures e.acknowledged == (Acknowledges(e.kind) || Watch(m, e).entered)
  {
  }

  lemma SuccessShows(physical: bool, inputs: seq<Input>, kind: Kind, longer: seq<Input>)
    requires Succeeded(Run(physical, longer), kind)
    requires Admission(Run(physical, longer).log.monitor) == Admitted(kind, Run(physical, inputs).acknowledged)
    ensures Shows(Run(physical, longer), kind, Acknowledges(kind) || Run(physical, inputs).acknowledged,
                  if Compliance in MayActivate(kind) then Active else Inactive)
  {
    var events := Events(physical, longer);
    EveryEventLegal(physical, longer, |events| - 1);
    EndShows(Watched(events[..|events| - 1]), events[|events| - 1]);
  }

  /** From wherever it is admitted, a start can succeed, and then shows as acknowledged
      just what was acknowledged before, with compliance listed active. */
  lemma StartKeepsAcknowledgement(physical: bool, inputs: seq<Input>) returns (longer: seq<Input>)
    requires Run(physical, inputs).Free()
    ensures inputs + [Request(START)] <= longer
    ensures Shows(Run(physical, longer), START, Run(physical, inputs).acknowledged, Active)
  {
    longer := CanSucceed(physical, inputs, START);
    SuccessShows(physical, inputs, START, longer);
  }

  /** Observing can succeed, and the stop is then acknowledged. */
  lemma ObserveAcknowledges(physical: bool, inputs: seq<Input>) returns (longer: seq<Input>)
    requires Run(physical, inputs).Free()
    ensures inputs + [Request(OBSERVE)] <= longer
    ensures Shows(Run(physical, longer), OBSERVE, true, Inactive)
  {
    longer := CanSucceed(physical, inputs, OBSERVE);
    SuccessShows(physical, inputs, OBSERVE, longer);
  }

  /** So after an observed stop and a start, on either backend, a stop is shown as
      acknowledged while compliance is active. */
  lemma StaleWhileComplying(physical: bool) returns (inputs: seq<Input>)
    ensures Shows(Run(physical, inputs), START, true, Active)
  {
    inputs := ObserveAcknowledges(physical, []);
    inputs := StartKeepsAcknowledgement(physical, inputs);
  }
}
