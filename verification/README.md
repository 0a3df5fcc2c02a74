# Verification of the stage controller

A Dafny model of the motion controller of a vertical stage, with proofs. The
modules follow the program:

- `ControlTypes`, `UpdateChecks`, `Options`: inputs, snapshots, faults, motion bounds.
- `Sequencer`, `Envelope`, `Crossings`, `ScaleRefinement`: the calibration
  trajectory, its excursion, its count of centre crossings, and its agreement with
  the integer recurrence in encoder counts. `CalibrationLogic`, `CalibrationRun`: the
  controller around it, its settling and hold. `CalibrationFaults`: when it faults.
  `CalibrationPlan`, `TrajectoryEnds`, `LeapCounterexample`: the references it will ask
  for, computed beforehand, when the excursion check is enough for them, and settings
  for which it is not.
- `CaptureRing`, `RingCapacity`, `Capture`: the lock-free trial capture, one load or
  store at a time, and as an object. `TelemetryPipeline`, `TelemetryWork`,
  `TelemetryPublisher`: the publisher that drains it, the work of one callback, and
  the publisher as an object. `PipelineRefinement`: both threads down to the single
  loads and stores are a run of the pipeline. `TrialReceiver`, `TrialDelivery`: the
  receiver that accepts a trial. `StatusMeaning`, `ThreadStatus`: what a status says of
  its trial. `ThreadDelivery`: both ends together, from the threads to the receiver.
- `DriveProfile`, `CountConversion`, `EncoderVelocity`: the drive profile, the
  conversion of counts and the encoder's session.
  `HardwareCycle` is the hardware component as a step function over a record,
  `EthercatHardware` the same as an object whose methods are proved to be those
  steps, `HardwareSafety` the invariant and `HardwareRuns` what it means over runs.
  `HardwareStartup`, `HardwareLifecycle`: the deadline of a start, the reason of each
  fault, and what the lifecycle leaves. `HardwareAndDrive` joins it to a drive that
  answers.
- `ZeroForce`, `ZeroForceRun`, `ZeroForceCapture`: the compliant controller.
  `ForceResponse`, `ZeroForceFaults`: how the force moves it, and when it faults.
- `Relay`, `RelayKeeping`: the plot relay. `Coordinator`, `CoordinatorSafety`: the
  calibration coordinator as coroutines resumed in any order. `CoordinatorSteps`,
  `CoordinatorProgress`: its single awaits, and that every operation can succeed.
  `StaleAcknowledgement`: when the stop it shows as acknowledged is an earlier one.
- `RealArithmetic`, `IntArithmetic`: facts about products and quotients.

Each object of the source is a class whose methods are tied by their contracts to a
function of the old state; the results are about runs of those functions. The
hardware and the coordinator carry a ghost trace with an observer of it: a predicate
`Legal` says of each event what the observer must see, and the trace's type says
that the observer has seen all of it.

Doubles are exact reals, and a value the source has to recognise as NaN or infinite
is a case of its own (`Num.NonFinite`, `Checked.SomeNonFinite`). The exponential is
any decay in (0, 1], the square root any nonnegative value with the stated square.
Clocks, bus feedback, service outcomes and whether a publication throws are
arbitrary inputs.

Where the code differs from what its text promises:

- The excursion check does not bound the motion for all valid settings: a step can
  pass over the whole centre zone. `LeapCounterexample.EnvelopeCanFail` is such a
  case. `CalibrationPlan.EnvelopeExactlyWhen` is the exact condition, which can be
  computed before activation; that no step leaps (`CalibrationRun.EnvelopeHolds`)
  and a check on the settings (`CalibrationRun.EnvelopeChecked`) are sufficient.
- The count of failed publications is cleared by a trial's first batch, not by its
  start, so a trial without a sample can be reported incomplete
  (`TelemetryPipeline.StaleFailure`); `HonestExactlyWhen` says when the report is
  right.
- The publisher's comment bounds a callback by the queue's capacity. The loop's
  condition is tested before each batch, so the bound is one batch less one record
  higher (`TelemetryWork.WorkBounded`) and is reached (`WorkReaches`).
  `OverrunsExactlyWhen` says which callbacks can take more than the capacity.
- A start of compliance does not reset what an earlier stop has left acknowledged, so
  the node can show a stop as acknowledged while compliance is active
  (`StaleAcknowledgement.StaleWhileComplying`). It shows what was shown before the start
  was admitted (`CoordinatorSafety.SuccessAcknowledges`, `StartKeepsAcknowledgement`).

## Model

| member | source | states |
|---|---|---|
| Envelope.InsideUntilLeap | packages/zfc_calibration_controller/include/zfc_calibration_controller/calibration_sequencer.hpp:60-110 | for every valid trajectory and every update up to its first step that leaps the centre zone, the displacement is inside the turning part of the excursion formula |
| Envelope.StaysInside | packages/zfc_calibration_controller/include/zfc_calibration_controller/calibration_sequencer_logic.hpp:28-36 | if the settings pass the closed-form check, no update of the run leaps the centre zone or leaves the turning envelope |
| CalibrationRun.ReferenceInsideEnvelope | packages/zfc_calibration_controller/include/zfc_calibration_controller/calibration_sequencer_logic.hpp:26-53 | whatever is fed in, every valid reference keeps abs(reference - origin) + tracking tolerance within the excursion checked once at activation, through trajectory, settling and hold, if no step of the trajectory leaps |
| CalibrationRun.TrackedNeverOutOfBounds | packages/zfc_calibration_controller/include/zfc_calibration_controller/calibration_sequencer_logic.hpp:58-106 | if no step of the trajectory leaps, feedback within the tracking tolerance of the reference never raises the bounds fault |
| CalibrationRun.EnvelopeHolds | packages/zfc_calibration_controller/include/zfc_calibration_controller/calibration_sequencer_logic.hpp:40-53 | activation keeps that promise if the trajectory never leaps the centre zone in one step |
| CalibrationRun.EnvelopeChecked | packages/zfc_calibration_controller/include/zfc_calibration_controller/calibration_sequencer_logic.hpp:28-53 | a check on the settings alone suffices: a return speed bound from peak, ramp and braking room that is less than one zone per step |
| CalibrationPlan.ReferenceIsPlanned | packages/zfc_calibration_controller/include/zfc_calibration_controller/calibration_sequencer_logic.hpp:58-106 | whatever is fed in, every valid reference is one of the plan computed from the settings alone: the trajectory, then settling until it stops or times out |
| CalibrationPlan.EnvelopeExactlyWhen | packages/zfc_calibration_controller/include/zfc_calibration_controller/calibration_sequencer_logic.hpp:40-53 | for all settings and all feedback at activation, tracked feedback never raises the bounds fault if and only if the plan, when accepted, leaves the tracking tolerance inside the bounds on both sides of every reference |
| CalibrationPlan.ExcursionExactlyWhen | packages/zfc_calibration_controller/include/zfc_calibration_controller/calibration_sequencer_logic.hpp:26-53 | and the references, too, keep abs(reference - origin) + tracking tolerance within the excursion checked at activation if and only if the plan does |
| CalibrationPlan.SteadyPlan | packages/zfc_calibration_controller/include/zfc_calibration_controller/calibration_sequencer_logic.hpp:28-53 | a trajectory that never leaps has such a plan |
| Envelope.ShippedCannotLeap | packages/zfc_calibration_controller/include/zfc_calibration_controller/calibration_sequencer.hpp:7-16 | the built-in default parameters and the launched profile meet that check |
| LeapCounterexample.EnvelopeCanFail | packages/zfc_calibration_controller/include/zfc_calibration_controller/calibration_sequencer_logic.hpp:28-53 | valid settings and tracked feedback for which activation succeeds and the bounds fault is raised all the same |
| LeapCounterexample.NarrowLeaps | packages/zfc_calibration_controller/include/zfc_calibration_controller/calibration_sequencer.hpp:80-104 | steps 2 and 10 of that trajectory each pass over the whole centre zone, and its settings fail the closed-form check |
| CalibrationRun.SettlingTerminates | packages/zfc_calibration_controller/include/zfc_calibration_controller/calibration_sequencer_logic.hpp:82-98 | settling ends in complete or a fault within floor(timeout/dt) + 1 updates, whatever the feedback |
| CalibrationRun.SettlingStops | packages/zfc_calibration_controller/include/zfc_calibration_controller/calibration_sequencer_logic.hpp:82-98 | after n settling updates the reference speed has dropped by exactly n deceleration steps, to exactly zero and without reversing |
| CalibrationRun.StoppingTravel | packages/zfc_calibration_controller/include/zfc_calibration_controller/calibration_sequencer_logic.hpp:28-36 | the settling reference travels at most v0*v0 / (2 * settling acceleration) |
| CalibrationRun.CompletionEarned | packages/zfc_calibration_controller/include/zfc_calibration_controller/calibration_sequencer_logic.hpp:89-98 | complete is entered only after ceil(stationary duration / dt) consecutive updates with a zero reference velocity and stationary feedback in tolerance |
| CalibrationRun.HoldNeverMoves | packages/zfc_calibration_controller/include/zfc_calibration_controller/calibration_sequencer_logic.hpp:65-71 | once complete, the reference never moves while the state is valid |
| CalibrationLogic.CalibrationSequencerLogic.Activate | packages/zfc_calibration_controller/include/zfc_calibration_controller/calibration_sequencer_logic.hpp:40-53 | succeeds exactly on valid settings, stationary finite feedback and an excursion inside the bounds on both sides, and then starts at the measured position |
| CalibrationLogic.CalibrationSequencerLogic.Update | packages/zfc_calibration_controller/include/zfc_calibration_controller/calibration_sequencer_logic.hpp:58-106 | one update of the object is one step of the run the envelope and settling results are about |
| CalibrationFaults.HoldsExactlyWhile | packages/zfc_calibration_controller/include/zfc_calibration_controller/calibration_sequencer_logic.hpp:65-71 | once complete, the state is valid if and only if every update fed since was finite, in time, in bounds, stationary and within tolerance of the held reference |
| CalibrationFaults.StrayingFaults | packages/zfc_calibration_controller/include/zfc_calibration_controller/calibration_sequencer_logic.hpp:65-71 | an update of that hold that is finite, in time and in bounds raises the feedback fault if and only if it moves faster than stationary or is farther than the tolerance from the reference |
| CalibrationFaults.UpdateFaultsExactly | packages/zfc_calibration_controller/include/zfc_calibration_controller/calibration_sequencer_logic.hpp:58-106 | for every phase, the inputs on which an update raises each fault: feedback, period, bounds and settling timeout, and that no other does |
| CalibrationFaults.FaultLatched | packages/zfc_calibration_controller/include/zfc_calibration_controller/calibration_sequencer_logic.hpp:59 | the first fault stays until the next activation |
| CalibrationFaults.ActivatesExactlyWhen | packages/zfc_calibration_controller/include/zfc_calibration_controller/calibration_sequencer_logic.hpp:28-53 | activation succeeds exactly on valid settings, finite feedback at rest, and the source's excursion formula kept to both sides |
| CalibrationFaults.RunConsistent | packages/zfc_calibration_controller/include/zfc_calibration_controller/calibration_sequencer_logic.hpp:72-105 | while valid, the reference is the exact sum of its velocities, every late period is counted once, and progress is nine tenths of the trajectory's, then nine tenths, then one |
| Sequencer.CalibrationSequencer.Update | packages/zfc_calibration_controller/include/zfc_calibration_controller/calibration_sequencer.hpp:60-110 | rejects a bad period and otherwise makes exactly one step of the recurrence, with the commanded position at start plus displacement |
| Sequencer.CalibrationSequencer.Configure | packages/zfc_calibration_controller/include/zfc_calibration_controller/calibration_sequencer.hpp:35-41 | accepts exactly the valid parameters |
| Sequencer.CalibrationSequencer.Activate | packages/zfc_calibration_controller/include/zfc_calibration_controller/calibration_sequencer.hpp:42-50 | starts only when configured and from a finite position, at rest in the centre with the initial pass already counted |
| Sequencer.CalibrationSequencer.PassThroughCentre | packages/zfc_calibration_controller/include/zfc_calibration_controller/calibration_sequencer.hpp:78-96 | the velocity clamp in the centre zone, and one pass counted at most |
| Sequencer.CalibrationSequencer.TurnOutside | packages/zfc_calibration_controller/include/zfc_calibration_controller/calibration_sequencer.hpp:97-104 | the jerk-limited turn outside the centre zone |
| Sequencer.CalibrationSequencer.Accumulate | packages/zfc_calibration_controller/include/zfc_calibration_controller/calibration_sequencer.hpp:121-126 | the compensated sum is the exact sum and its error term stays zero in exact arithmetic |
| Crossings.FlagIsOutstanding | packages/zfc_calibration_controller/include/zfc_calibration_controller/calibration_sequencer.hpp:78-104 | the flag is set exactly while no excursion outside the centre is waiting to be counted: none is counted twice, the initial pass not at all |
| Crossings.LimitFollowsCrossings | packages/zfc_calibration_controller/include/zfc_calibration_controller/calibration_sequencer.hpp:84-92 | the acceleration limit is always initial + increment * floor(crossings / cycles), and the trajectory finishes exactly at crossing n * cycles for the least sufficient n |
| Crossings.RaisesExist | packages/zfc_calibration_controller/include/zfc_calibration_controller/calibration_sequencer.hpp:84-92 | such a least n exists for all valid parameters |
| TrajectoryEnds.CrossingComes | packages/zfc_calibration_controller/include/zfc_calibration_controller/calibration_sequencer.hpp:78-110 | from every update of an unfinished trajectory that never leaps there is another counted crossing: excursions return and passes leave the zone |
| TrajectoryEnds.TrajectoryFinishes | packages/zfc_calibration_controller/include/zfc_calibration_controller/calibration_sequencer.hpp:84-104 | so such a trajectory finishes |
| TrajectoryEnds.PlanIsFinite | packages/zfc_calibration_controller/include/zfc_calibration_controller/calibration_sequencer_logic.hpp:76-98 | and its plan is finite: from some reference on it does not change |
| Crossings.ProgressGrows | packages/zfc_calibration_controller/include/zfc_calibration_controller/calibration_sequencer.hpp:114-118 | progress stays between 0 and 1 and never decreases |
| Crossings.ProgressCounts | packages/zfc_calibration_controller/include/zfc_calibration_controller/calibration_sequencer.hpp:114-118 | it is the share of the range of limits that the completed groups of crossings have raised, and one once finished |
| ScaleRefinement.RunAgrees | packages/zfc_calibration_controller/test/calibration_sequencer_test.cpp:5-37 | for every nonzero scale of either sign the run with scaled count parameters, whose roundoff guards are below one count, is that scale times the integer count recurrence, at every update, the finishing cycle and the hold included |
| ScaleRefinement.LegacyAgrees | packages/zfc_calibration_controller/test/calibration_sequencer_test.cpp:13-37 | in particular for the frozen recurrence of the regression test |
| CaptureRing.ExecuteKeepsInv | packages/zfc_interfaces/include/zfc_interfaces/capture.hpp:31-63 | under every interleaving of the single loads, slot accesses and stores of both threads, read <= write <= read + capacity and every queued record is in its slot |
| CaptureRing.NoRace | packages/zfc_interfaces/include/zfc_interfaces/capture.hpp:40-41 | the producer never writes the slot the consumer is reading |
| CaptureRing.RingIsFifo | packages/zfc_interfaces/include/zfc_interfaces/capture.hpp:49-55 | popped followed by queued is exactly the accepted records in order |
| CaptureRing.StepRefinesQueue | packages/zfc_interfaces/include/zfc_interfaces/capture.hpp:31-55 | each single step is either invisible or one whole operation on a bounded queue |
| CaptureRing.NoGaps | packages/zfc_interfaces/include/zfc_interfaces/capture.hpp:33-38 | with nothing dropped the records of a trial are numbered without a gap |
| RingCapacity.QueueExactly | packages/zfc_interfaces/include/zfc_interfaces/capture.hpp:34-41 | with wrapping 64-bit indices the ring is a queue under all interleavings if and only if its capacity divides 2^64 |
| RingCapacity.WrongWrap | packages/zfc_interfaces/include/zfc_interfaces/capture.hpp:40-53 | for any other capacity there is a run that pops a wrong record |
| RingCapacity.PipelineCapacity | packages/zfc_interfaces/include/zfc_interfaces/telemetry_publisher.hpp:103 | 8192 is such a capacity |
| Capture.CaptureBuffer.Begin | packages/zfc_interfaces/include/zfc_interfaces/capture.hpp:21-30 | refuses while running or with a terminal pending or for trial 0, changing nothing; otherwise a fresh trial with the queue untouched |
| Capture.CaptureBuffer.Append | packages/zfc_interfaces/include/zfc_interfaces/capture.hpp:31-42 | numbers the sample and appends it, or counts a drop exactly when the queue is full |
| Capture.CaptureBuffer.Finish | packages/zfc_interfaces/include/zfc_interfaces/capture.hpp:43-48 | hands over the last sample and the drop count as the terminal |
| Capture.CaptureBuffer.Pop | packages/zfc_interfaces/include/zfc_interfaces/capture.hpp:49-55 | takes the oldest queued record, none exactly when the queue is empty |
| Capture.CaptureBuffer.TakeCompletion | packages/zfc_interfaces/include/zfc_interfaces/capture.hpp:56-63 | yields the terminal exactly when it is pending and the queue empty, and its counts then balance |
| Capture.AppendedSteps | packages/zfc_interfaces/include/zfc_interfaces/capture.hpp:31-42 | an uninterrupted append is the run of the producer's single steps |
| Capture.PoppedSteps | packages/zfc_interfaces/include/zfc_interfaces/capture.hpp:49-55 | an uninterrupted pop is the run of the consumer's single steps |
| Capture.BeganSteps | packages/zfc_interfaces/include/zfc_interfaces/capture.hpp:21-30 | an uninterrupted begin is the run of the producer's single steps |
| Capture.FinishedSteps | packages/zfc_interfaces/include/zfc_interfaces/capture.hpp:43-48 | an uninterrupted finish is the run of the producer's single steps |
| TelemetryPipeline.EveryBatchOneTrial | packages/zfc_interfaces/include/zfc_interfaces/telemetry_publisher.hpp:40-55 | every batch, published or not, holds records of one trial only, each as it was appended |
| TelemetryPipeline.PendingStatusKept | packages/zfc_interfaces/include/zfc_interfaces/telemetry_publisher.hpp:78-101 | a pending status survives every event but its own successful publication, however often publishing throws |
| TelemetryPipeline.OneStatusPerTrial | packages/zfc_interfaces/include/zfc_interfaces/telemetry_publisher.hpp:92-101 | the n-th status is the n-th trial's, trials ascend, and at most the newest trial has no status yet |
| TelemetryPipeline.BeginWaitsForStatus | packages/zfc_interfaces/include/zfc_interfaces/telemetry_publisher.hpp:24-30 | a trial begins only when every earlier trial's status has been published |
| TelemetryPipeline.StatusAccounts | packages/zfc_interfaces/include/zfc_interfaces/telemetry_publisher.hpp:78-91 | for a trial with a sample, delivered + failed + dropped is the final sequence and capture_complete holds exactly when every sample was in a batch whose publication did not throw; for one without, nothing was delivered and it holds exactly when no loss is counted |
| TelemetryPipeline.HonestExactlyWhen | packages/zfc_interfaces/include/zfc_interfaces/telemetry_publisher.hpp:67-72 | that verdict is right exactly when the trial has a sample or no failure is left over from an earlier one |
| TelemetryPipeline.StaleFailure | packages/zfc_interfaces/include/zfc_interfaces/telemetry_publisher.hpp:67-72 | a run in which a trial without a sample is reported incomplete because of an earlier trial's failure |
| StatusMeaning.StatusMeans | packages/zfc_interfaces/include/zfc_interfaces/telemetry_publisher.hpp:75-91 | a status's completed is the argument of the finish that ended its trial, successful holds exactly if that is true and the trial's last state valid, phase and fault are that state's, and failed counts its samples in publications that threw |
| StatusMeaning.BatchCounts | packages/zfc_interfaces/include/zfc_interfaces/telemetry_publisher.hpp:62-73 | a batch carries the samples of its trial lost so far, in publications that threw and by drops, which with those delivered and on their way make its log |
| TelemetryWork.WorkBounded | packages/zfc_interfaces/include/zfc_interfaces/telemetry_publisher.hpp:42-77 | under every interleaving one callback takes at most the capacity and one batch less one record from the queue, and no more than was queued when it began or accepted since |
| TelemetryWork.WorkReaches | packages/zfc_interfaces/include/zfc_interfaces/telemetry_publisher.hpp:41-43 | a run whose callback takes that many |
| TelemetryWork.WorkExactly | packages/zfc_interfaces/include/zfc_interfaces/telemetry_publisher.hpp:41-65 | a callback that takes the capacity takes beyond it exactly what its short batches lack of whole ones, and so stays within it exactly when they lack none |
| TelemetryWork.OverrunsExactlyWhen | packages/zfc_interfaces/include/zfc_interfaces/telemetry_publisher.hpp:41-65 | a callback can take more than the capacity if and only if, when it begins, a trial runs or can begin, the queue is not full, and what the queue holds and accepts meanwhile is more than the capacity |
| TelemetryPublisher.Publisher.Begin | packages/zfc_interfaces/include/zfc_interfaces/telemetry_publisher.hpp:24-30 | takes the gate, and gives it back when the capture refuses; for every id |
| TelemetryPublisher.Publisher.Sample | packages/zfc_interfaces/include/zfc_interfaces/telemetry_publisher.hpp:31 | one sample event of the pipeline |
| TelemetryPublisher.Publisher.PopSome | packages/zfc_interfaces/include/zfc_interfaces/telemetry_publisher.hpp:43-64 | the inner loop pops until the batch is full or the queue empty |
| TelemetryPublisher.Publisher.PublishBatch | packages/zfc_interfaces/include/zfc_interfaces/telemetry_publisher.hpp:66-76 | the loss counts of a message, their reset with a new trial, and the count of a publication that throws |
| TelemetryPublisher.Publisher.Complete | packages/zfc_interfaces/include/zfc_interfaces/telemetry_publisher.hpp:78-91 | turns the terminal into the pending status |
| TelemetryPublisher.Publisher.PublishAll | packages/zfc_interfaces/include/zfc_interfaces/telemetry_publisher.hpp:42-77 | uninterrupted, the batch loop empties the queue and so takes no more than its capacity |
| TelemetryPublisher.Publisher.Report | packages/zfc_interfaces/include/zfc_interfaces/telemetry_publisher.hpp:92-101 | publishes the pending status and opens the gate, or keeps it for the next callback |
| TelemetryPublisher.Publisher.Drain | packages/zfc_interfaces/include/zfc_interfaces/telemetry_publisher.hpp:39-102 | a whole callback, whichever publications throw, is a run of the pipeline's timer events; uninterrupted it takes all that is queued and leaves no status that could be published |
| TelemetryPublisher.CallbackReachable | packages/zfc_interfaces/include/zfc_interfaces/telemetry_publisher.hpp:39-102 | so every result about runs of events holds of the object |
| PipelineRefinement.ActStands | packages/zfc_interfaces/include/zfc_interfaces/capture.hpp:21-63 | every single load, store, slot access, pop, publication and gate access of either thread is one event of the pipeline or none |
| PipelineRefinement.InterleavingIsRun | packages/zfc_interfaces/include/zfc_interfaces/telemetry_publisher.hpp:24-102 | so every interleaving of the two threads is a run of the pipeline, with the same queue, trial, timer and statuses, and the same batches but for dropped counts that may be behind |
| PipelineRefinement.StatusOfThreads | packages/zfc_interfaces/include/zfc_interfaces/telemetry_publisher.hpp:66-91 | under every interleaving a status accounts for the samples of its trial, and a complete one for samples delivered and numbered without a gap |
| PipelineRefinement.BeginSucceeds | packages/zfc_interfaces/include/zfc_interfaces/telemetry_publisher.hpp:26-29 | a begin that has taken the gate is never refused by the capture |
| ThreadStatus.StatusMeansOfThreads | packages/zfc_interfaces/include/zfc_interfaces/telemetry_publisher.hpp:75-91 | under every interleaving of the threads a status is completed exactly as the call that finished its trial said, with verdict, phase and fault of the trial's last state |
| TrialReceiver.DrainedIsComplete | packages/zfc_calibration_analysis/zfc_calibration_analysis/analysis.py:81-120 | if what was delivered is genuine but for dropped counts that may be behind, in any order, with any loss or duplication, drained implies that the rows are exactly the trial's log from the first sample to the last, field by field, with nothing dropped, and that the trial was finished as completed in a valid state |
| TrialDelivery.CompleteTrialDrains | packages/zfc_calibration_analysis/zfc_calibration_analysis/analysis.py:81-120 | delivered in order, with dropped counts that may be behind, a trial that ended well drains if and only if its log is acceptable |
| ThreadDelivery.DrainedFromThreads | packages/zfc_calibration_analysis/zfc_calibration_analysis/analysis.py:81-120 | under every interleaving of the two threads' loads and stores, whatever of what they published is delivered, drained implies that the rows are exactly the samples of the trial that they delivered, numbered from one to the last, with nothing dropped or failed, and that the producer finished it as completed in a valid state |
| ThreadDelivery.ThreadsTrialDrains | packages/zfc_calibration_analysis/zfc_calibration_analysis/analysis.py:81-120 | and a trial of theirs that ended well, delivered in order, drains if and only if its samples are acceptable |
| TrialDelivery.AcceptsExactly | packages/zfc_calibration_analysis/zfc_calibration_analysis/analysis.py:85-106 | fed a log, the receiver ends holding all of it or with an error, by exactly the conditions on validity, finiteness, time and capacity |
| TrialReceiver.TrialCapture.ReceiveBatch | packages/zfc_calibration_analysis/zfc_calibration_analysis/analysis.py:81-106 | the callback's loop is the fold of the acceptance rule over the batch |
| TrialReceiver.TrialCapture.Objection | packages/zfc_calibration_analysis/zfc_calibration_analysis/analysis.py:88-103 | the first objection to a sample, in the order the source makes them |
| TrialReceiver.TrialCapture.ReceiveStatus | packages/zfc_calibration_analysis/zfc_calibration_analysis/analysis.py:108-116 | the terminal of another trial is an error, an unsuccessful or incomplete one too |
| TrialReceiver.StatusTaken | packages/zfc_calibration_analysis/zfc_calibration_analysis/analysis.py:110-118 | which terminals leave an error, and that one of another trial changes nothing else |
| TrialReceiver.BatchTaken | packages/zfc_calibration_analysis/zfc_calibration_analysis/analysis.py:81-108 | a message with a loss, or after one, adds no row; without an error every sample of a message is a row |
| DriveProfile.MasksDecode | packages/zfc_ethercat_core/src/cia402.cpp:11-46 | the masked comparisons decode every 16-bit statusword to the state whose pattern it has, and the quick enabled test agrees |
| DriveProfile.EnablingReaches | packages/zfc_ethercat_core/src/cia402.cpp:48-84 | a drive that answers as CiA DSP 402 section 10 says is enabled after at most four exchanges and stays so |
| DriveProfile.EnablingHolds | packages/zfc_ethercat_core/src/cia402.cpp:48-102 | while it is enabled a drive is asked for its actual position in CSP; each word is given in exactly the states that call for it |
| DriveProfile.StoppingDisables | packages/zfc_ethercat_core/src/ethercat_system.cpp:59-73 | the stop sequence ends with the voltage disabled from every settled state without a fault and every cycle, whatever the feedback on the way |
| DriveProfile.StopSchedule | packages/zfc_ethercat_core/src/ethercat_system.cpp:59-73 | from any cycle on the frames are the rest of twenty that hold an enabled drive, fifty that shut it down and fifty-one that disable the voltage |
| DriveProfile.StopSequence.Start | packages/zfc_ethercat_core/src/ethercat_system.cpp:59-65 | starts from the measured position, skipping the enabled part for a drive that is not enabled |
| DriveProfile.StopSequence.Next | packages/zfc_ethercat_core/src/ethercat_system.cpp:66-73 | the controlword of the cycle, and one cycle on until done |
| CountConversion.CountsSurvive | packages/zfc_ethercat_hardware/include/zfc_ethercat_hardware/si_calibration.hpp:112-143 | to_counts(position(c)) = c for every in-bounds count and either sign of scale |
| CountConversion.PositionQuantised | packages/zfc_ethercat_hardware/include/zfc_ethercat_hardware/si_calibration.hpp:126-143 | an accepted position is met within half a count and within the bounds |
| CountConversion.CloseReferencesPass | packages/zfc_ethercat_hardware/src/ethercat_hardware.cpp:485-502 | two accepted references less than 1000 counts apart are never an excessive increment |
| CountConversion.ThousandApartCanFail | packages/zfc_ethercat_core/include/count_command.hpp:16-26 | at exactly 1000 counts they can be |
| CountConversion.ValidateExact | packages/zfc_ethercat_core/include/count_command.hpp:16-33 | the native check passes exactly the bounded steps that go no deeper into an asserted limit |
| CountConversion.ReferenceIsFirstPair | packages/zfc_ethercat_hardware/include/zfc_ethercat_hardware/si_calibration.hpp:149-179 | over a whole session, suspensions included, the reference is the count of the first two consecutive identical stationary observations and never changes |
| CountConversion.DisplacementBounded | packages/zfc_ethercat_hardware/include/zfc_ethercat_hardware/si_calibration.hpp:155-163 | total displacement is at most the sum of the per-step allowances |
| CountConversion.EncoderSession.Observe | packages/zfc_ethercat_hardware/include/zfc_ethercat_hardware/si_calibration.hpp:149-179 | accepts exactly a later count within the allowance, and changes nothing otherwise |
| EncoderVelocity.AcceptedExactly | packages/zfc_ethercat_hardware/include/zfc_ethercat_hardware/si_calibration.hpp:149-179 | in whole counts and nanoseconds: later, and within the bound per elapsed millisecond, or once the bound if that is less or the session was suspended |
| EncoderVelocity.VelocityIntegrates | packages/zfc_ethercat_hardware/include/zfc_ethercat_hardware/si_calibration.hpp:149-179 | over any session, refusals and suspensions included, the velocities times their times add up to the metres moved since the first accepted count |
| EncoderVelocity.ReferenceSetOnce | packages/zfc_ethercat_hardware/include/zfc_ethercat_hardware/si_calibration.hpp:104-111 | a reference is set once, and a second one agrees with it or is refused |
| CountConversion.EncoderSession.Suspend | packages/zfc_ethercat_hardware/include/zfc_ethercat_hardware/si_calibration.hpp:148 | only marks the session suspended |
| CountConversion.EncoderSession.End | packages/zfc_ethercat_hardware/include/zfc_ethercat_hardware/si_calibration.hpp:147 | forgets everything |
| HardwareRuns.MotionFramesSafe | packages/zfc_ethercat_hardware/src/ethercat_hardware.cpp:482-505 | in every run a frame sent while running is within 1000 counts of its base, the last target sent outside a stop or the position measured at a later hold, no deeper into a limit nor past the actual position towards it, in the soft bounds and within half a count of the request if claimed, and no step at all otherwise |
| HardwareRuns.MotionFrameForm | packages/zfc_ethercat_hardware/src/ethercat_hardware.cpp:501-505 | every such frame enables operation in CSP |
| HardwareRuns.StartupFramesHold | packages/zfc_ethercat_hardware/src/ethercat_hardware.cpp:472-475 | every startup frame targets the measured position |
| HardwareRuns.EveryFrameLegal | packages/zfc_ethercat_hardware/src/ethercat_hardware.cpp:450-544 | every frame and receive of every run is legal to an observer of the bus, and every hold, fault and stop is at the position it saw measured last |
| HardwareRuns.StopFramesHold | packages/zfc_ethercat_hardware/src/ethercat_hardware.cpp:506-521 | every frame of a stop targets the position measured where that stop began, and enables operation only of a drive last seen enabled in CSP |
| HardwareRuns.FrameFollowsReceive | packages/zfc_ethercat_hardware/src/ethercat_hardware.cpp:466-468 | every frame that is not part of a stop follows a receive made since the previous frame |
| HardwareRuns.ReceivesSpaced | packages/zfc_ethercat_hardware/src/ethercat_hardware.cpp:389-395 | receives of one activation are at least 0.5 ms apart |
| HardwareRuns.RunningIsReady | packages/zfc_ethercat_hardware/src/ethercat_hardware.cpp:276-287 | active, not starting and not faulted implies a ready bus, a valid session and its reference; claimed implies it; the position shown is the measured one |
| HardwareRuns.StopIsBounded | packages/zfc_ethercat_hardware/src/ethercat_hardware.cpp:506-521 | from a fault on, without a lifecycle callback, every write that reaches the bus sends one of at most 121 remaining frames, the last disables the voltage and ends in ERROR, whatever is read, claimed and commanded in between |
| HardwareRuns.FramesLeftMeans | packages/zfc_ethercat_hardware/src/ethercat_hardware.cpp:510-516 | frames are left exactly while the component is active and faulted at that position, none exactly when it has ended with the voltage disabled |
| HardwareRuns.StopStarts | packages/zfc_ethercat_hardware/src/ethercat_hardware.cpp:320-339 | a fault captures the measured position, and starts a stop of 121 frames, 101 if the drive is not enabled |
| HardwareRuns.HaltingWrite | packages/zfc_ethercat_hardware/src/ethercat_hardware.cpp:506-521 | a write during a stop is one step of the sequence, and reports failure exactly at its end |
| HardwareRuns.ReadFaultsExactly | packages/zfc_ethercat_hardware/src/ethercat_hardware.cpp:389-449 | a running component faults on a read if and only if the read is too soon, the bus is not ready, the encoder jumped, a write was missed, or a period or gap is out of range |
| HardwareRuns.WriteFaultsExactly | packages/zfc_ethercat_hardware/src/ethercat_hardware.cpp:466-505 | it faults on a write if and only if no read preceded it or the step asked for cannot be converted or is not safe; every other step is sent as asked |
| HardwareStartup.StartingReadFaultsExactly | packages/zfc_ethercat_hardware/src/ethercat_hardware.cpp:389-414 | a starting component faults on a read if and only if the encoder jumped, the first write is late, the startup deadline has passed or a cycle was missed, with the reason of the first of these, and otherwise goes on starting |
| HardwareStartup.StartIsInTime | packages/zfc_ethercat_hardware/src/ethercat_hardware.cpp:407-412 | in every run a component still starting made its last exchange within the deadline of its activation |
| HardwareStartup.StartTimesOut | packages/zfc_ethercat_hardware/src/ethercat_hardware.cpp:407-412 | and its first read past that deadline that reaches the bus faults and starts the stop |
| HardwareStartup.StartEndsExactly | packages/zfc_ethercat_hardware/src/ethercat_hardware.cpp:472-481 | a write ends the start exactly when the bus is ready and the session has given the calibration its reference, and holds the measured position either way |
| HardwareStartup.RunningReadReason | packages/zfc_ethercat_hardware/src/ethercat_hardware.cpp:389-446 | the reason a running component's read records is that of the first thing found wrong, in the source's order, none exactly if it does not fault |
| HardwareStartup.RunningWriteReason | packages/zfc_ethercat_hardware/src/ethercat_hardware.cpp:466-500 | the reason a write records: no read before it, no conversion, too large a step, or deeper into a limit |
| HardwareLifecycle.ReadShows | packages/zfc_ethercat_hardware/src/ethercat_hardware.cpp:242-271 | after every read that reaches the bus the position is shown if and only if the component has started and not faulted |
| HardwareLifecycle.ActivationStarts | packages/zfc_ethercat_hardware/src/ethercat_hardware.cpp:166-191 | what an activation starts from, and that a refused one leaves the component as it was |
| HardwareLifecycle.RelinquishHolds | packages/zfc_ethercat_hardware/src/ethercat_hardware.cpp:340-348 | giving up a claim holds the measured position, and faults exactly on an active component whose command is no number |
| HardwareLifecycle.ShutdownSucceedsExactly | packages/zfc_ethercat_core/src/ethercat_system.cpp:246-273 | a blocking stop succeeds if and only if its whole sequence was exchanged and the last exchange showed the drive disabled over a working bus |
| HardwareLifecycle.StopLeaves | packages/zfc_ethercat_hardware/src/ethercat_hardware.cpp:193-210 | a lifecycle stop suspends the session, holds where the last exchange found the drive and faults unless confirmed; without a stop due it sends nothing |
| HardwareLifecycle.CleanupForgets | packages/zfc_ethercat_hardware/src/ethercat_hardware.cpp:36-48 | cleaning up forgets session, reference and bus but not the first fault |
| HardwareAndDrive.StartsUp | packages/zfc_ethercat_hardware/src/ethercat_hardware.cpp:400-481 | activated at a healthy bus with a settled drive at rest that answers every word as CiA DSP 402 section 10 says, the component can be claimed after the drive's exchanges and two more cycles, at most six, and stays so; the startup timeout must allow for six cycles |
| HardwareAndDrive.RunStartsUp | packages/zfc_ethercat_hardware/src/ethercat_hardware.cpp:166-191 | the same of every run in which such an activation follows |
| HardwareAndDrive.StoppedDriveDisabled | packages/zfc_ethercat_hardware/src/ethercat_hardware.cpp:506-521 | when a stop has ended, every such drive not in a fault of its own has its voltage disabled |
| HardwareSafety.RespondInv | packages/zfc_ethercat_hardware/src/ethercat_hardware.cpp:340-544 | every callback, with any feedback, clock, command and lifecycle order, keeps the component in agreement with the observer |
| HardwareSafety.PreparedSucceeds | packages/zfc_ethercat_hardware/src/ethercat_hardware.cpp:340-369 | a prepared switch succeeds exactly unless relinquishing finds a command that is no number, and then holds the measured position |
| EthercatHardware.Component.Read | packages/zfc_ethercat_hardware/src/ethercat_hardware.cpp:370-449 | the read callback is the specified step: too early, exchange, session, startup checks, running checks |
| EthercatHardware.Component.Write | packages/zfc_ethercat_hardware/src/ethercat_hardware.cpp:450-544 | the write callback is the specified step, and fails exactly when it ends a stop |
| EthercatHardware.Component.PerformSwitch | packages/zfc_ethercat_hardware/src/ethercat_hardware.cpp:340-361 | the switch is the specified step with its result |
| EthercatHardware.Component.PrepareSwitch | packages/zfc_ethercat_hardware/src/ethercat_hardware.cpp:362-369 | refuses exactly what cannot be claimed |
| EthercatHardware.Component.RaiseFault | packages/zfc_ethercat_hardware/src/ethercat_hardware.cpp:320-339 | only the first fault starts a stop; the first reason is kept |
| EthercatHardware.Component.HoldMeasured | packages/zfc_ethercat_hardware/src/ethercat_hardware.cpp:272-275 | target and command go to the measured position |
| EthercatHardware.Component.CopyState | packages/zfc_ethercat_hardware/src/ethercat_hardware.cpp:242-271 | the position is shown only while the component can be claimed |
| EthercatHardware.Component.Activate | packages/zfc_ethercat_hardware/src/ethercat_hardware.cpp:166-191 | the flags and times an activation sets |
| EthercatHardware.Component.Halt | packages/zfc_ethercat_hardware/src/ethercat_hardware.cpp:193-210 | a lifecycle stop: idle, held, and the blocking shutdown when one is due |
| EthercatHardware.Component.Shutdown | packages/zfc_ethercat_core/src/ethercat_system.cpp:246-273 | the loop that stops the drive is the specified sequence of exchanges, with its verdict |
| EthercatHardware.Component.Cleanup | packages/zfc_ethercat_hardware/src/ethercat_hardware.cpp:222-227 | stop, release and reset |
| EthercatHardware.Component.Reset | packages/zfc_ethercat_hardware/src/ethercat_hardware.cpp:36-48 | what a reset clears |
| EthercatHardware.Component.Configure | packages/zfc_ethercat_hardware/src/ethercat_hardware.cpp:146-164 | new settings without a reference, unless they are refused; succeeds exactly if they are not and the master is granted |
| ZeroForceRun.RunSafe | packages/zfc_zero_force_controller/include/zfc_zero_force_controller/zero_force_logic.hpp:68-153 | after any valid activation and any inputs, speed and acceleration are within their limits and a valid reference within its bounds |
| ZeroForceRun.ComplianceSums | packages/zfc_zero_force_controller/include/zfc_zero_force_controller/zero_force_logic.hpp:145-152 | while compliant, position and velocity are the exact sums of velocity and acceleration |
| ZeroForceRun.DeadbandCoasts | packages/zfc_zero_force_controller/include/zfc_zero_force_controller/zero_force_logic.hpp:130-144 | a residual inside the deadband never increases or reverses the speed |
| ZeroForceRun.YieldsToForce | packages/zfc_zero_force_controller/include/zfc_zero_force_controller/zero_force_logic.hpp:132-144 | a larger residual never gives a smaller velocity for the sign +1, nor a larger one for -1 |
| ZeroForceRun.FaultLatched | packages/zfc_zero_force_controller/include/zfc_zero_force_controller/zero_force_logic.hpp:70-71 | the first fault stays latched until the next activation |
| ZeroForceCapture.CaptureExact | packages/zfc_zero_force_controller/include/zfc_zero_force_controller/zero_force_logic.hpp:84-126 | for any forces, the baseline is the mean of exactly ceil(baseline/dt) samples and then frozen, the noise scale the largest deviation from it, and scale^2 * sum the sum of squared deviations |
| ZeroForceCapture.CompliesExactlyWhen | packages/zfc_zero_force_controller/include/zfc_zero_force_controller/zero_force_logic.hpp:92-123 | compliance begins exactly when both counts are complete, with rms^2 * count the sum of squared deviations |
| ZeroForceCapture.AccumulatedStandsFor | packages/zfc_zero_force_controller/include/zfc_zero_force_controller/zero_force_logic.hpp:106-115 | one scaled accumulation adds exactly the square of the deviation |
| ZeroForce.ZeroForceLogic.Activate | packages/zfc_zero_force_controller/include/zfc_zero_force_controller/zero_force_logic.hpp:46-61 | succeeds exactly on valid settings and finite, stationary, moderate feedback in bounds |
| ZeroForce.ZeroForceLogic.Update | packages/zfc_zero_force_controller/include/zfc_zero_force_controller/zero_force_logic.hpp:68-153 | one update of the object is one step of the specified controller |
| ForceResponse.LoadIsInvisible | packages/zfc_zero_force_controller/include/zfc_zero_force_controller/zero_force_logic.hpp:84-152 | adding one constant to every force of a run, capture included, leaves every reference and report unchanged and shifts the baseline by it, wherever both runs stay within the largest force |
| ForceResponse.RestsInDeadband | packages/zfc_zero_force_controller/include/zfc_zero_force_controller/zero_force_logic.hpp:127-152 | a force within the deadband of the captured mean plus the inertial term never sets a carriage at rest in motion |
| ForceResponse.ForceMoves | packages/zfc_zero_force_controller/include/zfc_zero_force_controller/zero_force_logic.hpp:127-152 | a larger measured force never moves the reference against the response sign, and strictly with it out of the deadband, with a positive gain and off the limits |
| ForceResponse.ComplianceIsLeaky | packages/zfc_zero_force_controller/include/zfc_zero_force_controller/zero_force_logic.hpp:127-152 | over updates that no limit holds back, the velocity is in closed form the first one and every push of the force since, each decayed once per update |
| ZeroForceFaults.UpdateFaultsExactly | packages/zfc_zero_force_controller/include/zfc_zero_force_controller/zero_force_logic.hpp:70-149 | for every phase, the inputs on which an update raises each fault, and that until compliance the reference is the measured position |
| ZeroForceFaults.ActivatesExactlyWhen | packages/zfc_zero_force_controller/include/zfc_zero_force_controller/zero_force_logic.hpp:46-61 | activation succeeds exactly on valid settings and finite feedback at rest, within the largest force and in bounds |
| ZeroForceFaults.RunConsistent | packages/zfc_zero_force_controller/include/zfc_zero_force_controller/zero_force_logic.hpp:70-126 | while valid, every late period is counted once, and progress is one exactly while it complies |
| Relay.PlotsFollow | packages/zfc_operator/zfc_operator/relay.py:103-130 | for any stream the samples plotted per controller have strictly increasing (trial, sequence), and those of one trial are at least a period apart in source time |
| Relay.TickAddsFresh | packages/zfc_operator/zfc_operator/relay.py:154-196 | a tick adds nothing, the idle fallback, or one sample fresh in both clocks, marked invalid unless valid and finite |
| Relay.OldestFreshPlotted | packages/zfc_operator/zfc_operator/relay.py:157-165 | with a fresh latest sample, a tick plots the oldest fresh one of the queue |
| Relay.PlotRelay.Receive | packages/zfc_operator/zfc_operator/relay.py:103-130 | the loop over a batch is the fold of the rule for one sample, and touches no other controller |
| Relay.PlotRelay.TakeOne | packages/zfc_operator/zfc_operator/relay.py:104-130 | late, reversed and malformed samples, and the decimation of the rest |
| Relay.PlotRelay.PublishAll | packages/zfc_operator/zfc_operator/relay.py:154-196 | each controller's channel makes its own step |
| Relay.PlotRelay.Choose | packages/zfc_operator/zfc_operator/relay.py:158-162 | stale entries go from the front, and the first fresh one is selected |
| RelayKeeping.AcceptedIsKept | packages/zfc_operator/zfc_operator/relay.py:113-130 | in every run an accepted sample that is the first of its trial or at least a period after the last kept becomes the queue's last entry, and any other leaves the queue |
| RelayKeeping.OthersAreNot | packages/zfc_operator/zfc_operator/relay.py:104-121 | what a malformed, a late and a reversed sample change |
| RelayKeeping.FallbackExactlyWhen | packages/zfc_operator/zfc_operator/relay.py:154-196 | a tick with no latest sample, a stale one or unfit hardware leaves the fallback as the last publication, and no other tick publishes it |
| CoordinatorSafety.OneInFlight | packages/zfc_calibration_analysis/zfc_calibration_analysis/node.py:480-567 | under any interleaving at await points at most one run, operator command or apply is in flight, and it is what makes the node busy |
| CoordinatorSafety.FailureEndsStopped | packages/zfc_calibration_analysis/zfc_calibration_analysis/node.py:664-676 | a failed or cancelled run, and a failed operator stop or start, has failed at an event of its own after which nothing is admitted and no activation requested; its end shows a stop as acknowledged exactly if none was found unverified since, and then both motion controllers were listed inactive by the final listing of a stop made after that failure |
| CoordinatorSafety.NothingAfterLatch | packages/zfc_calibration_analysis/zfc_calibration_analysis/node.py:564-567 | once a stop is unresolved or the clock has gone back no activation is requested, no operation admitted and none succeeds |
| CoordinatorSafety.SequencerAfterStop | packages/zfc_calibration_analysis/zfc_calibration_analysis/node.py:596-620 | the sequencer is activated only by a calibration, while listed inactive, and after a verified stop of that calibration's own with no activation since |
| CoordinatorSafety.EveryEventLegal | packages/zfc_calibration_analysis/zfc_calibration_analysis/node.py:330-363 | every request, listing, failure and end of every run is legal to an observer: activations only by an operation that was asked for them and of a controller just listed inactive, and a success only with what it promises done |
| CoordinatorSafety.ComplianceAsAsked | packages/zfc_calibration_analysis/zfc_calibration_analysis/node.py:652-653 | compliance is activated only by an operator's start or a calibration asked to activate it, and while that operation's last listing showed it inactive |
| CoordinatorSafety.SuccessMeans | packages/zfc_calibration_analysis/zfc_calibration_analysis/node.py:480-662 | a successful calibration has had the sequencer activated, and its last listing showed compliance active if that was asked for and inactive if not; likewise for every other operation |
| CoordinatorSafety.AdmittedExactlyWhen | packages/zfc_calibration_analysis/zfc_calibration_analysis/node.py:480-483 | a request is admitted if and only if nothing is in flight, nothing has been latched and the file worker is idle; otherwise nothing changes |
| CoordinatorSafety.PrepareNeedsHardware | packages/zfc_calibration_analysis/zfc_calibration_analysis/node.py:492-494 | preparing fails at once in simulation |
| CoordinatorProgress.CanSucceed | packages/zfc_calibration_analysis/zfc_calibration_analysis/node.py:480-662 | from every state that admits it every operation can succeed, a preparation only where there is hardware, after which the node admits the next |
| CoordinatorProgress.CalibrationCanSucceed | packages/zfc_calibration_analysis/zfc_calibration_analysis/node.py:576-662 | so can a calibration, with the sequencer activated after a verified stop of its own and compliance listed active at its end if and only if that was asked for |
| CoordinatorSteps.FailedAwaitStops | packages/zfc_calibration_analysis/zfc_calibration_analysis/node.py:664-671 | an await with any other than the outcomes it needs fails the operation, which then does nothing but stop |
| CoordinatorSteps.StopDeactivates | packages/zfc_calibration_analysis/zfc_calibration_analysis/node.py:335-337 | a stop first asks for the deactivation of exactly the controllers listed active |
| CoordinatorSteps.StopRestores | packages/zfc_calibration_analysis/zfc_calibration_analysis/node.py:338-363 | it then configures exactly those listed unconfigured, and waits for both to be listed inactive twice |
| CoordinatorSteps.ReversalLatched | packages/zfc_calibration_analysis/zfc_calibration_analysis/node.py:672-676 | a clock that went back is latched when the stop of a failed calibration has raised |
| CoordinatorSteps.ReversalLatchedVerified | packages/zfc_calibration_analysis/zfc_calibration_analysis/node.py:668-676 | and when it has been verified |
| CoordinatorSteps.ReversalForgotten | packages/zfc_calibration_analysis/zfc_calibration_analysis/node.py:488 | an earlier operation's reversal is forgotten at the next admission |
| CoordinatorSafety.SuccessAcknowledges | packages/zfc_calibration_analysis/zfc_calibration_analysis/node.py:480-567 | a successful calibration, observation or preparation ends with the stop acknowledged, an observation after a verified stop of its own; a successful start ends showing what was shown when it was admitted |
| StaleAcknowledgement.StartKeepsAcknowledgement | packages/zfc_calibration_analysis/zfc_calibration_analysis/node.py:458-478 | from every state in which it is admitted a start can succeed, and then shows as acknowledged what was so before, with compliance listed active |
| StaleAcknowledgement.ObserveAcknowledges | packages/zfc_calibration_analysis/zfc_calibration_analysis/node.py:330-363 | from every state in which it is admitted an observation can succeed, with its stop acknowledged |
| StaleAcknowledgement.StaleWhileComplying | packages/zfc_calibration_analysis/zfc_calibration_analysis/node.py:458-478 | on either backend a run ends with a successful start, compliance listed active and a stop shown as acknowledged |

## Left out

- Envelope.StaysInside: only for settings that pass the closed-form check; `LeapCounterexample.EnvelopeCanFail` shows that valid ones can fail it.
- CalibrationRun.ReferenceInsideEnvelope: only for trajectories that never leap; the exact condition is that of `CalibrationPlan.ExcursionExactlyWhen`.
- CalibrationRun.TrackedNeverOutOfBounds: only for trajectories that never leap; the exact condition is that of `CalibrationPlan.EnvelopeExactlyWhen`.
- CalibrationRun.EnvelopeHolds: a sufficient condition on the trajectory; the exact one is that of `CalibrationPlan.EnvelopeExactlyWhen`.
- CalibrationRun.EnvelopeChecked: a sufficient condition on the settings in closed form; the exact one is on the plan.
- CalibrationPlan.SteadyPlan: a sufficient condition for such a plan.
- TrajectoryEnds.CrossingComes: only for trajectories that never leap.
- TrajectoryEnds.PlanIsFinite: only for trajectories that never leap.
- TrajectoryEnds.TrajectoryFinishes: nothing is said of the end of a trajectory that leaps.
- ScaleRefinement.RunAgrees: count parameters so large that the guards kept against roundoff reach a whole count are excluded, because there the recurrence in counts, which has no guard, differs.
- CaptureRing.ExecuteKeepsInv: interleavings are sequentially consistent, because each acquire load reads a release store of the one other thread; weaker reorderings are not modelled.
- TelemetryPipeline.BeginWaitsForStatus: trial ids increase, which the controllers check before they call begin.
- TrialReceiver.DrainedIsComplete: the coordinator's filter of samples of known earlier trials in front of the receiver is not modelled.
- HardwareRuns.StopIsBounded: a lifecycle callback during the stop is not covered; it has a blocking stop of its own, `EthercatHardware.Component.Halt`.
- EthercatHardware.Component.CopyState: the velocity, the forces and the raw status values it shows are not modelled.
- HardwareAndDrive.StartsUp: the drive shows CSP mode and one unchanging count at rest in every cycle, and the bus is healthy throughout.
- HardwareAndDrive.RunStartsUp: the same of the part of the run after the activation.
- PipelineRefinement.InterleavingIsRun: the caller's begin, sample and finish calls are serialized and trial ids increase, which the controllers see to.
- HardwareRuns.ReceivesSpaced: the clock is positive and never goes back; the wrap of unsigned differences is not modelled.
- HardwareSafety.RespondInv: a component is not configured while it is active, which the lifecycle guarantees.
- CoordinatorSteps.ReversalForgotten: a calibration forgets it after its first await, the one between the goal's acceptance and its execution.
- CoordinatorSafety.EveryEventLegal: the coroutines are their sequences of awaits; awaits that change no controller state are one kind of step, and the checks between them are exceptions that may happen at any await.
- Rounding of floating-point arithmetic, and with it overflow of finite operands and the purpose of the compensated sums.
- Widths of counters that only count (sequence numbers, drops, excessive periods); the ring's indices do wrap.
- The coordinator and its node are not a class: a coroutine has no counterpart as a method, so the model is a state machine over its awaits.
- The hardware component's status bits are one record field, its diagnostic records and counters and the velocity and force it shows are not modelled.
- Parsing of installation data and hardware parameters; a calibration arrives as a record with the range checks applied.
- The relay's measured-state publisher, hardware query and inertial compensation value; the idle fallback is its key.
- IgH calls, PDO registration, SDO tables and message copying; a read is an arbitrary snapshot and a write one appended frame.
- ROS lifecycle glue, parameters, launch files, descriptions and bridges.
- The regression, result files and plots of the analysis package.
- The operator panel, plot clock, probes, profile generators and timing tools.
- The diagnostic sink and the timing buffer, which are simpler copies of the capture ring.
