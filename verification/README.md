# Verified model of the driver-assistance runtime

The runtime is a set of processes that share memory: a vision model process, a CAN process and a
100 Hz control process. This project models the parts in which a mistake would be hard to see, and
proves what they are for.

* **Shared memory** (`Seqlock`, `FrameRing`, `FrameDelivery`, `LatestChannel`, `CanQueue`, `CanQueueCalls`).
  Every load, every store and every single byte of a copy is a step of its own; the processes interleave
  freely and a writer may die between any two steps and start again. Readers of the frame ring and of the latest-value channel
  never get a torn value and do get the newest one when nobody disturbs them, and the CAN queue is a FIFO
  with a bounded ring.
* **Worker threads** (`LearnerStore`, `PlannerWorker`). The mailboxes under a mutex: nothing asked for
  is lost at stop, no file is ever left half written however the process dies, results come out in order
  and the newest one wins.
* **Lateral control** (`LateralController`). Engage handshake with the panda, block reasons, torque
  limiter, and the torque ramp above the fault angle against the cut of the steer request, over whole
  runs; and, from the inputs alone, exactly when a tick steers.
* **CAN frames** (`BitFields`, `Lkas11Frame`, `Clu11Frame`, `Mdps12Frame`, `LateralFrames`). Bit loops over
  an eight-byte buffer; what is sent is what decodes, and what was decoded goes out again unchanged; what a
  lateral tick puts on the wire.
* **Vision cruise** (`AdaptiveCruise`, `CruiseGates`, `CruiseSessions`, `CruiseTarget`, `CruiseRuns`). The car never reports its set speed; the controller adds up its
  own button presses, and the sum is shown to be the set speed of a car that sees only button edges. When it may press, what a session
  remembers and what it aims at are said by the inputs of a drive and their history.
* **Online estimators** (`CarKalman`, `Jacobi`, `SmallestEigenvector`, `Rings`, `TorqueBuckets`,
  `TorqueFit`, `TorqueEstimator`, `TorqueCache`). The Joseph-form Kalman update in place, cyclic Jacobi
  rotations, bucketed points, the total least squares fit, interpolation over a ring, and the cache.
* **Timed machines** (`Calibrator`, `DepartureAlert`, `ControlHolds`, `LaneTimes`).

`Matrices`, `Rounding` and `Options` hold what several of these need.

## How the model reads

Code that changes fields or arrays in place is a class or a method here, with the same branches in the
same order. Its contract equates the new state with a function of the old one (`Step`, `Tick`, ...), and
the results are lemmas about that function and about runs of it. Protocols between processes are state
machines: a step that is not enabled changes nothing, and a run is any sequence of steps.

`float` and `double` are real numbers; where the code tests for a non-finite value the input carries
that case. Square root appears only through its defining equation, as a function handed in. Ticks,
counters and torque are integers; unsigned subtraction and the wrap of event numbers are written out.
A few named functions around products and quotients (`Prod`, `Ratio`, `Mix`) and the `hide` statements
keep the solver away from nonlinear terms.

Sequential consistency is assumed between processes.

## Results that turned out conditional

* A queue reset that overlaps a pop in flight can break the queue. It stays a FIFO throughout a run exactly
  if no pop stores its counter that loaded the old one before the latest reset had stored both, unless what
  that pop holds is the oldest unread batch all the same (`CanQueue.SoundExactly`). What a break looks like
  depends on what was pushed in between: with nothing, the queue is wedged until the next reset
  (`CanQueue.OverlappingResetWedges`, `CanQueue.WedgedForever`); with two pushes, a batch from before the
  reset silently takes the place of the first one after it (`CanQueue.OverlappingResetMisleads`).
* Every cut of the steer request begins at zero torque exactly when the frame limit and the frame of the cut
  leave the rate limiter time to come down from the maximum (`LateralController.CutsAtZeroExactly`). With the
  fixed torque limits that is a frame limit of at least 54; the loader accepts shorter ones, and then a drive
  is cut with torque left (`LateralController.FallTooSlow`). The shipped limit of 89 is long enough. With a
  limit below one every active tick above the fault angle is cut (`LateralController.NoLimitAlwaysCuts`).
* Given timely ticks and sessions anchored at the car's set speed, the cruise controller loses that speed
  when a mismatch check overwrites the sum of presses with a reading that, brought into range, is not the
  set speed, and in no other way (`AdaptiveCruise.AgreesExactly`). A driver who holds the gas pedal for some
  ten seconds after one of the controller's SET presses brings that about with every accepted parameter
  (`CruiseRuns.OverrideLosesTheCar`); no adjustment is marked as outstanding then.
* A press that begins while the car still sees the previous one is lost. That can happen exactly when the
  frames of one pulse take at least the command interval (`CruiseRuns.MergesExactly`), so the tracking result
  asks that they take less, as they do with every accepted parameter at ticks under 50 ms.
* Decoding an LKAS11 or CLU11 frame gives back the sent values exactly when all of them fit their
  fields (and the speeds are whole units); otherwise it gives the saturated ones.
* A calibration block is not the mean of the samples it was filled from, although a block's place in the mean
  of the blocks suggests it: the running sum weighs the sample it adds by what is left of the block, so the
  second sample already has 99 parts in a hundred (`Calibrator.BlockIsNotMean`). What does hold is that a
  block stays inside the box of its samples and forgets what it held before (`Calibrator.AddedShrinks`).
* The fitted direction is exactly the best one when the sweeps end diagonal (`TorqueFit.FitIsBest`). In real
  arithmetic they only come close, and it is then the best to within a bound that fifty sweeps make 2^-50
  (`TorqueFit.FitIsNearlyBest`).
* The standstill times behind a departure alert hold for a clock that does not run backwards.

## Model

| member | source | states |
|---|---|---|
| Seqlock.WriterStepKeeps | src/ipc_channels.cc:132-147 | Any writer step, dying included, keeps "an even non-zero counter names a completed write that is what memory holds", never reuses a sequence number, and leaves memory alone while the counter stays even. |
| Seqlock.WholeWriteCompletes | src/ipc_channels.cc:287-301 | Undisturbed, a write of anything that fits ends with that payload completed under the next even number and held by the memory, whatever order its bytes are copied in; bytes past it stay. |
| Seqlock.OversizeIsRefused | src/ipc_channels.cc:289 | A payload larger than the memory changes nothing at all. |
| FrameRing.NoTornFrame | src/ipc_channels.cc:154-224 | In every interleaving a successful copy delivers exactly the bytes of one completed write of the requested frame, each at its own place in the caller's layout, and never a frame already replaced when the call began. |
| FrameRing.QuietCallSucceeds | src/ipc_channels.cc:154-175 | A call that no writer step overlaps succeeds in its first attempt when the slot holds its frame, whatever other readers do. |
| FrameRing.QuietCallAnswers | src/ipc_channels.cc:154-175 | While no writer step touches the slot a call delivers exactly if the slot holds the frame asked for, and refuses otherwise. |
| FrameRing.QuietCallEnds | src/ipc_channels.cc:154-175 | Every such call can be brought to that answer: in one attempt, the bytes moved in any order, or after the last. |
| FrameDelivery.DeliversTheImage | src/ipc_channels.cc:154-224 | In every interleaving each delivery is, pixel by pixel, the image of one completed write of the frame asked for: one block of width * height * 3 / 2 bytes, or height rows of luma and half as many of chroma at their strides. |
| FrameDelivery.WrittenIsCopied | src/ipc_channels.cc:132-224 | A frame that is written and then asked for, each left alone, is delivered as that image to every destination whose strides are at least the width. |
| FrameDelivery.GivesUpAfterEight | src/ipc_channels.cc:154-175 | A call each of whose attempts finds the slot unready, with an older frame, or overtaken while it copies makes eight of them, and is then refused. |
| FrameDelivery.NewerIsRefused | src/ipc_channels.cc:163-165 | A slot with a newer frame is not tried again. |
| FrameRing.StridedInjective | src/ipc_channels.cc:179-190 | Rows at least as far apart as they are wide never share a destination byte, in order. |
| FrameRing.MoveKeeps | src/ipc_channels.cc:166-170 | A byte moved while the counter still reads as before is that frame's byte, and no other destination changes. |
| FrameRing.RunKeeps | src/ipc_channels.cc:132-224 | The whole-system invariant holds after every run of writer and reader steps. |
| FrameRing.CopyRows | src/ipc_channels.cc:186-189 | The row-by-row copy puts every plane byte at its strided place and changes nothing else. |
| FrameRing.CopyPlane | src/ipc_channels.cc:179-190 | Both branches of the plane copy have that effect; the padding keeps its value. |
| LatestChannel.ReadsWholePublishesInOrder | src/ipc_channels.cc:289-338 | In every interleaving each value handed over is one whole completed publish of the reported size, and a reader's sequence numbers are even and strictly rise. (That values are handed over at all is the next three rows.) |
| LatestChannel.QuietReadsAnswer | src/ipc_channels.cc:303-338 | While only readers run, every read succeeds with exactly the newest completed publish if the counter is even and not zero and the payload neither empty nor larger than the buffer, and fails if not; the value is handed over once. |
| LatestChannel.WholeReadAnswers | src/ipc_channels.cc:303-338 | A read left alone comes to its end in one go with that answer, and changes nothing for anybody else. |
| LatestChannel.PublishedIsRead | src/ipc_channels.cc:287-338 | A publish and then a read, each left alone: any payload that is not empty and no larger than memory and buffer is what the reader is handed, under the new number. |
| LatestChannel.GivesUpAfterFour | src/ipc_channels.cc:303-319 | A read during each of whose attempts a publish begins hands nothing over, goes on for four attempts, and then fails. |
| LatestChannel.ReadIsFresh | src/ipc_channels.cc:303-319 | What a read returns was still the newest completed publish at some moment after the read began. |
| LatestChannel.AcceptKeeps | src/ipc_channels.cc:311-316 | When the counter reads as before the copy, the buffer holds that publish. |
| CanQueue.FifoOverAllRuns | src/ipc_channels.cc:427-459 | In every interleaving that keeps resets and pops apart the popped batches are, at every moment, exactly the first accepted ones in order, the depth stays within the ring, and unread batches are intact. |
| CanQueue.SoundExactly | src/ipc_channels.cc:427-459 | With resets overlapping pops in any way, that holds throughout a run if and only if no pop stores its counter that loaded the old one before the latest reset had stored both, other than one that holds the oldest unread batch. |
| CanQueue.RefusedIffFull | src/ipc_channels.cc:436-445 | A push is refused exactly when the ring was full when it read the read counter. |
| CanQueue.EmptyIffNothing | src/ipc_channels.cc:447-459 | A pop that no reset overlaps finds nothing exactly when everything accepted had been popped when it read the write counter. |
| CanQueueCalls.PushAccepts | src/ipc_channels.cc:436-445 | A push left alone, its words copied in any order, is accepted as the newest batch while the ring has room, and otherwise changes nothing. |
| CanQueueCalls.PopReturns | src/ipc_channels.cc:447-459 | A pop left alone hands out the oldest unread batch while there is one, and otherwise nothing. |
| CanQueueCalls.CheckExactly | src/ipc_channels.cc:451-454 | Whatever the counters, a pop goes on to copy exactly when the write counter it loaded is ahead of the read counter by no more than the ring, and otherwise hands out nothing. |
| CanQueueCalls.ResetEmpties | src/ipc_channels.cc:427-434 | A reset left alone forgets everything, clears every slot, and does nothing else. |
| CanQueue.SlotsApart | src/ipc_channels.cc:441 | Unread batches never share a slot. |
| CanQueue.OverlappingResetWedges | src/ipc_channels.cc:427-459 | A run of a fresh queue of two slots: push, a pop up to its copy, a whole reset, then the pop stores its counter; the queue is left behind its own reader. |
| CanQueue.OverlappingResetMisleads | src/ipc_channels.cc:427-459 | The same with two pushes before the pop stores its counter: not wedged, but a batch from before the reset was handed out in place of the first accepted since. |
| CanQueue.WedgedForever | src/ipc_channels.cc:436-459 | From a queue behind its own reader no push is accepted and no pop succeeds until the next reset. |
| LearnerStore.StoppedStoreIsComplete | src/k230_controlsd.cc:385-445 | In every interleaving without a failing write or a death, once the thread is gone, and whenever it rests, each path holds exactly what was last asked for it: the last content, or nothing after a removal. |
| LearnerStore.NothingIsLost | src/k230_controlsd.cc:404-438 | From whatever an earlier life left on the disk, mailbox, batch in hand and files together determine the last request for each path at every moment. |
| LearnerStore.FilesAreNeverTorn | src/k230_controlsd.cc:421-434 | Temporary files are truncated and filled byte by byte, writes may fail, and the process may die and start again at any step: at every moment each path holds a content handed over whole, or what it held at the start. |
| LearnerStore.InPlaceTears | src/k230_controlsd.cc:426-434 | The rename is needed: written in place, any content of two bytes or more is left torn by a death after a proper part of it. |
| LearnerStore.NoLitter | src/k230_controlsd.cc:421-438 | As long as the process lives no temporary file stays behind, failed writes included: one is there only while it is written, or if an earlier life left it. |
| LearnerStore.ThreadSettles | src/k230_controlsd.cc:385-445 | From any moment the thread can go on without failing until it rests, and until it is gone after a stop, so the destructor returns; each path then holds what mailbox, batch and files had in store for it. |
| LearnerStore.EveryStepIsNearer | src/k230_controlsd.cc:404-438 | Whichever step the thread takes brings that rest nearer: rounds, jobs, files to begin, bytes to write. |
| PlannerWorker.PublishesInOrder | src/k230_controlsd.cc:646-723 | Results are published in the order of their requests, each planned with every parameter update submitted before its request, and the one on show is the newest. |
| PlannerWorker.RestsOnTheNewest | src/k230_controlsd.cc:646-723 | When the thread rests with nothing pending, the shown result answers the last request and the planner has the last parameters. |
| PlannerWorker.AnswersTheNewest | src/k230_controlsd.cc:646-723 | From every moment of every run the thread's own steps alone bring it to its end after a stop, and otherwise to rest with the last request answered under the last parameters; each of its steps is one of a number known beforehand. |
| LateralController.TorqueStaysLimited | src/lateral_controller.cc:256-294 | Over every run the torque stays within the maximum, is non-zero only while active, grows by at most the up rate, and a same-sign fall while active is at most the down rate. |
| LateralController.SettlesOnTarget | src/hyundai_can.cc:200-223 | With request and driver torque constant, the distance to the driver-clamped target shrinks by at least the smaller rate each tick, down to zero. |
| LateralController.RateClampIsNearest | src/hyundai_can.cc:213-222 | The rate limit gives the allowed torque nearest to the wanted one: away from zero by at most one rate, towards it by at most the other, across it by at most the first. |
| LateralController.DriverClampKeepsMost | src/hyundai_can.cc:200-211 | The driver's torque leaves the request its side, and as much of it as it allows. |
| LateralController.DriverClampFollows | src/hyundai_can.cc:200-211 | Pushing harder to one side never allows less torque to that side. |
| LateralController.DesiredIsNearest | src/lateral_controller.cc:231-249 | The torque asked for is the nearest whole number to the controller's torque times the driver's share, and above the fault angle times what is left of the ramp, one part less each frame. |
| LateralController.DriverTakesOver | src/lateral_controller.cc:357-385 | After a hundred ticks of the driver turning, nothing is asked for. |
| LateralController.DriverLetsGo | src/lateral_controller.cc:357-385 | After he lets go the share grows by at least five hundredths a tick, to all of it. |
| LateralController.EnvelopeStep | src/lateral_controller.cc:239-249 | If the ramp falls by at most the down rate less one per frame, the rounded ramp never falls faster than the rate limiter can follow. |
| LateralController.TorqueUnderRamp | src/lateral_controller.cc:225-258 | Then over every run the applied torque is under the ramp on every frame. |
| LateralController.RampReachesZero | src/lateral_controller.cc:225-258 | After any number of ticks in a row above the fault angle that covers the ramp and a fall from the maximum at the down rate, the applied torque is zero. |
| LateralController.CutBeginsAtZeroTorque | src/lateral_controller.cc:225-345 | If the maximum is at most the down rate times one more than the frame limit, the applied torque is zero on the first tick of every cut. |
| LateralController.CutsAtZeroExactly | src/lateral_controller.cc:225-345 | For all parameters the loader accepts and limits under which torque can build up, every cut of every run begins at zero torque if and only if that holds. |
| LateralController.FallTooSlow | src/lateral_controller.cc:225-345 | If it does not, a drive that builds up the full torque and then enters the fault angle is cut with torque left. |
| LateralController.AcceptedLimitsThatFit | src/control_params.cc:20-24 | With the fixed torque limits 384 and 7, cuts begin at zero exactly for frame limits of at least 54. |
| LateralController.UncutStretch | src/lateral_controller.cc:314-345 | With any limit of at least one, no run has more consecutive active uncut ticks above the angle than the limit. |
| LateralController.CutBeginsExactly | src/lateral_controller.cc:314-345 | A cut begins on exactly those ticks that are active above the angle and come right after as many such uncut ticks as the limit. |
| LateralController.CutComesOnTime | src/lateral_controller.cc:317-328 | From any tick of any run with the counter clear and no cut, held active above the angle, the cut begins exactly the limit of ticks later and on no earlier one. |
| LateralController.CutIsReached | src/lateral_controller.cc:75-345 | Such runs exist for every accepted limit: SET pressed and released, confirmed by the panda, any time straight ahead, then the fault angle. |
| LateralController.CutLastsExactly | src/lateral_controller.cc:325-344 | With any limit of at least one, every cut lasts exactly the configured ticks unless the state is reset, and then ends. |
| LateralController.NoLimitAlwaysCuts | src/lateral_controller.cc:325-326 | With a limit below one every active tick above the angle is cut. |
| LateralController.ErrorsCutExactly | src/lateral_controller.cc:331-344 | Without fault avoidance by angle, over every run: the request is cut on exactly the ticks on which the MDPS counts more errors than the limit, and on those that follow the beginning of a cut without a reset by fewer ticks than a cut lasts. |
| LateralController.ShippedParametersFit | src/lateral_controller.cc:239 | The shipped values let the limiter follow the ramp of 69 ticks and reach zero by its end. |
| LateralController.HandshakeTick | src/lateral_controller.cc:82-176 | One tick: active implies engaged, a hard block never ends engaged, pending is less than a second old and never renewed, and a pending request that ends does so as exactly one of confirmed, rejected, cancelled, hard-disengaged. |
| LateralController.ActiveExactly | src/lateral_controller.cc:82-176 | Without forcing, a tick steers if and only if: engaged after its buttons, enabled, seeds, fresh vehicle state, finite speed, no door, belt, ESP, park brake, brake or MDPS fault, gear D, live parameters acceptable, panda ready and allowing, ESP data where used, debounced path, plan valid and young enough. |
| LateralController.EngagedExactly | src/lateral_controller.cc:120-176 | After any tick without forcing: engaged, pending, rejected and cleared, each if and only if, by what was engaged, pending or newly asked for and the kind of block: a hard one ends them all, a refusing one what is pending or new, a transient one is waited for a second at most. |
| LateralController.FaultDisengages | src/lateral_controller.cc:120-176 | With any of those vehicle faults, or disabled, an engaged controller ends disengaged and cleared with zero torque, whatever the panda says. |
| LateralController.HoldExactly | src/lateral_controller.cc:177-182 | The request is held at zero torque exactly while nothing but the path or the plan itself is missing. |
| LateralController.ForcedTick | src/lateral_controller.cc:120-182 | With engagement forced the buttons do not matter and nothing is rejected; steering, holding and clearing follow all other inputs as without it. |
| LateralController.ReasonIsTrue | src/lateral_controller.cc:416-474 | Each reason shown for not steering is one that is there. |
| LateralController.KindsByInputs | src/lateral_controller.cc:416-474 | Which inputs give a hard, a transient and an availability block, and none: vehicle faults before the panda, the panda before the path. |
| LateralController.PendingImpliesEngaged | src/lateral_controller.cc:140-175 | Over every run pending implies engaged. |
| LateralController.GraceIsNeverExtended | src/lateral_controller.cc:140-175 | A pending request goes back to one SET release less than a second ago and has been pending ever since. |
| LateralController.PathReturnsLate | src/lateral_controller.cc:92-103 | After a tick with an unusable path, steering is active again only once the path was usable for half a second without a break. |
| LateralController.Controller.Update | src/lateral_controller.cc:75-297 | The whole tick over the controller's fields equals the step function, whose every gate is pinned to the inputs by ActiveExactly, FaultDisengages, HoldExactly and DesiredIsNearest. |
| LateralController.Controller.UpdateButtonState | src/lateral_controller.cc:300-311 | SET released engages, CANCEL pressed disengages and clears the control state, only on a change. |
| BitFields.GetSignal | src/can_frame.h:40-49 | The bit loop returns the word of the field, low bit first. |
| BitFields.SetSignal | src/can_frame.h:51-63 | The bit loop sets exactly the field's bits to the word's and leaves every other bit of the buffer. |
| BitFields.PackedReadsBack | src/hyundai_can.cc:14-54 | For any layout of disjoint fields, unpacking a packed frame gives the values forced into their fields: the values themselves exactly when all fit. |
| BitFields.UnpackedRestores | src/hyundai_can.cc:71-113 | Packing what was unpacked restores every covered bit and clears the rest. |
| Lkas11Frame.Lkas11RoundTrip | src/hyundai_can.cc:14-126 | Decoding a sent LKAS11 frame gives the sent values, saturated where out of range and exact when and only when all fit; byte 6 is the sum of the other seven modulo 256. |
| LateralFrames.BuildLkasFrame | src/lateral_controller.cc:512-551 | The frame of a tick: its result as a command, with the running count, on the seed. |
| LateralFrames.FrameSays | src/lateral_controller.cc:512-540 | By its bytes that frame carries the tick's torque, a request exactly while it steers or holds and is not cut, the fault bit exactly while it is cut, the count, and state 3 or 4 by the engagement. |
| LateralFrames.RunSays | src/lateral_controller.cc:75-297 | Over every run: while the request is cut, bit 27 of the frame is clear and bit 28 set; otherwise bit 28 is clear and bit 27 set exactly while the tick steers or holds; without a request there is no torque. |
| LateralFrames.CutArrivesAtZero | src/lateral_controller.cc:225-345 | With limits that fit, the first frame whose request is cut carries zero torque. |
| Lkas11Frame.Lkas11Reencoded | src/hyundai_can.cc:71-126 | Encoding what was decoded from any eight bytes restores all of them except byte 6, which becomes the right checksum. |
| Lkas11Frame.CommandArrives | src/hyundai_can.cc:56-126 | A frame built on a seed from the bus decodes to the seed's values with the command applied; what that is, field by field, is CommandDecodes. |
| Lkas11Frame.CommandDecodes | src/hyundai_can.cc:56-126 | On the decoded frame: the commanded torque, a request if and only if asked for and not cut, the fault flag if and only if cut, warning 3 or 0, lanes, state and count as commanded, the option byte 3 under the fix, and every other field as the seed had it. |
| Lkas11Frame.OnTheWire | src/hyundai_can.cc:71-95 | The same fields by the arithmetic of the bytes: torque in byte 2 and the low three bits of byte 3, request and fault in the next two bits, count in the high half of byte 4, and so on. |
| Lkas11Frame.CountsFollow | src/lateral_controller.cc:542-551 | The counts that sent frames decode to rise by one modulo 16 from the first seed's own, whatever later seeds say. |
| Lkas11Frame.SetCommonLkasFields | src/hyundai_can.cc:14-37 | The twenty-two writes with the code's own positions and clamps fill exactly the layout. |
| Lkas11Frame.DecodeLkas11 | src/hyundai_can.cc:71-95 | The reads with the code's own positions decode that layout. |
| Lkas11Frame.CreateLkas11Frame | src/hyundai_can.cc:119-126 | The built frame is that frame under the LKAS11 address, with its checksum. |
| Lkas11Frame.CounterSource.NextLkas11Counter | src/lateral_controller.cc:542-551 | The stored counter continues, or starts one past the seed's. |
| Clu11Frame.RoundTrip | src/hyundai_can.cc:39-113 | Decoding a sent CLU11 frame gives integers saturated into their fields and clamped speeds to within half a unit; exact when and only when everything fits and speeds are whole units. |
| Clu11Frame.Reencoded | src/hyundai_can.cc:39-113 | Encoding what was decoded from any four bytes restores every bit but 26 and 27, which become zero. |
| Clu11Frame.Pack | src/hyundai_can.cc:39-54 | The twelve writes fill exactly the layout, and its first four bytes are the frame. |
| Clu11Frame.CreateClu11Frame | src/hyundai_can.cc:128-142 | The frame keeps the seed except button, speed and running count. |
| Clu11Frame.OnTheWire | src/hyundai_can.cc:97-113 | Buttons, speed, unit and count by the arithmetic of the bytes. |
| Clu11Frame.CommandOnTheWire | src/hyundai_can.cc:128-142 | A built frame says its button, its speed to a quarter of a unit and its count on the wire, whatever the seed. |
| Mdps12Frame.CreateMdps12Frame | src/hyundai_can.cc:144-157 | Only bits 12 and 13, the count byte and the checksum byte change; the checksum is the sum of the other bytes modulo 256. |
| Mdps12Frame.DescriptionIsComplete | src/hyundai_can.cc:144-157 | That description fixes the frame. |
| Mdps12Frame.RebuildForgets | src/hyundai_can.cc:144-157 | Building from a frame already built depends only on the new count. |
| Mdps12Frame.OnTheWire | src/hyundai_can.cc:144-157 | By its bytes: five as in the seed, one fault bit of the second set and one clear, the count, and the sum of the other seven. |
| AdaptiveCruise.TracksTheCar | src/adaptive_cruise.cc:186-400 | In every closed-loop run with timely ticks, whose sessions are opened and anchored at the car's set speed and whose other readings are anything, a session keeps minimum, tracked speed and maximum in order, and the tracked speed is the set speed of a car that obeys button edges, unless a driver's adjustment is outstanding or a mismatch check has overwritten it with something else since. |
| AdaptiveCruise.AgreesExactly | src/adaptive_cruise.cc:265-285 | The two speeds agree throughout such a run if and only if no mismatch check, its timer run out, overwrites the tracked speed with a reading that brought into range differs from the set speed. |
| CruiseRuns.OverrideLosesTheCar | src/adaptive_cruise.cc:186-400 | For all accepted parameters and timely ticks, a run from a fresh controller: a SET press, then the gas pedal held; the check raises the tracked speed, the car's set speed stays, and no adjustment is outstanding. |
| AdaptiveCruise.RangeHolds | src/adaptive_cruise.cc:186-400 | Over every run of any inputs with one speed unit, a session's tracked speed stays between minimum and maximum. |
| AdaptiveCruise.TracksFromStart | gtest/gtest_adaptive_cruise.cc:12-57 | The same from a fresh controller and a released stalk. |
| AdaptiveCruise.PressMovesOneStep | src/adaptive_cruise.cc:334-400 | A pulse start moves the tracked speed by exactly one display step and is never clipped; other ticks' pacing leaves it alone. |
| AdaptiveCruise.PressFits | src/adaptive_cruise.cc:289-365 | A wanted press always lands inside the range, so the extra guards and the clipping never bite. |
| AdaptiveCruise.PressesSettle | src/adaptive_cruise.cc:352-398 | Over every run of ticks under a fixed target the tracked speed stays on its side of the target and comes nearer by exactly one step per press begun, so presses never turn back. |
| AdaptiveCruise.RestsWithinOneStep | src/adaptive_cruise.cc:352-398 | With the gate open and the interval over, no press begins exactly when the tracked speed is within one step of the target; PressExactly says the same by the inputs of a drive. |
| AdaptiveCruise.FiltersStayInRange | src/adaptive_cruise.cc:125-170 | A learned cluster-to-wheel ratio in use lies in its plausible range, and a filtered lead in use in the range of single measurements, whatever the inputs. |
| AdaptiveCruise.PaceLinks | src/adaptive_cruise.cc:352-398 | A press always begins from a released button, since pulse and interval leave a free frame. |
| CruiseRuns.MergesExactly | src/adaptive_cruise.cc:352-398 | No run from a fresh controller ever begins a press while the car still sees a button if and only if the frames of one pulse take less time than the command interval. |
| CruiseRuns.PressCanMerge | src/adaptive_cruise.cc:386-397 | Otherwise such a run: a SET press, a RES press held for its pulse, and a SET press right after it that the car does not take. |
| AdaptiveCruise.AcceptedParametersAreTimely | src/adaptive_cruise.cc:65-79 | Every parameter the loader accepts is timely for ticks under 50 ms. |
| AdaptiveCruise.Controller.Update | src/adaptive_cruise.cc:402-442 | The whole tick over the controller's fields equals the step function; its gate, sessions, targets and filters are pinned to the inputs by CruiseGates, CruiseTarget and CruiseSessions. |
| AdaptiveCruise.Controller.BeginSession | src/adaptive_cruise.cc:111-123 | A plausible speed opens a session with that maximum and no pulse; any other is refused. |
| CruiseGates.PressNeeds | src/adaptive_cruise.cc:334-350 | Over every drive a non-zero button needs: enabled, cruise on and ready, finite speed, no brake, no gas or accelerator now or in the last half second, no driver's button now or in the last two seconds of the session, no press of the main button, and no raising mismatch check in the last thirty seconds since the session was opened or anchored. |
| CruiseGates.GateExactly | src/adaptive_cruise.cc:334-350 | In an open session with a known scale the gate is open if and only if all of that holds. |
| CruiseGates.PressExactly | src/adaptive_cruise.cc:334-398 | Then, with no pulse in progress and the interval over, a press begins exactly when the target is at least one step away: SET below, RES above. |
| CruiseGates.EndsExactly | src/adaptive_cruise.cc:186-211 | A session ends exactly on a tick that is disabled, on which the main button goes down, or on which cruise has been off for three tenths of a second without a break. |
| CruiseGates.MemoryFollows | src/adaptive_cruise.cc:186-287 | At every moment of a drive the two waiting times are those of the last touch in the session and of the last raising check since its anchor. |
| CruiseSessions.OpensExactly | src/adaptive_cruise.cc:111-123 | A session opens exactly when there is none, cruise is enabled and on, the main button does not go down and the driver's set speed is plausible; tracked speed and maximum become that speed or the lowest possible. |
| CruiseSessions.ReanchorsExactly | src/adaptive_cruise.cc:232-263 | It is anchored again exactly when the driver has touched a button since it was last, two seconds ago or longer, holds none, and the display is steady; both speeds become what is shown. |
| CruiseSessions.SteadyMeans | src/adaptive_cruise.cc:239-249 | A steady display has stayed within half a unit of one of its readings for half a second, and one that has shown the same reading that long is steady. |
| CruiseSessions.HeldExactly | src/adaptive_cruise.cc:345-398 | A button is out exactly when a press of it began fewer ticks ago than a pulse has and the gate has been open since; a gate that closes ends the press for good. |
| CruiseSessions.IntervalExactly | src/adaptive_cruise.cc:366-379 | The interval is over exactly when every earlier press, opening or anchoring lies far enough back: the command interval, and after a SET of the same session also the time of one step at the deceleration rate. |
| CruiseSessions.ComparesExactly | src/adaptive_cruise.cc:265-271 | The display is compared with the tracked speed exactly in a session that goes on, cruise on, two seconds after the driver's last touch, five after the last command, with no pulse out. |
| CruiseSessions.OverwritesExactly | src/adaptive_cruise.cc:265-285 | A check overwrites the tracked speed exactly when the display is off by more than five, was so in a comparison at least five seconds earlier, and no agreeing comparison, press, end or anchor lies between; it becomes the reading brought into range. |
| CruiseTarget.TargetExactly | src/adaptive_cruise.cc:289-332 | The target on every tick of every drive: with a lead seen in the session no longer ago than it may be held, the speed the gap asks for within the session's range; once none was seen for the restore delay, the maximum; otherwise the tracked speed. |
| CruiseTarget.KeepsTheGap | src/adaptive_cruise.cc:299-325 | With a lead as fast as the car the target is the car's own speed in the cluster's scale at the wanted gap, and each metre more or less changes it by the gain, up to the two limits. |
| CruiseTarget.LeadIsPredicted | src/adaptive_cruise.cc:299-325 | Any other lead gives its own speed, corrected as for one as fast as the car where it will have come to by the response to the next press, two seconds ahead at most; a lead that draws away is taken to stay. |
| CruiseTarget.ScaleExactly | src/adaptive_cruise.cc:125-149 | Nothing is learned below 30 km/h; an implausible ratio makes the scale unusable; the first plausible one is taken; then the error shrinks to 5 / (5 + dt) of itself. |
| CruiseTarget.LearnsWithTime | src/adaptive_cruise.cc:402-406 | Over every drive the dt of that is the time since the tick before, a tenth of a second at most, and none on the first tick. |
| CruiseTarget.LeadFilterExactly | src/adaptive_cruise.cc:151-170 | Only a lead that is seen counts; after a pause it is taken as measured, otherwise its distance keeps 55 % of its error when it shrinks, 80 % when it grows, and its speed 70 %. |
| CarKalman.LoopIsJoseph | src/lateral_learners.cc:177-181 | Entry by entry the two in-place passes give (I - K e^T) P (I - K e^T)^T + r K K^T, for any dimension and any gain. |
| CarKalman.JosephKeeps | src/lateral_learners.cc:164-182 | That form keeps symmetry and positive semidefiniteness. |
| CarKalman.PredictedKeeps | src/lateral_learners.cc:146-160 | So does F P F^T + h Q. |
| CarKalman.OptimalGainShort | src/lateral_learners.cc:172-181 | With the code's gain it equals the short form. |
| CarKalman.ObservingLosesNothing | src/lateral_learners.cc:172-181 | The variance along any direction falls by exactly the squared projection over the innovation variance. |
| CarKalman.NoVarianceGrows | src/lateral_learners.cc:172-181 | No diagonal entry grows, and the observed one ends at most the noise. |
| CarKalman.CovarianceStaysValid | src/lateral_learners.cc:139-182 | Over every run of predictions and observations the covariance stays symmetric and positive semidefinite with no negative variance. |
| CarKalman.RunsStepByStep | src/lateral_learners.cc:139-182 | Such a run is its operations one after another: each prediction the prediction form, each observation the Joseph form with the code's gain, and none is skipped. |
| CarKalman.OwnNoiseStaysValid | src/lateral_learners.cc:70-77 | The code's process noise, a diagonal of squares, is symmetric and positive semidefinite, so started from it and driven by it the covariance stays valid with nothing asked of the noise. |
| CarKalman.Filter.PredictOver | src/lateral_learners.cc:139-162 | The Euler steps of at most a millisecond advance state and covariance as composed, and keep the covariance valid. |
| CarKalman.Filter.PredictStep | src/lateral_learners.cc:146-160 | The two product loops compute F P F^T + h Q in place. |
| CarKalman.Filter.Observe | src/lateral_learners.cc:172-181 | Gain, state and covariance after one observation, with no variance larger than before. |
| CarKalman.Filter.PredictAndObserve | src/lateral_learners.cc:165-182 | What is observed are k steps of one width of the model from the old state and covariance, which add up to the time since then at no more than a millisecond each, and none for a first or late observation. |
| CarKalman.NoiseGrowsWithTime | src/lateral_learners.cc:139-170 | With an identity Jacobian an observation meets the covariance P + (time) Q entry by entry, for every dimension and however many steps were taken, and P when it is the first or late. |
| CarKalman.StepsDrift | src/lateral_learners.cc:139-162 | Under a constant rate the predicted state moves by that rate times the time. |
| CarKalman.GainMoves | src/lateral_learners.cc:172-176 | The observed state comes to rest between reading and prediction as noise to variance, and every other follows by its covariance with it. |
| Jacobi.RotationDescends | src/lateral_learners.cc:436-453 | One rotation makes its pair exactly zero, keeps symmetry, trace and Frobenius norm, and lowers the off-diagonal squares by exactly twice the removed square, in any dimension. |
| Jacobi.PairVanishes | src/lateral_learners.cc:437-453 | The pair is already zero after the two passes, which is why storing zeros there is right. |
| Jacobi.TangentSolves | src/lateral_learners.cc:437-440 | The chosen tangent solves t^2 + 2 theta t = 1. |
| Jacobi.TurnedStaysOrthogonal | src/lateral_learners.cc:454-458 | Rotating the columns of an orthogonal matrix leaves it orthogonal. |
| Jacobi.ProductStays | src/lateral_learners.cc:441-458 | V A V^T does not change when both are rotated. |
| Jacobi.FrobeniusKept | src/lateral_learners.cc:441-452 | The sum of squares of all entries does not change. |
| Jacobi.ColumnIsEigenvector | src/lateral_learners.cc:460-462 | When A has become diagonal, each column of V is a unit eigenvector of the input. |
| Jacobi.SmallestIsSmallest | src/lateral_learners.cc:460-462 | The smallest diagonal entry bounds the quadratic form from below in every direction. |
| SmallestEigenvector.FindsSmallestEigenvector | src/lateral_learners.cc:428-463 | After any number of sweeps trace and Frobenius norm are the input's and the off-diagonal squares have not grown; if they ended diagonal the returned column is a smallest eigenvector. |
| SmallestEigenvector.SweepHalves | src/lateral_learners.cc:434-459 | Every sweep at least halves the off-diagonal squares: what clearing the second pair brings back at the first is at most half of the third. |
| SmallestEigenvector.SweepsConverge | src/lateral_learners.cc:432-459 | So k sweeps leave at most the 2^k-th part of them, and end early only when nothing is left. |
| SmallestEigenvector.FindsNearlySmallest | src/lateral_learners.cc:428-463 | However the sweeps end, the returned column is a unit vector that no unit vector beats by more than what they left, squared at most the 2^k-th part of 3/2 of the input's off-diagonal squares. |
| SmallestEigenvector.RotateKeeps | src/lateral_learners.cc:434-459 | Each step keeps A symmetric, V orthogonal and V A V^T equal to the input. |
| SmallestEigenvector.RotatePair | src/lateral_learners.cc:436-458 | The in-place column, row and eigenvector passes with the stored zeros compute that step. |
| SmallestEigenvector.SweepOnce | src/lateral_learners.cc:434-459 | One cyclic sweep over the three pairs. |
| SmallestEigenvector.FindSmallest | src/lateral_learners.cc:428-463 | At most fifty sweeps, stopping when diagonal, then the column of the first smallest diagonal entry. |
| Rings.Ring.Push | src/lateral_learners.cc:505-512 | The ring holds the last elements in arrival order, up to its capacity. |
| TorqueBuckets.Buckets.AddPoint | src/lateral_learners.cc:502-516 | Each bucket goes on holding exactly the most recent points of its interval in arrival order; a point outside all of them is dropped. |
| TorqueBuckets.Buckets.Reset | src/lateral_learners.cc:495-500 | All buckets are empty. |
| TorqueBuckets.Buckets.Points | src/lateral_learners.cc:524-530 | The points bucket by bucket, oldest first. |
| TorqueBuckets.Buckets.IsValid | src/lateral_learners.cc:538-542 | Every bucket has its minimum and the total is enough. |
| TorqueBuckets.Buckets.ValidPercent | src/lateral_learners.cc:544-552 | The percentage, which is 100 exactly when the points are valid. |
| TorqueBuckets.FullPercentIsValid | src/lateral_learners.cc:538-552 | The percentage lies between 0 and 100, and is 100 exactly when valid. |
| TorqueBuckets.BucketsCover | src/lateral_learners.cc:413-416 | A steering torque belongs to a bucket exactly from -0.5 up to, but not including, 0.5. |
| TorqueFit.FitIsBest | src/lateral_learners.cc:567-576 | When the sweeps end diagonal the fitted unit direction has the smallest sum of squared misfits of all unit directions. |
| TorqueFit.FitIsNearlyBest | src/lateral_learners.cc:567-576 | However they end, no unit direction beats the fitted one by more than fifty sweeps leave: the square of the advantage is at most 2^-50 times 3/2 of the off-diagonal squares of the points' Gram matrix. |
| TorqueFit.GramMeasures | src/lateral_learners.cc:567-573 | The quadratic form of the accumulated matrix is the sum of squared misfits. |
| TorqueFit.MisfitIsDistance | src/lateral_learners.cc:575-576 | A misfit is the point's vertical distance from the line with the returned slope and offset, scaled. |
| TorqueFit.PartialShuffle | src/lateral_learners.cc:560-566 | The partial shuffle computes the successive swaps and keeps the multiset of points. |
| TorqueFit.DrawnKeeps | src/lateral_learners.cc:560-566 | The drawn points are drawn without replacement. |
| TorqueFit.DrawnSettles | src/lateral_learners.cc:560-566 | A drawn place is never touched again. |
| TorqueFit.EverySelectionReached | src/lateral_learners.cc:560-566 | Any selection of points without replacement, in any order, comes out for some draws. |
| TorqueFit.UsedExactly | src/lateral_learners.cc:554-566 | All points are used when asked for or up to 2000; otherwise exactly 2000, none more often than it occurs, and every such choice in every order for some draws. |
| TorqueFit.AccumulateGram | src/lateral_learners.cc:567-573 | The loops accumulate the Gram matrix of the rows [x, 1, y]. |
| TorqueFit.EstimateLine | src/lateral_learners.cc:554-576 | All points or 2000 drawn ones, their Gram matrix, its smallest eigenvector, and the line. |
| TorqueEstimator.InterpLiesBetween | src/lateral_learners.cc:602-617 | Interpolation gives the nearest end outside the history, a value between two neighbours inside it, and a sample's own value at that sample. |
| TorqueEstimator.InterpExactly | src/lateral_learners.cc:602-617 | A value is the interpolated one if and only if it lies on the straight line between the two samples around the time, or is the nearest end's outside the history. |
| TorqueEstimator.ScanFinds | src/lateral_learners.cc:606-617 | The linear scan uses the one segment that holds the argument. |
| TorqueEstimator.Estimator.InterpRaw | src/lateral_learners.cc:602-617 | Binary search over the ring equals interpolation by linear scan. |
| TorqueEstimator.Run | src/lateral_learners.cc:640-655 | Over every input run, backward clocks included, the history stays strictly increasing in time and within its capacity. |
| TorqueEstimator.TickExactly | src/lateral_learners.cc:640-680 | A tick sooner than 49 ms changes nothing; any other is counted, puts fresh inputs after the 99 samples before them and may add a point; and everything is dropped exactly when a fifth or a 240th tick finds a faulty fit of enough points. |
| TorqueEstimator.HistoryIsTaken | src/lateral_learners.cc:647-653 | Over every run each sample in the history is that of a fresh input, dated ahead by the lag. |
| TorqueEstimator.AcceptedExactly | src/lateral_learners.cc:619-638 | A point is torque against speed times yaw rate less gravity's share; it is kept exactly with a full history, a valid pose, more than 15 m/s and 0.02, at most 1 m/s^2, and at every twentieth of a second from two seconds ago to the lag ahead a sample next to it steering and none overridden. |
| TorqueEstimator.Estimator.Judge | src/lateral_learners.cc:619-638 | A point is accepted exactly when the controller was active and not overridden over the whole look-back grid and speed, torque and acceleration qualify. |
| TorqueEstimator.Estimator.Update | src/lateral_learners.cc:640-663 | The 20 Hz gate, the sample, the point, and the drop of everything when a publication finds a faulty fit. |
| TorqueCache.RestartRestores | src/lateral_learners.cc:699-749 | Buckets written to the cache and read back under the same tuning into empty buckets are the same sequences again, for representable points. |
| TorqueCache.ParseUndoesCache | src/lateral_learners.cc:699-749 | Parsing a written cache gives every parameter and point as stored. |
| TorqueCache.TornCacheIsCorrupt | src/lateral_learners.cc:726-732 | A cache cut short or run on is always refused as corrupt. |
| TorqueCache.TakenUnderSameKey | src/lateral_learners.cc:719-749 | A cache written under one tuning is taken under another exactly when both store the same key, and is refused as such otherwise. |
| TorqueCache.DamagedHeadIsRefused | src/lateral_learners.cc:719-736 | One changed byte in the magic or the count makes it corrupt, in the version a mismatch. |
| TorqueCache.Serialize | src/lateral_learners.cc:699-717 | The bytes written are the header and the points of all buckets. |
| TorqueCache.Restore | src/lateral_learners.cc:719-749 | A well-formed cache with the right key adds its points one by one; any other changes nothing and says why. |
| LaneTimes.TimesAreOrdered | src/ipc_messages.cc:41-65 | For every plan, jumps back included, the times never decrease and lie between the first and the last knot. |
| LaneTimes.DefinedExactly | src/ipc_messages.cc:41-65 | Which entries have a time, by the plan alone: the first, and every other unless the plan after its start never reaches the grid point before; one it never reaches gets the last time. |
| LaneTimes.PassesTheGridPoint | src/ipc_messages.cc:54-64 | If the plan moves strictly forward and starts at or before the first positive grid point, interpolating it at the computed time gives the grid point, before the plan's end. |
| LaneTimes.FillLaneTimes | src/ipc_messages.cc:41-65 | The one moving pointer gives for every grid point what a search from the start would, and leaves the entries after the plan's end undefined. |
| LaneTimes.KnotGrows | src/ipc_messages.cc:44-48 | The search for a further grid point may start where the last one ended. |
| Calibrator.StepKeeps | src/calibration_online.cc:98-159 | Every block, the mean and the smoothed output stay in the clipping box, the counters stay in range, and after an accepted sample Calibrated means five blocks, valid angles and bounded spread. |
| Calibrator.RestartsFromLastCompleted | src/calibration_online.cc:250-255 | A restart happens only after a block was completed, starts every block over from the most recently completed one, and the output stays at the mean just judged. |
| Calibrator.SpreadBounds | src/calibration_online.cc:210-236 | No two finished blocks lie further apart in any angle than the spread. |
| Calibrator.MeanInBox | src/calibration_online.cc:232-236 | The mean of blocks in the box is in the box. |
| Calibrator.Run | src/calibration_online.cc:98-256 | The block bookkeeping since the last reset holds over every run of samples. |
| Calibrator.AcceptedExactly | src/calibration_online.cc:103-134 | A sample is accepted exactly when its numbers are finite, the car drives straight and faster than 15 mph, and the velocity is certain or fewer than five blocks are there; a rejected one only counts. |
| Calibrator.AddedShrinks | src/calibration_online.cc:137-140 | What two blocks differ by shrinks to n hundredths of it with their sample after n, and a block stays where its samples do. |
| Calibrator.BlockIsNotMean | src/calibration_online.cc:137-140 | The second sample of a block has ninety-nine parts of a hundred in it. |
| Calibrator.ClippedIsNearest | src/calibration_online.cc:121-130 | Angles outside the box become the nearest ones in it. |
| Calibrator.SmoothMoves | src/calibration_online.cc:258-266 | The output is the calibration moved towards the angles before the restart by the weight. |
| Calibrator.FadesOut | src/calibration_online.cc:98-103 | The weight falls by a four-hundredth each sample, and after four hundred without a restart the output is the calibration itself. |
| Calibrator.CollectsKept | src/calibration_online.cc:210-236 | The mean is over exactly the finished blocks. |
| Calibrator.RestartsExactly | src/calibration_online.cc:242-255 | A restart comes exactly with five blocks, a mean inside the valid angles, and two finished blocks more than two degrees apart in one angle. |
| Calibrator.CountsExactly | src/calibration_online.cc:137-208 | Each accepted sample goes into one block, the hundredth completes it and the next of fifty is filled; a restart begins with five blocks, the old angles at full weight, no spread, and calibrated if the block it starts from is in range. |
| Calibrator.StatusExactly | src/calibration_online.cc:232-248 | Without one the angles are that mean and the status is what it says. |
| Calibrator.OnlineCalibrator.Update | src/calibration_online.cc:98-159 | One sample over the object's fields equals the step function. |
| Calibrator.OnlineCalibrator.UpdateStatus | src/calibration_online.cc:210-256 | The loop's mean and spread, the status, and the restart. |
| Calibrator.OnlineCalibrator.Restore | src/calibration_online.cc:161-170 | Angles are taken over exactly when finite and valid, and then the result is calibrated and put out unchanged. |
| DepartureAlert.LeadAlertMeans | src/departure_alert.cc:80-105 | A lead alert means the car stood without a break for at least 2.3 s, a lead was there for at least the last 1.3 s of it, and it is now more than half a metre beyond its nearest measured distance. |
| DepartureAlert.GreenAlertMeans | src/departure_alert.cc:110-136 | A green-light alert means the car stood without a break for at least 3.3 s and the plan ended here at least 3 s into that. |
| DepartureAlert.OneAlertPerCycle | src/departure_alert.cc:55-67 | After an alert there is no other until a tick that resets the cycle. |
| DepartureAlert.AlertExactly | src/departure_alert.cc:69-145 | Exactly when an alert is raised: the car stands, none was raised in this cycle, and by the ticks of the stand the lead is gone, or else the light has turned. |
| DepartureAlert.CycleInputs | src/departure_alert.cc:55-78 | Standing, starting over and a lead being there, by the inputs. |
| DepartureAlert.SpentExactly | src/departure_alert.cc:155-181 | No further alert is to come exactly when one was raised since the cycle last started over. |
| DepartureAlert.ShownForThreeSeconds | src/departure_alert.cc:48-53 | The alert shown is the last one raised, for three seconds from its tick, and otherwise none; each has a number of its own. |
| DepartureAlert.StandIsLongest | src/departure_alert.cc:55-67 | The stand meant is the longest one at the end of the drive. |
| DepartureAlert.Run | src/departure_alert.cc:48-181 | Over every drive the timers and the baseline are what the remembered ticks say; the baseline is the smallest distance measured since the lead was acquired. |
| DepartureAlert.Detector.Update | src/departure_alert.cc:48-153 | One tick over the detector's fields equals the step function. |
| ControlHolds.AllowedMeansRecentlyAllowed | src/control_holds.cc:5-30 | Without forcing, controls are allowed exactly when the latest judgeable snapshot is at most 100 ms old and said so. |
| ControlHolds.AllowedNeedsHealth | src/control_holds.cc:5-30 | Controls are never allowed without a connected panda in the right mode that allowed them at most 100 ms ago, and none since that did not. |
| ControlHolds.HealthyDecides | src/control_holds.cc:5-30 | A healthy panda decides at once, and its refusal is reported as one. |
| ControlHolds.UnhealthyHolds | src/control_holds.cc:5-30 | Without one the last verdict stands for 100 ms, and then nothing is ready. |
| ControlHolds.HeldPathIsRecent | src/control_holds.cc:32-50 | A path is held exactly when the current model is fresh but its path invalid and the last usable frame is stamped at most 150 ms ago; it is that frame's path, and holding never renews itself. |
| ControlHolds.PathFromModelState | src/lateral_path.cc:7-39 | The loop counts the points that advance within the useful range, and the path is usable with four of them reaching five metres. |
| ControlHolds.ReachedMeans | src/lateral_path.cc:14-30 | The points counted are those that advance, and the reach is the farthest useful one. |
| ControlHolds.UsableExactly | src/lateral_path.cc:7-39 | A path is usable exactly when the model is valid and fresh, four points advance and a useful one lies at least five metres out; the reason shown is the first that is missing. |
| ControlHolds.PandaHealthGate.Update | src/control_holds.cc:5-30 | The gate's memory and output after one snapshot. |
| ControlHolds.PathHoldGate.Update | src/control_holds.cc:32-50 | The gate's memory and output after one frame. |

## Left out

- Weak-memory effects of the atomics, 64-bit counters running over, mapping and resizing of shared memory.
- The timestamp word of the latest-value channel, the waiting loop of `read_new`, and the queue's depth query.
- Floating-point rounding, NaN arithmetic and trigonometry; composed calibration angles are arbitrary inputs.
- The torque controller, the curvature clip and lag compensation, the road-bank filter, the pressed-steering filter and the release time after disengaging: any torque within the limit may come in.
- The frame counter's restart when nothing is sent, which buses a frame goes to, and the replaced MDPS speed.
- CarKalman.Filter.PredictOver: the single-track model and its Jacobian are arbitrary functions of state and step.
- TorqueFit.EstimateLine: the friction from the spread around the line and the output filters are not modelled.
- TorqueEstimator.Estimator.Update: whether a fit is a number is an input, because reals have no NaN.
- TorqueFit.EverySelectionReached: the random generator is any sequence of draws.
- TorqueCache.Serialize: how a float becomes four bytes is left to a codec with the right length.
- LearnerStore.StoppedStoreIsComplete: runs in which a write fails or the process dies; what was in the mailbox then is gone.
- LearnerStore.FilesAreNeverTorn: no path is another path's temporary name, and a power cut that loses what the kernel has not yet written is not modelled (the code does not sync).
- AdaptiveCruise.TracksTheCar: parameters and speed unit stay the same over a run, and a reading used to open or anchor a session is the car's set speed.
- LaneTimes.FillLaneTimes: the other fields of the model state are copies.
- The MPC solver, the planner, vehicle CAN decoding, overlays, recording, the parameter server and its page.
- The cruise loader's JSON, the yaw-bias estimator and the learner's hysteresis would only add easy members.
