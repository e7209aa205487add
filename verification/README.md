# CARMA platform drivers: a verified model

This project models five parts of the CARMA vehicle platform and proves what they do for every
input, every run and every order the code leaves open.

- **Object tracker** (`sensor_fusion/src/object_tracker.h`). Per-sensor track lists are predicted,
  purged, associated with a batch of measurements, corrected or decayed, and extended by new
  tracks; the lists are merged by nearest neighbour and absorbed into a fused list.
  `Vectors`, `TrackedObjects`, `Purge`, `Thinning`, `Association`, `Batches` model one batch;
  `Means`, `Merge`, `MergeLaws`, `TrackIds` the merge; `TrackerModel` the state machine of
  `addObjects`, `process` and `reset`; `TrackerQueue`, `TrackerStamps`, `TrackerBounds`,
  `TrackerMerge`, `IdWindows`, `TrackerIdentity`, `IdentityBounds`, `Successors`, `TrackLife`,
  `TrackRuns`, `LostTracks` and `FreshTracks` what holds over its runs; `ObjectTracker` is the
  object and its loops.
- **Delphi radar burst synchroniser** (`delphi_esr_driver/src/delphi_esr_can_client.h`):
  `DelphiBurst` (the object), `DelphiLanguage` (which streams signal a burst), `DelphiCoherence`
  (what a signalled burst holds).
- **Truck drive-by-wire command path** (`truck_controller/src`): `Crc8`, `TruckFrames`,
  `LossyChannel`, `PidParams`, `TruckApplication` (the object) and `TruckRuns`.
- **Twist history** (`sensor_fusion/src/twist_history_buffer.h`): `HistoryBuffer`, `TwistHistory`.
- **Framers**: `DsrcScanner` (`dsrc_driver/src/dsrc_client.cpp`), `PinPointReader` and
  `PinPointMessages` (`pinpoint_driver/src/pinpoint_driver.cpp`).

Conventions. Floating-point values are reals; a vector that became infinite or not-a-number (the
tracker divides by a zero time step) is the extra value `NonFinite`, no distance to which compares
as small. Stamps are integers (microseconds in the tracker and the twist buffer, nanoseconds in the
truck). Clocks, callbacks and timer ticks are parameters or events. Where the code leaves an order
open (ties of `std::sort`, the iteration of an `unordered_map`), the model takes the order as a
parameter and the lemmas hold for all of them. Each object is a class whose methods are proved to
take the step of a pure state machine; the lemmas are about runs of that machine.

Where the code does not do what its comments or its purpose suggest, the code is followed and the
exact behaviour is proved, with the condition under which the expectation does hold:

- the purge skips the successor of every erased track, so a pass clears a list if and only if no two
  adjacent tracks are expired;
- a correction loses a finite track if and only if the time step is zero and the measurement brings
  no velocity; the track then decays unmatched until it is purged, and while its score is positive
  every `process` starts another fused track for it;
- being seen often does not by itself keep a track: every batch that misses it divides its life, so
  it can be purged within an instant; the exact life after any misses is proved, and the misses and
  the time a track can bear;
- identifiers are unique if and only if every window the wrapping counter hands out is free of live
  tracks, which holds for the first 65536 allocations and fails in a run that is given;
- motion/power data is left over from an earlier burst if and only if no frame names its group;
- the wrench echo is 3900 too low;
- the twist interpolation factor is a number of whole seconds, so a lookup at a stored stamp misses
  the stored velocities unless the entry is the oldest, one but not two seconds after its
  predecessor, or moves as it does;
- a datagram with size code 3 is read one byte early; one shorter than it announces is completed
  from what the buffer held before.

## Model

| member | source | states |
|---|---|---|
| `Vectors.DistanceZeroIff` | sensor_fusion/src/object_tracker.h:102-105 | the squared distance is symmetric, finite between finite points only, and zero between equal points only |
| `Vectors.DistanceAlongAxes` | sensor_fusion/src/object_tracker.h:102-105 | along each axis it is the square of the difference, and steps along different axes add up |
| `TrackedObjects.PredictedMovesOn` | sensor_fusion/src/object_tracker.h:181-191 | over a number of microseconds the position moves by velocity times time, life and confidence fall by the decay per second, the confidence not below zero, and nothing else changes |
| `TrackedObjects.CorrectedIff` | sensor_fusion/src/object_tracker.h:199-273 | the correction is the one object with the stated position and velocity gains, measured velocity and dimensions taken over if present, life one, the mean score and the measured confidence |
| `TrackedObjects.DecayedIff` | sensor_fusion/src/object_tracker.h:361-362 | an unmatched track is the same with its life divided |
| `TrackedObjects.CorrectionOnSegment` | sensor_fusion/src/object_tracker.h:199-214 | a correction puts the position on the segment from prediction to measurement |
| `TrackedObjects.ZeroScoreVelocity` | sensor_fusion/src/object_tracker.h:181-224 | with a reset score and no measured velocity the velocity becomes the one that leads from the old position to the measurement in the elapsed time |
| `TrackedObjects.ScoreBetween` | sensor_fusion/src/object_tracker.h:268-272 | the new score is between the smallest and largest of old score and the two confidences |
| `TrackedObjects.DecayedShrinks` | sensor_fusion/src/object_tracker.h:361-362 | with a divider above one an unmatched live track loses life and stays above zero |
| `Purge.PurgeExpiredTracks` | sensor_fusion/src/object_tracker.h:385-394 | the erase-and-advance loop computes the purge specification |
| `Purge.PurgeExact` | sensor_fusion/src/object_tracker.h:385-394 | live tracks are all kept in order; exactly the odd positions of each maximal run of expired tracks are removed |
| `Purge.PurgeClearsIff` | sensor_fusion/src/object_tracker.h:385-394 | one pass leaves no expired track if and only if no two adjacent tracks are expired |
| `Purge.PurgeHalves` | sensor_fusion/src/object_tracker.h:385-394 | a pass at least halves the number of expired tracks |
| `Purge.RepeatedPurge` | sensor_fusion/src/object_tracker.h:385-394 | n passes clear any list with fewer than 2^n expired tracks |
| `Association.Nearest` | sensor_fusion/src/object_tracker.h:306-329 | the candidate found is the nearest in-range measurement, lowest index on ties, or none is in range |
| `Association.NearestUnique` | sensor_fusion/src/object_tracker.h:306-329 | that description has one solution |
| `Association.RangesMean` | sensor_fusion/src/object_tracker.h:312-342 | in range, or near, means the sum of squared differences is below the range, or grouping, parameter |
| `Thinning.ChosenIsThinning` | sensor_fusion/src/object_tracker.h:330-348 | the chosen measurements are eligible and pairwise not near, and every other eligible one is near an earlier chosen one |
| `Thinning.ThinningUnique` | sensor_fusion/src/object_tracker.h:330-348 | the thinning law determines the choice completely |
| `Batches.Offer` | sensor_fusion/src/object_tracker.h:312-329 | the inner loop updates every track's best candidate and detects a measurement in range of no track |
| `Batches.NearUnassociated` | sensor_fusion/src/object_tracker.h:333-342 | the inner loop decides whether a new track is near |
| `Batches.Associate` | sensor_fusion/src/object_tracker.h:306-348 | the nested loops compute every track's nearest measurement and the thinned new tracks |
| `Batches.CorrectOrDecay` | sensor_fusion/src/object_tracker.h:350-364 | every track becomes its correction by its nearest in-range measurement, field by field, or decays |
| `Batches.AddUnassociated` | sensor_fusion/src/object_tracker.h:368-375 | new tracks are appended with consecutive 16-bit identifiers |
| `Batches.ProcessObjects` | sensor_fusion/src/object_tracker.h:288-379 | the whole step, including the stale return, computes `Absorb` |
| `Batches.AbsorbOutcome` | sensor_fusion/src/object_tracker.h:288-378 | for every non-stale batch, field by field and without naming the steps: every track moved on by the elapsed microseconds, every survivor corrected by its nearest measurement or decayed, every thinned out-of-range measurement started with full life, no score and the next identifier; the new stamp and counter |
| `Means.ComputeMeanObject` | sensor_fusion/src/object_tracker.h:425-460 | the loop computes the score-weighted mean: on every axis total score times its coordinate is the sum of the members' scores times theirs |
| `Means.RepRepresents` | sensor_fusion/src/object_tracker.h:425-513 | a group's representative is its only member, or balances the weighted positions and velocities, is finite iff they are, has the mean score as score and confidence, a velocity, no dimensions, no source and the smallest identifier |
| `Means.RepInBox` | sensor_fusion/src/object_tracker.h:425-441 | position and velocity of a group's representative lie in every box holding its members'; no division by zero |
| `Means.RepUnitConf` | sensor_fusion/src/object_tracker.h:440-441 | the representative's confidence is in [0, 1] |
| `Means.MinId` | sensor_fusion/src/object_tracker.h:508-510 | the identifier given to a group is some member's and at most every member's |
| `Merge.GetDisjointNeighbours` | sensor_fusion/src/object_tracker.h:402-423 | the map gives every object the first of its nearest groups, or none if no distance is a number |
| `Merge.NearestOut` | sensor_fusion/src/object_tracker.h:408-418 | the first nearest, stated without the search |
| `Merge.VisitPlaces` | sensor_fusion/src/object_tracker.h:499-518 | each visited object joins the group that was its first nearest when the pass began if it is within the pairing distance of that group's present representative, and otherwise opens its own |
| `Merge.PassConserves` | sensor_fusion/src/object_tracker.h:499-518 | whatever the visiting order, a pass adds exactly its objects to the groups |
| `Merge.PassHasShape` | sensor_fusion/src/object_tracker.h:499-518 | a pass only extends old groups and opens singletons |
| `Merge.PassCoherent` | sensor_fusion/src/object_tracker.h:502-505 | every member was within the pairing distance of the representative when it joined |
| `MergeLaws.EstablishedExact` | sensor_fusion/src/object_tracker.h:496-497 | exactly the positive-score objects take part, with their multiplicity |
| `MergeLaws.EntrantFromTrack` | sensor_fusion/src/object_tracker.h:488-497 | every object that takes part is a track of positive score moved on to the latest stamp |
| `MergeLaws.TrackToEntrant` | sensor_fusion/src/object_tracker.h:488-497 | and every such track takes part |
| `MergeLaws.MergeConserves` | sensor_fusion/src/object_tracker.h:488-519 | for every schedule the groups hold exactly the positive-score objects of all sources |
| `MergeLaws.MergeOpeners` | sensor_fusion/src/object_tracker.h:488-519 | every group has exactly one member from the source whose pass opened it |
| `TrackIds.MergedIdsDistinct` | sensor_fusion/src/object_tracker.h:508-510 | distinct live identifiers give distinct merged identifiers, each the minimum of its group |
| `TrackerStamps.DroppedIffOld` | sensor_fusion/src/object_tracker.h:290-293 | a batch of a sorted queue is dropped iff it is older than its source's stamp before the whole queue |
| `TrackerStamps.IngestStamps` | sensor_fusion/src/object_tracker.h:566-579 | after a queue every source stands at the largest of its old stamp and its batches' stamps |
| `TrackerStamps.FusedNeverStale` | sensor_fusion/src/object_tracker.h:469-473 | from every state with the stamp invariant neither the empty-tracks nor the stale return is taken |
| `TrackerStamps.RunKeepsStampInv` | sensor_fusion/src/object_tracker.h:536-598 | the stamp invariant holds in every state of every run |
| `TrackerStamps.FusedStampIsLatest` | sensor_fusion/src/object_tracker.h:584-598 | in every run each non-empty `process` leaves the fused stamp at the maximum per-source stamp |
| `TrackerStamps.StampsNeverDecrease` | sensor_fusion/src/object_tracker.h:377-378 | between resets no source disappears and no stamp decreases |
| `TrackerBounds.RunKeepsBounds` | sensor_fusion/src/object_tracker.h:181-273 | with confidences in [0, 1], non-negative decay and divider at least 1, every reachable track has confidence and score in [0, 1] and life at most 1 |
| `TrackerBounds.MatchedOnSegment` | sensor_fusion/src/object_tracker.h:350-358 | every matched track moves along the segment to its nearest measurement |
| `TrackerBounds.FusedLandsOnMeasurement` | sensor_fusion/src/object_tracker.h:591-596 | a matched fused track lands exactly on its merged measurement |
| `TrackerBounds.MergedInBox` | sensor_fusion/src/object_tracker.h:425-441 | every merged position and velocity lies in every box holding its group's; groups with company are finite |
| `IdWindows.TrackKeepsId` | sensor_fusion/src/object_tracker.h:300-364 | a surviving track keeps its identifier and source |
| `IdWindows.WindowExact` | sensor_fusion/src/object_tracker.h:373 | an identifier lies in the window of n numbers from the counter on if and only if it is one of the n handed out |
| `IdWindows.AbsorbDistinctIff` | sensor_fusion/src/object_tracker.h:368-375 | after a batch a list has distinct identifiers if and only if its staying tracks have, the batch starts at most 65536 tracks and no staying track carries one of their identifiers |
| `IdWindows.AbsorbApartIff` | sensor_fusion/src/object_tracker.h:368-375 | another list is apart from it afterwards if and only if it was apart from the staying tracks and avoids the window |
| `TrackerIdentity.BatchDistinctIff` | sensor_fusion/src/object_tracker.h:566-579 | the same over all per-source lists and the fused one, from any state of the lists |
| `TrackerIdentity.QueueDistinctIff` | sensor_fusion/src/object_tracker.h:566-579 | distinct after every batch of a queue if and only if every batch finds its window free |
| `TrackerIdentity.FusedDistinctIff` | sensor_fusion/src/object_tracker.h:596 | the same for the window handed out for the merged measurement |
| `TrackerIdentity.ProcessDistinctIff` | sensor_fusion/src/object_tracker.h:556-599 | distinct throughout a `process` if and only if all its windows are free when handed out |
| `TrackerIdentity.RunCounted` | sensor_fusion/src/object_tracker.h:170 | in every reachable state the counter is one more than the number of allocations, modulo 65536, and every live identifier has been handed out |
| `TrackerIdentity.DistinctIffFree` | sensor_fusion/src/object_tracker.h:508 | for every run: all live identifiers are pairwise distinct at every moment if and only if every window is free when it is handed out |
| `IdentityBounds.LiveIdsDistinct` | sensor_fusion/src/object_tracker.h:508-510 | in every run, up to every state reached by at most 65536 allocations, all live per-source and fused identifiers are always pairwise distinct, and so are the merged ones |
| `IdentityBounds.CollidingRun` | sensor_fusion/src/object_tracker.h:170 | for any parameters, a run of one `addObjects` of 65537 objects and one `process` that leaves two live tracks with the same identifier |
| `LostTracks.CorrectionLosesIff` | sensor_fusion/src/object_tracker.h:216-224 | a correction of a finite track by a finite measurement makes the velocity, and every later predicted position, non-finite if and only if the time step is zero and no velocity is measured |
| `LostTracks.BatchLosesIff` | sensor_fusion/src/object_tracker.h:216-224 | after every non-stale batch a surviving track is lost if and only if it was lost before, or its nearest in-range measurement brings no velocity over a zero time step or a non-finite one |
| `Successors.SuccessorIff` | sensor_fusion/src/object_tracker.h:385-394 | a track is still there after a batch if and only if the batch does not purge it |
| `LostTracks.LostOnlyDecays` | sensor_fusion/src/object_tracker.h:361-362 | a lost track that survives a non-stale batch is in range of no measurement and comes out decayed, position and velocity still non-finite |
| `LostTracks.LostForever` | sensor_fusion/src/object_tracker.h:556-599 | in every run a lost track stays lost for as long as it lives, with its identifier and score |
| `LostTracks.LostAlone` | sensor_fusion/src/object_tracker.h:499-518 | a lost track of positive score is alone in its merged group |
| `LostTracks.NonFiniteChosen` | sensor_fusion/src/object_tracker.h:330-348 | every measurement without a finite position starts a new track |
| `LostTracks.LostSpawns` | sensor_fusion/src/object_tracker.h:584-596 | in every run, every `process` of a non-empty queue that a lost track of positive score lives through starts a new fused track from it alone |
| `LostTracks.LostDrains` | sensor_fusion/src/object_tracker.h:368-375 | so it spends at least one identifier per such `process` |
| `LostTracks.ZeroStepRun` | sensor_fusion/src/object_tracker.h:545-599 | two batches of one source with equal stamps in one queue are a run that loses a track of positive score |
| `TrackerMerge.MergePartitions` | sensor_fusion/src/object_tracker.h:466-526 | in every run every merge partitions exactly the positive-score objects, one opener member per group, all joins close |
| `TrackerMerge.MergedRepresents` | sensor_fusion/src/object_tracker.h:466-526 | for every schedule each merged object represents its group, with a finite position if it has company |
| `TrackerMerge.RunMergesMeans` | sensor_fusion/src/object_tracker.h:466-598 | in every run each merged object the fused list takes in represents its group |
| `TrackerQueue.QueueIsPending` | sensor_fusion/src/object_tracker.h:536-583 | in every run every batch added is taken in by the next `process`, once, and a reset loses none |
| `FreshTracks.TakesPartIff` | sensor_fusion/src/object_tracker.h:496-497 | whatever the visiting order a track is in a merged group iff its score is positive |
| `FreshTracks.StartedNotMerged` | sensor_fusion/src/object_tracker.h:369-375 | a track started by the last batch of its source in a queue has no score and takes part in no merge of that `process` |
| `TrackLife.LifeLaw` | sensor_fusion/src/object_tracker.h:181-191 | through every sequence of batches, the divider to the power of the misses times a track's life is its life at the last match less the decay over the weighted gaps |
| `TrackLife.ExpiresIff` | sensor_fusion/src/object_tracker.h:385-394 | when the next batch finds a track expired, exactly, in terms of misses, stamps and parameters |
| `TrackLife.MissedTooOften` | sensor_fusion/src/object_tracker.h:361-362 | missed so often that the divider to that power times the threshold reaches one, a track is worn out however short the time |
| `TrackLife.PurgedInAnInstant` | sensor_fusion/src/object_tracker.h:361-362 | a list and a sequence of empty batches with one stamp that purge a track of full life |
| `TrackLife.NeverPurged` | sensor_fusion/src/object_tracker.h:266 | a track that every batch meets within bearable misses and time since its last match is never purged and keeps its identifier |
| `TrackLife.BearableTime` | sensor_fusion/src/object_tracker.h:184 | without misses the bearable time is that over which the decay is less than one minus the threshold |
| `TrackRuns.RunHistory` | sensor_fusion/src/object_tracker.h:566-579 | over every stretch of every run without reset or change of parameters a source's list takes in exactly the batches processed for it |
| `TrackRuns.SeenIsKept` | sensor_fusion/src/object_tracker.h:566-579 | so in every run such a track of a source is still there at the end |
| `TrackRuns.FusedSeenIsKept` | sensor_fusion/src/object_tracker.h:584-596 | and such a fused track, over the merged measurements, likewise |
| `ObjectTracker.MergeVisit` | sensor_fusion/src/object_tracker.h:500-518 | one pair joins its group or opens one; output list and groups stay aligned |
| `ObjectTracker.MergePass` | sensor_fusion/src/object_tracker.h:499-518 | the pass over the neighbour map, in any order, is `Pass` for some permutation of the objects |
| `ObjectTracker.LatestStamp` | sensor_fusion/src/object_tracker.h:478-486 | the loop finds the maximum stamp |
| `ObjectTracker.MergeTracks` | sensor_fusion/src/object_tracker.h:466-526 | the loops compute the merged list for some schedule in key order |
| `ObjectTracker.SortByStamp` | sensor_fusion/src/object_tracker.h:563-564 | a permutation sorted by stamp |
| `ObjectTracker.Tracker.AddObjects` | sensor_fusion/src/object_tracker.h:545-554 | takes the `AddObjects` step |
| `ObjectTracker.Tracker.Reset` | sensor_fusion/src/object_tracker.h:536-541 | takes the `Reset` step |
| `ObjectTracker.Tracker.AbsorbQueue` | sensor_fusion/src/object_tracker.h:566-579 | the loop over the queue computes `Ingest` |
| `ObjectTracker.Tracker.Process` | sensor_fusion/src/object_tracker.h:556-599 | takes a `Process` step for some plan and returns the queue's length |
| `DelphiBurst.Client.IsExpectedId` | delphi_esr_driver/src/delphi_esr_can_client.h:342-391 | updates the two static flags as `Expected` says |
| `DelphiBurst.Client.SetMovePower` | delphi_esr_driver/src/delphi_esr_can_client.h:507-519 | writes exactly the slots of the frame's group |
| `DelphiBurst.Client.Process` | delphi_esr_driver/src/delphi_esr_can_client.h:397-550 | takes the step of the synchroniser and signals what `Signalled` says |
| `DelphiLanguage.SignalledIffComplete` | delphi_esr_driver/src/delphi_esr_can_client.h:342-391 | from any state, once a 0x4E0 came, a burst is signalled exactly at the 0x5E8 that completes the sequence since the last 0x4E0 |
| `DelphiLanguage.BurstLanguage` | delphi_esr_driver/src/delphi_esr_can_client.h:342-550 | from start-up, for every stream, signalled iff the relevant frames since the last 0x4E0 are 4E0..4E3, 500..53F, one or more 540, 5E4..5E8 |
| `DelphiLanguage.ChainComplete` | delphi_esr_driver/src/delphi_esr_can_client.h:346-387 | a chain of expected identifiers that ends in 0x5E8 is a complete sequence |
| `DelphiLanguage.NeverTwice` | delphi_esr_driver/src/delphi_esr_can_client.h:540-546 | between two signals there is a new 0x4E0 |
| `DelphiCoherence.SignalledCoherent` | delphi_esr_driver/src/delphi_esr_can_client.h:414-546 | stamp, nine statuses and 64 tracks of a signalled burst are its own frames'; motion/power is the last own 0x540 frame's that names the group, or left over from before iff there is none |
| `Crc8.CheckMessageCrc` | truck_controller/src/truck_types.h:212-233 | true iff the last byte is the checksum of the others |
| `Crc8.OkIffResidueZero` | truck_controller/src/truck_types.h:212-233 | a message passes iff feeding all of it leaves a zero register |
| `Crc8.BurstDetected` | truck_controller/src/truck_types.h:212-233 | for messages of any length every error burst of up to 8 bits, anywhere, fails the check |
| `Crc8.ByteChangeDetected` | truck_controller/src/truck_types.h:212-233 | a change of any one byte fails the check |
| `Crc8.EchoFramePasses` | truck_controller/tests/test.cpp:22-24 | the echo frame of the repository's parsing test passes the CRC |
| `TruckFrames.KnownEcho` | truck_controller/tests/test.cpp:22-33 | that frame is accepted by a fresh receiver with the values the test expects |
| `TruckFrames.AcceptedExactly` | truck_controller/src/truck_types.h:235-266 | accepted iff one to seven steps ahead, or eight from the upper half |
| `TruckFrames.OneDirection` | truck_controller/src/truck_types.h:235-266 | of two different counters exactly one direction is accepted; a repeat never |
| `TruckFrames.PackedRoundTrip` | truck_controller/src/truck_types.h:295-338 | every packed frame passes the CRC and gives back raw fields, mode and counter |
| `TruckFrames.ControlByteMeans` | truck_controller/src/truck_types.h:133-135 | on the wire the two reserved bits, mode bits 0 for disabling, 1 for wrench, 2 for speed, and the counter in the high four bits |
| `TruckFrames.WrenchRawMeans` | truck_controller/src/truck_types.h:303 | 40 steps per percent rounded toward zero, 4000 for none |
| `TruckFrames.RateRawMeans` | truck_controller/src/truck_types.h:307-311 | 115.2 steps per metre per second, rounded down |
| `TruckFrames.WrenchRange` | truck_controller/src/truck_types.h:303 | efforts in [-100, 100] have raw values 0 to 8000 |
| `TruckFrames.RateRange` | truck_controller/src/truck_types.h:307-311 | speeds up to 31.25 have raw values up to 3600, accelerations up to 3.5 up to 403 |
| `TruckFrames.RateEchoError` | truck_controller/src/truck_types.h:435-436 | the echoed rate in km/h is the command rounded down by less than 1/32 |
| `TruckFrames.WrenchEchoOffset` | truck_controller/src/truck_types.h:434 | the echoed effort is never the commanded one: it is 3900 lower, up to one step |
| `TruckFrames.CommandMessage.PackData` | truck_controller/src/truck_types.h:295-338 | advances the counter and returns the packed frame; the control byte has the reserved bits, the mode as 0, 1 or 2 and the counter |
| `TruckFrames.EchoMessage.SetData` | truck_controller/src/truck_types.h:429-442 | validity, the fields of accepted frames only, the counter of every frame |
| `LossyChannel.AcceptedIffGap` | truck_controller/src/truck_types.h:371-384 | from any receiver state, every arrival, the first included, is accepted iff its distance in numbering is 1 to 7 modulo 16, or 8 from the upper half |
| `LossyChannel.NoneRefused` | truck_controller/src/truck_types.h:198-266 | with at most six consecutive losses every arrival is accepted, the first one by a receiver in step with its peer |
| `LossyChannel.RepeatRefused` | truck_controller/src/truck_types.h:235-266 | an immediate repeat is refused |
| `PidParams.SetF` | truck_controller/src/truck_dbw_controller.h:155-170 | for non-negative gains: exactly when it throws; otherwise the divisor is the largest up to 32767 that keeps the largest numerator in 16 bits and every numerator is its gain times the divisor rounded to nearest; all zero for gains above 32767 |
| `PidParams.GainsMessage.PackData` | truck_controller/src/truck_types.h:810-843 | the eight bytes of the four fields, each with its offset, low byte first |
| `PidParams.GainPositions` | truck_controller/src/truck_types.h:810-843 | the byte positions of the four fields, each holding its value plus 32768 |
| `PidParams.GainsMessage.SetData` | truck_controller/src/truck_types.h:845-851 | all four fields read from the eight bytes, as signed 16-bit values |
| `PidParams.GainsRoundTrip` | truck_controller/src/truck_types.h:810-851 | packing and setting is the identity on every quadruple of signed 16-bit values although the offset is added twice |
| `PidParams.FrameRoundTrip` | truck_controller/src/truck_types.h:810-851 | setting and packing is the identity on every eight bytes |
| `TruckApplication.Application.EnableRobotic` | truck_controller/src/truck_application.cpp:355-365 | takes the `Enable` step |
| `TruckApplication.Application.OnWrenchEffort` | truck_controller/src/truck_application.cpp:581-587 | takes the `WrenchCommand` step |
| `TruckApplication.Application.OnSpeedAccel` | truck_controller/src/truck_application.cpp:590-613 | takes the `SpeedCommand` step |
| `TruckApplication.Application.SendWrenchEffort` | truck_controller/src/truck_dbw_controller.cpp:60-76 | writes the frame of the clamped effort |
| `TruckApplication.Application.SendSpeedAccel` | truck_controller/src/truck_dbw_controller.cpp:77-85 | writes the frame of speed and acceleration |
| `TruckApplication.Application.SendDisable` | truck_controller/src/truck_dbw_controller.cpp:86-95 | writes the disabling frame |
| `TruckApplication.Application.SendCommands` | truck_controller/src/truck_application.cpp:145-199 | takes the `Tick` step and writes at most one control frame, bytes included |
| `TruckRuns.ModeHasCause` | truck_controller/src/truck_application.cpp:145-199 | in every run a robotic mode is that of the most recent accepted command, with no disabling cycle since |
| `TruckRuns.RoboticFrameHasCause` | truck_controller/src/truck_application.cpp:145-199 | every robotic frame is sent while enabled, carries the clamped values of the most recent accepted command, received at most 0.3 s before and with no disabling cycle since |
| `TruckRuns.FreshCommandIsSent` | truck_controller/src/truck_application.cpp:145-199 | conversely, in every due cycle while enabled the most recent accepted command goes out if it is at most 0.3 s old and no disabling cycle ran since |
| `TruckRuns.RawInRange` | truck_controller/src/truck_dbw_controller.cpp:60-95 | the raw fields of every frame of every run are in range |
| `TruckRuns.FramesPaced` | truck_controller/src/truck_application.cpp:147-148 | a control frame is written exactly at the ticks more than 20 ms after the one before |
| `TruckRuns.ActiveIffRobotic` | truck_controller/src/truck_application.cpp:367-371 | the status reports active iff the last control frame was robotic |
| `TruckRuns.WrittenReadsBack` | truck_controller/src/truck_types.h:295-338 | the k-th frame of any run passes the CRC, is numbered k and reads back its raw fields and mode |
| `TruckRuns.WrittenOnWire` | truck_controller/src/truck_types.h:295-338 | the bytes of the k-th frame of any run: scaled fields with the low byte first, control byte 3 plus 4 times the mode code plus 16 times k + 1 modulo 16, check byte |
| `TruckRuns.EndToEnd` | truck_controller/src/truck_types.h:429-442 | frames of any run over a channel losing at most six in a row are all accepted, the first one by a receiver in step, and read back |
| `HistoryBuffer.Buffer.AddEntry` | sensor_fusion/src/twist_history_buffer.h:74-90 | computes `Added`; the pop loop ends before the newest entry |
| `HistoryBuffer.Buffer.GetLerp` | sensor_fusion/src/twist_history_buffer.h:98-136 | refused exactly outside the buffer's span, else the front or the bracketing pair's interpolation |
| `HistoryBuffer.BracketUnique` | sensor_fusion/src/twist_history_buffer.h:112-134 | a sorted buffer has one bracketing pair |
| `HistoryBuffer.BufferIsWindow` | sensor_fusion/src/twist_history_buffer.h:74-90 | after any additions the buffer is the entries since the last backward stamp no older than newest minus period, in order |
| `TwistHistory.BlendBetweenIff` | sensor_fusion/src/twist_history_buffer.h:198-223 | an interpolated component is between the samples iff under two whole seconds passed or the samples agree |
| `TwistHistory.BlendHitsIff` | sensor_fusion/src/twist_history_buffer.h:198-223 | a lookup at a later sample's stamp returns its value iff it is one whole second later or the samples agree |
| `TwistHistory.HitIff` | sensor_fusion/src/twist_history_buffer.h:98-136 | in a sorted buffer a lookup at a stored stamp returns the stored velocities iff the entry is the oldest, at least one and less than two seconds after its predecessor, or moves as it does |
| `TwistHistory.BetweenIff` | sensor_fusion/src/twist_history_buffer.h:98-136 | a lookup between two entries returns velocities between theirs iff it is less than two seconds after the earlier one or the two move alike |
| `TwistHistory.AnswerValue` | sensor_fusion/src/twist_history_buffer.h:198-223 | k whole seconds after an entry a lookup returns its velocities plus k times the difference to the next one's |
| `TwistHistory.WithinASecond` | sensor_fusion/src/twist_history_buffer.h:198-223 | under one second the earlier sample's velocities are returned |
| `TwistHistory.WithinTheNextSecond` | sensor_fusion/src/twist_history_buffer.h:198-223 | between one and two seconds the later sample's velocities are returned |
| `TwistHistory.HitMissesSample` | sensor_fusion/src/twist_history_buffer.h:127-134 | a concrete lookup at a stored stamp that misses the stored velocity |
| `TwistHistory.AnswerIsStamped` | sensor_fusion/src/twist_history_buffer.h:202-203 | every answer carries the time and frame asked for |
| `TwistHistory.TwistHistoryBuffer.AddTwist` | sensor_fusion/src/twist_history_buffer.h:151-161 | adds to the twist's own frame and leaves all others alone |
| `TwistHistory.TwistHistoryBuffer.GetTwist` | sensor_fusion/src/twist_history_buffer.h:168-177 | answers from the frame's buffer, stamped with the time asked for; at a stored stamp, when the stored velocities come back and when not |
| `DsrcScanner.Process` | dsrc_driver/src/dsrc_client.cpp:131-176 | reads outside the packet iff it has fewer than three bytes; otherwise delivers the frame at the least offset where a determinant and its body fit, or nothing if there is none |
| `DsrcScanner.DeliveryUnique` | dsrc_driver/src/dsrc_client.cpp:131-176 | the delivery is determined by the packet |
| `DsrcScanner.RoundTrip` | dsrc_driver/src/dsrc_client.cpp:131-176 | any identifier and any 1 to 16383-byte body, encoded and followed by anything, is delivered exactly |
| `PinPointReader.Reader.HandleReadHeader` | pinpoint_driver/src/pinpoint_driver.cpp:178-230 | takes the header step; flag, type, spare bit and size code make up the control byte |
| `PinPointReader.HeaderUnique` | pinpoint_driver/src/pinpoint_driver.cpp:217-230 | the two bytes determine the header |
| `PinPointReader.Reader.HandleReadSize` | pinpoint_driver/src/pinpoint_driver.cpp:233-255 | takes the size step |
| `PinPointReader.Reader.HandleReadMsg` | pinpoint_driver/src/pinpoint_driver.cpp:257-281 | takes the body step |
| `PinPointReader.Reader.Feed` | pinpoint_driver/src/pinpoint_driver.cpp:178-281 | a byte runs the pending handler when its read is complete |
| `PinPointReader.SizeBytes` | pinpoint_driver/src/pinpoint_driver.cpp:440-461 | the little-endian size field is as wide as its code says and reads back the size |
| `PinPointReader.StreamReadsBack` | pinpoint_driver/src/pinpoint_driver.cpp:178-281 | for every sequence of frames the reader queues exactly that sequence from the concatenated encodings and stays aligned |
| `PinPointMessages.WireFormat` | pinpoint_driver/src/pinpoint_driver.cpp:217-230 | the bytes of a message: control byte 128 flag + 8 type + 4 spare + code, identifier, length with the lowest byte first, payload |
| `PinPointMessages.StreamDelivers` | pinpoint_driver/src/pinpoint_driver.cpp:178-281 | for every sequence of messages the reader queues them all in order with flag, type, code, identifier and payload |
| `PinPointReader.CutStream` | pinpoint_driver/src/pinpoint_driver.cpp:178-281 | a stream cut inside a frame has queued exactly the frames before it |
| `PinPointReader.HandleUdpRead` | pinpoint_driver/src/pinpoint_driver.cpp:291-313 | ignores an empty datagram, reads outside the buffer iff the body would end beyond it, else queues the header and the slice behind as many bytes as the size code says |
| `PinPointReader.DatagramBytes` | pinpoint_driver/src/pinpoint_driver.cpp:291-313 | which bytes of a body are the datagram's own and which are left in the buffer from before |
| `PinPointReader.OwnMessageIff` | pinpoint_driver/src/pinpoint_driver.cpp:291-313 | a datagram with a complete size field determines what is queued iff it is as long as it announces |
| `PinPointReader.DatagramMatchesStream` | pinpoint_driver/src/pinpoint_driver.cpp:291-313 | for size codes 0 to 2 a datagram yields what the stream reader yields |
| `PinPointMessages.DatagramDelivers` | pinpoint_driver/src/pinpoint_driver.cpp:291-313 | so does a datagram of size code 0 to 2, whatever its buffer held before |
| `PinPointReader.DatagramOfCodeThree` | pinpoint_driver/src/pinpoint_driver.cpp:307 | for size code 3 it does so exactly when the payload is all zero |

## Left out

- Orientation and angular velocity of tracked objects, and the raw source bytes they carry: quaternion arithmetic of a library that is not part of this model, and plain copying.
- Floating-point rounding, overflow and not-a-number inputs with only some components affected; the tracker's life is a single-precision number in the code.
- A life-time divider of zero: the configuration type excludes it, since the code then divides by zero.
- The largest index value that stands for no neighbour: the model has an absent candidate instead, since no list is that long.
- Stamps keep microseconds; the twist buffer's conversion from nanoseconds is not modelled.
- Decoding of the radar's status, track and power payloads: the model keeps which frame a field came from, and takes the power group as read by the decoder.
- `boost::crc_basic` is not part of this repository; its register is modelled bit by bit.
- PropB_11 and the other receive messages: the same checks on other fields as PropB_12. PropB_26 runs its CRC past its array and is not modelled.
- Engine brake, LED, light and clear-fault messages, diagnostics, services, topics, threads, sockets and the transform lookups.
- The send side of the Delphi client: two of its flags share a bit, so it has no inverse.
- What a read outside a DSRC packet or outside the 2048-byte datagram buffer returns: the model ends there with `ReadOutside`.
- PidParams.SetF: nothing is stated for negative gains; the code then wraps or throws.
- A negative history period: the code accepts one, pops every entry including the newest and then reads the front of an empty deque; `Buffer` and `TwistHistoryBuffer` ask for a non-negative one.
- The hexadecimal text codec of socketcan_interface, the J2735 and wgs84 converters, the other vehicle controllers, the website and the Java side: easy round trips, field copying or trigonometry.
