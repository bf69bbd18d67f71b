# Verification of the campus traffic backend

This project models the parts of the campus traffic system whose correctness is hard to see from
one function at a time, and proves properties of the models with Dafny. Run it with
`dafny verify dfyconfig.toml`.

It covers four groups of code.

1. **The parking controller** (`backend/sumo/controller/`, `backend/sumo/parking_choice.py`):
   reservations of physical parking areas, the search for another lot, the pedestrian counter, and
   the checkpoint and rollback protocol around crashes of the simulator.
   `ParkingModel` gives one loop iteration as a function on values, `ParkingSafety` its invariants
   over whole runs, `CrashRecovery` the refinement of runs with crashes by runs without.
   `ParkingSelection`, `ParkingVisits` and `ParkingStops` say what an iteration does in the terms of
   roads, areas, records and logs. `Controller` holds the objects that are updated in place, each
   method proved equal to its function.
2. **Batch calibration** (`vehicle_calibration/calibrate.py`,
   `sensitivity_analysis/sensitivity.py`): the resumable scheduler, its invariants over whole studies
   (`SchedulerSafety`, `SchedulerResults`) and what each poll achieves (`SchedulerProgress`), the
   exact-sum projection, largest-remainder allocation, Cholesky solves and Gauss-Jordan least squares.
3. **Queue, run and flow-calibration protocols** (`backend/shared/worker_runtime.py`,
   `backend/services/simulation_worker/main.py`, `backend/domain/simulations/service.py`,
   `backend/shared/database.py`, `backend/domain/calibration/service.py`).
4. **Geometry, closure and re-binning** (`backend/domain/models/`,
   `backend/domain/analytics/service.py`).

## Conventions and assumptions

- Numbers are exact: integers and reals. Products of reals go through `LinearAlgebra.Times`.
- What comes from outside (the simulator, the broker, the database, the server, files, random draws,
  fitted curves) arrives as a parameter or as an event that may take any value, within the
  assumptions below.
- A method that the source writes as a loop over changing variables is a method or a class here; its
  contract ties the new state to a function of the old one, and the lemmas are about the function.
- Parking: the simulator raises the occupancy of an area by at most the number of vehicles that hold
  a reservation of it and start their stop in that iteration (`OnlyStartsOccupy`); this is assumed only
  for the capacity result. For that result the areas of a site with the balanced policy have a
  capacity of at least one (`Sound`), because this policy counts a capacity of zero as one. Lot
  identifiers are not empty.
- Pedestrians: one detector per zone identifier, positive periods, start before end (`ValidZones`).
  For what a whole run writes: every observation is before its iteration's step, and the simulator's
  time never goes back (`Advances`).
- Scheduler: the server's run statuses only move forward, and a submission is not answered with a
  failed run (`Honest`). An interrupt falls between the updates of two candidates or between two whole
  batches. For distinct parameters, the generated ones are canonical and rounding to the search space is
  stable (`Stepped`). Candidate identifiers are positions in the order of creation.
- Flow calibration: one delivery is handled at a time and every write succeeds; new run ids are new.
- Cancellation: the database answers every call, and workers share no disk with each other or the API,
  so that a worker's second read of a run it claimed sees what the claim wrote.
- Queue: other processes may write a run's record at any time, with any status (`Write`).
- Projection: the quantum exceeds the tolerance of 1e-9 that the code itself uses (`Aligned`).

## Findings

Properties that turned out false of the code are kept as the code has them, with a concrete input and
the exact condition.

- A refused assignment releases an area it never reserved: the counter then falls below the number of
  holders exactly when it was not zero (`FailureUnbalances`, reached by `RefusalReached`).
- After a failure behind the bookkeeping a vehicle can be both assigned and completed: when no open lot
  has a route, can be reached and is not known to be full, and with answers that are the same in every
  round of the search exactly then (`LateFailureMixes`, reached by `LateFailureReached`).
- The balanced policy can choose an area without any space, exactly when its capacity is zero
  (`ChooseIsFree`, `BalancedIgnoresZeroCapacity`, reached by `OverbookingReached`).
- A scored invalid candidate goes back to `completed` at the next poll and never counts as finished
  again, so its phase stalls, whatever interrupts, unlisted runs and manual retries follow
  (`InvalidReturns`, `InvalidFreezes`, `StuckForever`, reached by `StuckIsReached` with one retry).
- An interrupt while the validation candidates are created can leave some of them: no more are ever
  created, and the phase ends only with as many as the budget asks for (`ValidationIsFixed`,
  `PartialValidationStalls`, reached by `InterruptedSize`).
- A crash before the newest run was published strands a flow-calibration session for good. There are
  two places for it: after the run's id was persisted, and between the two writes of a failed
  publication (`AdvancesIffPublished`, `CreationStrandsIff`, `DeliveryStrandsIff`, `StrandedForever`).
- Canonical vehicle counts are stable exactly when both ends of the range survive rounding to the step
  and no count between them, once produced, has its nearest multiple of the step nearer to zero than
  itself (`CountIdempotentIff`). The second part always holds for whole steps and steps of at least two
  (`StableStepStays`). Each part can fail (`UnalignedCountMoves`, `FractionalStepMoves`).
- `allocate_counts` adds up exactly when the sum of the floors lies between the count minus the number
  of origins and the count; a negative share breaks this (`AllocationRule`,
  `NegativeShareOverallocates`).
- The pivot threshold is absolute, so a system with exactly one solution can be refused: exactly when
  some pivot is below 1e-12 without being zero (`RefusedIff`, `TinyPivotIsWellPosed`).
- The detector's writer leaves out an entry at the very end of the time it is told, exactly when a
  period of the zone starts there (`RunIsWrittenIff`, `EntryAtEndIsLost`). The controller never tells it
  such a time, so its runs lose nothing (`NothingIsLost`).
- A run removed from the queue can show as running again, exactly when an execution is about to write a
  record it read before: in a claim or right behind it, at the launch of a command, behind the checks
  that follow a command whose findings are noted, in the simulation itself, or when finishing
  (`RemovedStaysFailedIff`, reached by `RemovedRunRevives`).

## Model

| member | source | states |
|---|---|---|
| ParkingGroups.ParkingGroupManager.Reserve | backend/sumo/controller/parking_group_manager.py:311-312 | the counter of the area rises by one and no other changes |
| ParkingGroups.ParkingGroupManager.Release | backend/sumo/controller/parking_group_manager.py:314-318 | the counter falls by one but never below zero |
| ParkingGroups.ParkingGroupManager.LogicalHasFreeSpace | backend/sumo/controller/parking_group_manager.py:329-333 | true exactly when some selectable area of the lot has a free space |
| ParkingGroups.ParkingGroupManager.TotalFreeSpaces | backend/sumo/controller/parking_group_manager.py:335-340 | the free spaces of the selectable areas, summed up (TotalsAreSums); zero exactly when no area has one |
| ParkingGroups.ParkingGroupManager.ChooseNearVehicle | backend/sumo/controller/parking_group_manager.py:355-373 | the first open area of least route cost; none exactly when no open area has one |
| ParkingGroups.ParkingGroupManager.ChooseReachable | backend/sumo/controller/parking_group_manager.py:431-445 | exactly the open areas with a route, in order |
| ParkingGroups.ParkingGroupManager.ChooseBalanced | backend/sumo/controller/parking_group_manager.py:447-475 | the first eligible area that no other eligible area beats on reservations, utilisation, cost and free spaces (BalancedIsFirst) |
| ParkingGroups.ParkingGroupManager.ChoosePhysical | backend/sumo/controller/main.py:583-597 | the configured policy's choice and the random draws it used |
| ParkingModel.TotalFree | backend/sumo/controller/parking_group_manager.py:335-340 | the total is zero exactly when the lot has no free space |
| ParkingModel.Nearest | backend/sumo/controller/parking_group_manager.py:355-373 | the result is an open area at least as near as every other open one |
| ParkingModel.Balanced | backend/sumo/controller/parking_group_manager.py:447-475 | no eligible area is better than the result |
| ParkingSelection.TotalsAreSums | backend/sumo/controller/parking_group_manager.py:320-340 | the totals of a lot are the sums over its areas: every capacity, and the spaces of the usable areas that are neither occupied nor reserved |
| ParkingSelection.BetterIsBeats | backend/sumo/controller/parking_group_manager.py:447-475 | the balanced order in the areas' own numbers: fewer reservations, then a smaller part in use, then nearer, then more free spaces |
| ParkingSelection.NearestIsFirst | backend/sumo/controller/parking_group_manager.py:355-373 | the nearest policy takes the first area on offer at least as near as every other |
| ParkingSelection.BalancedIsFirst | backend/sumo/controller/parking_group_manager.py:447-475 | the balanced policy takes the first area on offer that none beats |
| ParkingSelection.ReachableIsOffers | backend/sumo/controller/parking_group_manager.py:431-445 | the random policy draws from exactly the areas on offer, in their order |
| ParkingSelection.SelectionIsPolicy | backend/sumo/controller/main.py:1167-1173 | a lot without room gives no area; otherwise the policy selects the first best area on offer, or the one the next random number points to, which is then used up |
| ParkingModel.FirstPassed | backend/sumo/controller/main.py:187-215 | the first other unattempted candidate that the current road gives access to, none exactly when there is none |
| ParkingVisits.VisitTries | backend/sumo/controller/main.py:187-215 | a vehicle neither done nor assigned whose target exists tries it exactly when every road counts or the road gives access to it, and otherwise the first open candidate it passes; nothing changes exactly when there is none of these |
| ParkingVisits.PassByIsQuick | backend/sumo/controller/main.py:1205-1210 | a full lot in passing starts no search: only the attempt is noted |
| ParkingVisits.AcceptedIsAssigned | backend/sumo/controller/main.py:1226-1278 | an accepted assignment books exactly one reservation, binds the vehicle to area and lot, and sets a stop to the end of the simulation, at least a second, or of the next random length |
| ParkingVisits.FailureIsReleased | backend/sumo/controller/main.py:1280-1292 | what a failed assignment leaves before the search: the failure logged, the area released, and the bookkeeping kept only when it came first |
| ParkingVisits.VisitEnds | backend/sumo/controller/main.py:1111-1305 | how a visit ends, from what the policy selects at the lot it tries and how the commands end: assigned, only noted, or a search from the noted attempt or the failed assignment |
| ParkingVisits.SearchGoesByLots | backend/sumo/controller/main.py:665-820 | from site, counters and occupancy: a lot is rejected as known full only when no usable area has room and the vehicle knows it, as without route only when the simulator refuses; a new target is open, reachable, and has room if the vehicle knows how full it is |
| ParkingVisits.FoundIsBest | backend/sumo/controller/main.py:704-771 | a new target is worth most to the driver among the open candidates that can be reached and are not known to be full, each compared with its capacity, its free spaces and its travel time; among equals it has the smallest identifier |
| ParkingVisits.SearchLogIsComplete | backend/sumo/controller/main.py:665-820 | a search logs exactly the lots it rejects, and last the target it moves to |
| ParkingSafety.ChooseIsFree | backend/sumo/controller/main.py:1167-1173 | a chosen area belongs to the lot and may be used; it has a free space exactly when the policy is not the balanced one or its capacity is at least one |
| ParkingSafety.BalancedIgnoresZeroCapacity | backend/sumo/controller/parking_group_manager.py:447-475 | next to an open area that is further away, the balanced policy chooses an area of capacity zero, and booking it exceeds the capacity |
| ParkingSafety.AssignAccounts | backend/sumo/controller/main.py:1252-1305 | an assignment keeps counters at most the holders, keeps them exact when it does not fail, and only raises a counter where a space is free |
| ParkingSafety.TryParkAccounts | backend/sumo/controller/main.py:1167-1305 | the same for a whole parking attempt, whichever branch it takes |
| ParkingSafety.StartAccounts | backend/sumo/controller/main.py:1307-1335 | a stop start releases exactly the vehicle's reservation and keeps the accounting |
| ParkingSafety.EndAccounts | backend/sumo/controller/main.py:1337-1374 | a stop end keeps the accounting, unassigns the vehicle and raises no counter |
| ParkingStops.StartsAre | backend/sumo/controller/main.py:1307-1335 | stop starts give back exactly the reservations of the assigned vehicles that start, send their occupants off, and log each one with its lot and area |
| ParkingStops.EndsAre | backend/sumo/controller/main.py:1337-1374 | stop ends leave exactly those vehicles done, without assignment, duration or reservation, and log each one with the area it leaves |
| ParkingStops.ArrivalsAre | backend/sumo/controller/main.py:1376-1396 | exactly the arrived vehicles that neither parked nor have an area are logged as unserved |
| ParkingStops.RowsAre | backend/sumo/controller/main.py:1093-1109 | one row for every area of every lot, in order, whose free spaces are what is neither occupied nor reserved |
| ParkingStops.IterationIs | backend/sumo/controller/main.py:839-1396 | an iteration is the minute's log, then every visit in turn, then stop starts, stop ends and arrivals |
| ParkingSafety.StepAccounts | backend/sumo/controller/main.py:1111-1396 | one loop iteration keeps the accounting, and keeps completed vehicles unassigned unless an assignment failed behind its bookkeeping |
| ParkingSafety.StepFits | backend/sumo/controller/main.py:1111-1396 | one iteration without failed assignment keeps occupied plus reserved within the capacity, although occupancy rises before the release |
| ParkingSafety.RunAccounts | backend/sumo/controller/main.py:839-1396 | on every run each counter is at most the number of holders, and holders are assigned vehicles |
| ParkingSafety.RunIsSafe | backend/sumo/controller/main.py:839-1396 | on every run without a failed assignment each counter equals the number of its holders and occupied plus reserved never exceeds the capacity |
| ParkingSafety.FailureUnbalances | backend/sumo/controller/main.py:1280-1281 | after a refused assignment the counter is right exactly when there was nothing to release; after a failure behind the bookkeeping it is one short |
| ParkingSafety.LateFailureMixes | backend/sumo/controller/main.py:1280-1305 | after a failure behind the bookkeeping the vehicle is assigned and completed when no open lot is ever usable, and is not when one always is; with steady answers exactly one of the two is the case |
| ParkingSafety.RerouteDecides | backend/sumo/controller/main.py:1211-1223 | the vehicle is marked unserved exactly when every existing destination lot is attempted or rejected |
| ParkingSafety.RunUnservedExhausted | backend/sumo/controller/main.py:633-663 | on every run a vehicle reported unserved has attempted or rejected every existing destination lot |
| ParkingRuns.RefusalReached | backend/sumo/controller/main.py:1280-1281 | a run of two vehicles in which a counter ends one below its holders |
| ParkingRuns.LateFailureReached | backend/sumo/controller/main.py:1280-1305 | a run of one vehicle that ends assigned and completed |
| ParkingRuns.OverbookingReached | backend/sumo/controller/parking_group_manager.py:457-475 | a run in which the balanced policy overbooks an area |
| Reroute.RoundShrinks | backend/sumo/controller/main.py:672-820 | a round that does not finish leaves fewer open candidates, so the loop ends |
| Reroute.RoundRejects | backend/sumo/controller/main.py:672-820 | a round that gives up has rejected every open lot; a new target was open and is not rejected |
| Reroute.DecideTakesBest | backend/sumo/controller/main.py:721-771 | a new target can be reached, and no routable lot not known to be full has a greater utility among the offers compared |
| Reroute.TargetIsBest | backend/sumo/controller/main.py:665-820 | the target of a search is the best offer of the round that found it, which compares exactly the open lots with a route that are not known to be full |
| Reroute.GivesUpIffExhausted | backend/sumo/controller/main.py:665-820 | the search gives up exactly when every existing candidate is attempted or rejected, and otherwise moves to an open one |
| Reroute.RejectionsJustified | backend/sumo/controller/main.py:680-745 | every event of the search is justified by the round that logged it: a refused route or lot in this round, a lot full and known to be so in this round's decision, or a usable target |
| Reroute.RoundJustified | backend/sumo/controller/main.py:672-820 | a round rejects only lots that its own answers and its own decision make unusable, and its target is usable |
| Reroute.SucceedsIff | backend/sumo/controller/main.py:665-820 | the search fails if no open lot is ever usable, succeeds if one always is, and with steady answers succeeds exactly when an open lot is usable |
| Reroute.Unattempted | backend/sumo/controller/vehicle_tracker.py:134-142 | exactly the candidates neither attempted nor rejected |
| VehicleTracking.VehicleTracker.MarkParkingAttempt | backend/sumo/controller/vehicle_tracker.py:101-119 | the lot is attempted once, and the number of attempts is returned |
| VehicleTracking.VehicleTracker.MarkCandidateRejected | backend/sumo/controller/vehicle_tracker.py:144-149 | the lot is rejected once |
| VehicleTracking.VehicleTracker.NextDecisionIndex | backend/sumo/controller/vehicle_tracker.py:151-154 | decisions are counted from one |
| VehicleTracking.VehicleTracker.MarkTargetChanged | backend/sumo/controller/vehicle_tracker.py:304-329 | the lot becomes the target, and attempts and rejections stay |
| RerouteLoop.CollectRoutable | backend/sumo/controller/main.py:681-720 | lots without a route are rejected and logged, the others become offers |
| RerouteLoop.RejectKnownFull | backend/sumo/controller/main.py:736-763 | exactly the offers that the ranking dropped are rejected and logged |
| RerouteLoop.SearchRound | backend/sumo/controller/main.py:672-820 | one round's effect on record, log and target |
| RerouteLoop.RerouteToNextCandidate | backend/sumo/controller/main.py:665-820 | the loop terminates and leaves record, log and target as the search specifies |
| ParkingChoice.RankParkingCandidates | backend/sumo/parking_choice.py:168-331 | the eligible offers in order of utility and then identifier |
| ParkingChoice.RankedSelects | backend/sumo/parking_choice.py:195-219 | exactly the offers not known to be full are ranked, and the first has the greatest utility |
| Sorting.SortSorts | backend/sumo/parking_choice.py:328-331 | the result is sorted when the order is a weak order |
| Sorting.SortHolds | backend/sumo/parking_choice.py:328-331 | sorting neither loses nor adds elements |
| Sorting.SortKeepsTies | backend/sumo/parking_choice.py:328-331 | elements that the order does not tell apart keep their order |
| Sorting.StringBeforeIff | backend/sumo/parking_choice.py:328-331 | one identifier is before another exactly when it ends or has the smaller character where they first differ |
| CrashRecovery.StepContinues | backend/sumo/controller/main.py:1038-1396 | an iteration only appends to the event and occupancy logs |
| CrashRecovery.RestoreUndoes | backend/sumo/controller/main.py:553-581 | restoring a captured state after anything that only continued the logs gives that state back |
| CrashRecovery.RestoreRepeatable | backend/sumo/controller/main.py:949-980 | one checkpoint restored after any iterations, and again after any others, gives the same state |
| CrashRecovery.CrashesAreInvisible | backend/sumo/controller/main.py:829-1037 | from the checkpoint before the loop on, every state and log reached with crashes is the one a run of the surviving iterations reaches without crashes; completed persons differ exactly by the quarantined ones, which QuarantineIsExact names |
| CrashRecovery.QuarantineIsExact | backend/sumo/controller/main.py:981-982 | on every run exactly the candidates of the crashes that the run survived are quarantined, and they count as completed |
| CrashRecovery.CompletedPersons | backend/sumo/controller/main.py:981-1041 | completed are exactly the persons that arrived in an iteration that was not rolled back and the candidates of the crashes that the run survived |
| CrashRecovery.RestartsAreBounded | backend/sumo/controller/main.py:928-940 | the recovery counter is the number of recovered crashes and never exceeds the configured maximum |
| CrashRecovery.CheckpointExists | backend/sumo/controller/main.py:829-831 | there is a checkpoint to go back to at every point of a run exactly when recovery is on and an attempt is allowed |
| CrashRecovery.CheckpointIff | backend/sumo/controller/main.py:1398-1405 | a completed iteration takes a checkpoint exactly when the last one is at least an interval old, and it captures the state at its own end |
| CrashRecovery.CheckpointIsRecent | backend/sumo/controller/main.py:1398-1405 | with recovery on, on every run with crashes the last checkpoint is younger than the interval |
| CrashRecovery.FatalIff | backend/sumo/controller/main.py:928-938 | a crash ends the run exactly when recovery is off, it is not recoverable, no candidate is left, or the attempts are used up; the run then keeps what it had |
| CrashRecovery.CrashedRunIsSafe | backend/sumo/controller/main.py:829-1405 | accounting, capacity safety and the unserved promise hold on runs with crashes |
| MetricsLogger.CsvLogger.Write | backend/sumo/controller/metrics_logger.py:15-16 | one row is appended |
| MetricsLogger.CsvLogger.Checkpoint | backend/sumo/controller/metrics_logger.py:21-24 | the position is the end of the log |
| MetricsLogger.CsvLogger.Restore | backend/sumo/controller/metrics_logger.py:26-30 | exactly the rows up to the position remain |
| Controller.ParkingController.RerouteOrMarkUnserved | backend/sumo/controller/main.py:1211-1223 | the search in place, and the marks of an unserved vehicle; what it goes by is SearchGoesByLots and FoundIsBest |
| Controller.ParkingController.AssignArea | backend/sumo/controller/main.py:1252-1305 | route, stop, bookkeeping and the failure branch in place |
| Controller.ParkingController.AttemptParking | backend/sumo/controller/main.py:1167-1305 | a parking attempt in place |
| Controller.ParkingController.VisitVehicles | backend/sumo/controller/main.py:1111-1305 | all vehicles in order; when and where each tries to park is VisitTries, how its visit ends VisitEnds |
| Controller.ParkingController.StopStarting | backend/sumo/controller/main.py:1307-1335 | a stop start in place |
| Controller.ParkingController.StopEnding | backend/sumo/controller/main.py:1337-1374 | a stop end in place |
| Controller.ParkingController.Arrive | backend/sumo/controller/main.py:1376-1396 | an arrival without an assigned stop is logged as unserved |
| Controller.ParkingController.LogOccupancy | backend/sumo/controller/main.py:1093-1109 | one row for every area of every lot, with consistent free spaces |
| Controller.ParkingController.Iterate | backend/sumo/controller/main.py:839-1396 | one whole iteration in place equals the step function |
| Controller.ParkingController.CaptureState | backend/sumo/controller/main.py:553-581 | the saved state has a tracker of its own and means the captured checkpoint |
| Controller.ParkingController.RestoreState | backend/sumo/controller/main.py:949-980 | every field and both logs are back, with a fresh copy of the saved tracker |
| Controller.RecoveringController.Advance | backend/sumo/controller/main.py:1038-1405 | an iteration with a checkpoint at its end when one is due |
| Controller.RecoveringController.Turn | backend/sumo/controller/main.py:916-1037 | a completed, recovered or fatal iteration in place; the checkpoint never shares its tracker with the running state; who is quarantined is QuarantineIsExact |
| Controller.RecoveringController.Run | backend/sumo/controller/main.py:829-1405 | a whole run in place, from the state saved before the loop on |
| Controller.RecoveringController.constructor | backend/sumo/controller/main.py:829-831 | with recovery on, a first state is saved before the loop, with a tracker of its own |
| PedestrianModel.ObserveTracks | backend/sumo/controller/fast_pedestrian_detector.py:102-156 | after an observation exactly the current walkers are remembered, each with exactly the zones that contain it |
| PedestrianModel.ObserveRemembersTime | backend/sumo/controller/fast_pedestrian_detector.py:153-156 | the latest observation time is remembered |
| PedestrianModel.RestoreIsIdentityIff | backend/sumo/controller/fast_pedestrian_detector.py:173-220 | restoring a snapshot is the identity exactly when no remembered stage type is zero |
| PedestrianModel.ObserveKeepsWalking | backend/sumo/controller/fast_pedestrian_detector.py:102-220 | reachable states remember only walkers, so restoring their snapshots is the identity |
| PedestrianCounting.ObserveCounts | backend/sumo/controller/fast_pedestrian_detector.py:102-171 | an observation adds to a zone's total exactly the number of persons that enter it |
| PedestrianCounting.WalkCountedOnce | backend/sumo/controller/fast_pedestrian_detector.py:123-156 | a monotone walk from before a zone to beyond it is counted exactly once, whatever the sample points |
| PedestrianDetector.WrittenIsTotalIff | backend/sumo/controller/fast_pedestrian_detector.py:222-265 | the written counts are all entries exactly when every bucket starts inside the written time |
| PedestrianDetector.WrittenIff | backend/sumo/controller/fast_pedestrian_detector.py:158-265 | an entry at a time of the run is written exactly when it is not at the very end with a period starting there |
| PedestrianDetector.RunIsWrittenIff | backend/sumo/controller/fast_pedestrian_detector.py:102-265 | the written counts of a run are all its entries exactly when no sample at the very end records an entry into a zone with a period starting there |
| PedestrianDetector.RunIsCovered | backend/sumo/controller/fast_pedestrian_detector.py:222-265 | observation times inside the run make the written counts add up to all entries |
| PedestrianDetector.RecordedIsCovered | backend/sumo/controller/fast_pedestrian_detector.py:158-171 | an entry recorded inside the run lands in a written interval |
| PedestrianDetector.EntryAtEndIsLost | backend/sumo/controller/fast_pedestrian_detector.py:222-265 | a writer told an end no later than the observation leaves out an entry at that end that opens a period |
| PedestrianDetector.FastPedestrianDetector.RecordEntry | backend/sumo/controller/fast_pedestrian_detector.py:158-171 | one entry and its speed are added to the bucket of its period |
| PedestrianDetector.FastPedestrianDetector.ObserveWalker | backend/sumo/controller/fast_pedestrian_detector.py:116-156 | one walker against every zone on its edges |
| PedestrianDetector.FastPedestrianDetector.Observe | backend/sumo/controller/fast_pedestrian_detector.py:102-156 | a whole observation in place |
| PedestrianDetector.FastPedestrianDetector.Restore | backend/sumo/controller/fast_pedestrian_detector.py:196-220 | the state the snapshot describes |
| PedestrianDetector.FastPedestrianDetector.WriteZone | backend/sumo/controller/fast_pedestrian_detector.py:222-265 | the intervals of one zone hold exactly its covered buckets |
| PedestrianDetector.FastPedestrianDetector.WriteIntervals | backend/sumo/controller/fast_pedestrian_detector.py:222-265 | the written counts add up to the covered buckets, and to all entries when all are covered |
| PedestrianRuns.RunObserves | backend/sumo/controller/main.py:901-904 | the controller's counter is the detector run over its observations |
| PedestrianRuns.NothingIsLost | backend/sumo/controller/main.py:1441-1449 | on every run of the controller the written counts are all entries |
| PedestrianRuns.NothingIsLostWithCrashes | backend/sumo/controller/main.py:916-1449 | the same on runs with crashes that end without an error |
| LeastSquares.FindPivot | sensitivity_analysis/sensitivity.py:1210 | the first row of greatest absolute value |
| LeastSquares.NormalizePivotRow | sensitivity_analysis/sensitivity.py:1213-1215 | swapping and dividing keeps exactly the solutions |
| LeastSquares.EliminateColumn | sensitivity_analysis/sensitivity.py:1216-1223 | eliminating keeps exactly the solutions and clears the column |
| LeastSquares.SolveLinearSystem | sensitivity_analysis/sensitivity.py:1206-1224 | none exactly when the pivot of some column is below 1e-12, and otherwise the unique solution |
| LeastSquares.EliminatedKeeps | sensitivity_analysis/sensitivity.py:1209-1223 | as long as no pivot is zero, pivoting keeps exactly the solutions and turns the columns into unit columns |
| LeastSquares.WellPosedIff | sensitivity_analysis/sensitivity.py:1206-1224 | a system has exactly one solution exactly when no pivot is zero |
| LeastSquares.RefusedIff | sensitivity_analysis/sensitivity.py:1211-1212 | a system with exactly one solution is refused exactly when some pivot is below 1e-12 without being zero; every other system is refused |
| LeastSquares.ZeroColumnIsSingular | sensitivity_analysis/sensitivity.py:1211-1212 | stopping at an exactly zero column means that there is no unique solution |
| LeastSquares.TinyPivotIsWellPosed | sensitivity_analysis/sensitivity.py:1211-1212 | a system with a tiny coefficient has a unique solution and is refused |
| LeastSquares.NormalEquations | sensitivity_analysis/sensitivity.py:1231-1236 | the assembled system says exactly that the residual is orthogonal to every feature |
| LeastSquares.Pythagoras | sensitivity_analysis/sensitivity.py:1227-1236 | moving away from a solution adds exactly the squared length of the change in prediction |
| LeastSquares.NormalSolutionMinimizes | sensitivity_analysis/sensitivity.py:1227-1236 | a unique solution of the normal equations is the only minimiser of the squared error |
| LeastSquares.Regression | sensitivity_analysis/sensitivity.py:1227-1236 | coefficients are the unique global minimiser of the sum of squared residuals; there are none exactly when the lengths do not fit or the normal equations are refused |
| Cholesky.CholeskyRow | vehicle_calibration/calibrate.py:432-443 | one row of the factor; refused exactly when the pivot is not positive |
| Cholesky.Factor | vehicle_calibration/calibrate.py:429-443 | on a symmetric matrix a factor is returned exactly when it is positive definite; it is lower triangular with positive diagonal and its product with its transpose is the matrix |
| Cholesky.NotPositiveDefinite | vehicle_calibration/calibrate.py:438-439 | a non-positive pivot comes with a direction along which the quadratic form is not positive |
| Cholesky.ForwardSolve | vehicle_calibration/calibrate.py:446-452 | the result solves the lower triangular system |
| Cholesky.BackwardSolve | vehicle_calibration/calibrate.py:455-462 | the result solves the transposed system |
| Cholesky.SolvedThroughFactor | vehicle_calibration/calibrate.py:494 | backward after forward substitution solves the factored system |
| Cholesky.TryJitter | vehicle_calibration/calibrate.py:482-490 | one attempt fails exactly when the jittered kernel is not positive definite |
| Cholesky.FitSurrogate | vehicle_calibration/calibrate.py:478-494 | the weights solve the kernel system with the least jitter that makes it definite; an error exactly when none of the eight does |
| Cholesky.FittedSolves | vehicle_calibration/calibrate.py:478-494 | the weights solve the kernel system with the jitter on its diagonal, row by row |
| ProjectionProofs.BisectBrackets | vehicle_calibration/calibrate.py:229-237 | the bisection keeps the target bracketed and halves the bracket |
| ProjectionProofs.ContinuousProjection | vehicle_calibration/calibrate.py:227-238 | before rounding the vector is inside the bounds with its sum within the final bracket of the target |
| ProjectionProofs.RepairReaches | vehicle_calibration/calibrate.py:241-255 | every repair step finds an eligible entry and the sum lands on the target |
| ProjectionProofs.ProjectMeetsTarget | vehicle_calibration/calibrate.py:218-256 | on aligned bounds and target the projection succeeds exactly when the target is feasible, and is then inside the bounds with exactly that sum |
| ProjectionProofs.ProjectFixesFeasible | vehicle_calibration/calibrate.py:218-256 | a feasible aligned vector is returned unchanged |
| ProjectionProofs.ProjectIdempotent | vehicle_calibration/calibrate.py:218-256 | projecting twice is projecting once |
| ProjectionProofs.RepairIsShort | vehicle_calibration/calibrate.py:241-255 | at most one unit per entry is repaired |
| Projection.BisectShift | vehicle_calibration/calibrate.py:227-236 | the loop of eighty halvings |
| Projection.RepairSum | vehicle_calibration/calibrate.py:241-255 | the repair loop with its first nearest eligible entry |
| Projection.RoundHalfEven | vehicle_calibration/calibrate.py:214-215 | the nearest whole number, and of two equally near ones the even one |
| Projection.ProjectSumWithBounds | vehicle_calibration/calibrate.py:218-256 | the whole projection |
| Allocation.AllocateCounts | sensitivity_analysis/sensitivity.py:223-244 | floors, then one more for the first of the order, or the error |
| Allocation.RemainderInRange | sensitivity_analysis/sensitivity.py:235-238 | on non-negative shares fewer units than origins remain |
| Allocation.AllocationRule | sensitivity_analysis/sensitivity.py:223-244 | every entry is its quota's floor or one more; none left at its floor has a larger remainder than one rounded up, or the same and a smaller identifier; the sum is the count exactly when the remainder is between zero and the number of origins |
| Allocation.AllocationIsExact | sensitivity_analysis/sensitivity.py:223-244 | on non-negative shares the entries add up to the count exactly |
| Allocation.NegativeShareOverallocates | sensitivity_analysis/sensitivity.py:235-240 | one vehicle over the shares 2 and -1 is allocated as three |
| Allocation.AllocationOfWholeShares | sensitivity_analysis/sensitivity.py:223-244 | shares proportional to whole counts give back those counts |
| Parameters.CountIdempotentIff | vehicle_calibration/calibrate.py:315-318 | canonical counts are stable for every count exactly when both ends of the range survive rounding and every count produced between them is regained from its own value |
| Parameters.StableStepStays | vehicle_calibration/calibrate.py:214-215 | with a whole step or a step of at least two every count is regained |
| Parameters.RegainedIff | vehicle_calibration/calibrate.py:214-215 | a count that rounding produces is fixed exactly when its nearest multiple is not nearer to zero than the count |
| Parameters.UnalignedCountMoves | vehicle_calibration/calibrate.py:315-318 | a range that does not start on the step moves 120 to 150 and then to 200 |
| Parameters.FractionalStepMoves | vehicle_calibration/calibrate.py:315-318 | with a step of 1.2 both ends of a range are stable and a count in between moves from 5 to 4 and then to 3 |
| Parameters.CanonicalIdempotent | vehicle_calibration/calibrate.py:315-331 | canonicalising canonical parameters changes nothing |
| Parameters.CanonicalIs | vehicle_calibration/calibrate.py:315-331 | canonical parameters: a count in range and within half a step and one of the wanted one, shares of whole counts that add up to it, each within one vehicle of its quota, the projected peaks, and a seed |
| Parameters.CanonicalIff | vehicle_calibration/calibrate.py:315-331 | parameters can be made canonical exactly when there is a share for every origin and one is positive, and the peaks are as many as the profile's and their sum is feasible |
| Parameters.CandidatePool | vehicle_calibration/calibrate.py:864-886 | distinct unseen generated parameters, all of them when fewer than asked for |
| Parameters.SelectIndices | vehicle_calibration/calibrate.py:938-953 | the greedy selection: distinct indices, each of greatest score among those left when chosen |
| Parameters.CreateBatch | vehicle_calibration/calibrate.py:999-1015 | exactly the drawn parameters are appended, and no two candidates have equal parameters afterwards; it fails exactly when the pool is too small |
| Parameters.StoreSelected | vehicle_calibration/calibrate.py:956-996 | the stored parameters are the selected ones |
| Parameters.BatchIsDistinct | vehicle_calibration/calibrate.py:956-996 | storing new parameters keeps all calibration parameters distinct |
| Parameters.DrawnIsNew | vehicle_calibration/calibrate.py:864-996 | the parameters of a batch are as many as asked for, pairwise different, generated, and none of them seen before |
| SchedulerModel.Finalists | vehicle_calibration/calibrate.py:1025-1028 | exactly the valid calibration candidates |
| SchedulerModel.OnlyPlanned | vehicle_calibration/calibrate.py:1189 | exactly the planned candidates |
| SchedulerSafety.ReconcileOneKeeps | vehicle_calibration/calibrate.py:1070-1087 | taking over the server's status keeps the attempt count, starts nothing, and keeps valid and done candidates |
| SchedulerSafety.CollectOneKeeps | vehicle_calibration/calibrate.py:1114-1154 | after collecting, a candidate that counts as finished is done for good |
| SchedulerSafety.RetryKeeps | vehicle_calibration/calibrate.py:1090-1111 | a manual retry adds one possible attempt |
| SchedulerSafety.CreateBatchKeeps | vehicle_calibration/calibrate.py:999-1015 | a batch of four is created within the budget, with the next batch number |
| SchedulerSafety.ValidationExtends | vehicle_calibration/calibrate.py:1018-1067 | validation candidates fill the validation budget exactly, in batches of four |
| SchedulerSafety.ChosenFit | vehicle_calibration/calibrate.py:1176-1189 | distinct planned candidates are chosen, no more than there are free slots |
| SchedulerSafety.SentKeeps | vehicle_calibration/calibrate.py:1188-1201 | at most four are in flight after submitting, and no finished candidate is touched |
| SchedulerSafety.AdvanceKeeps | vehicle_calibration/calibrate.py:1212-1227 | a phase is left only full and with every candidate done |
| SchedulerSafety.PollKeeps | vehicle_calibration/calibrate.py:1453-1475 | wherever a poll stops, the invariant holds and valid and done candidates are kept |
| SchedulerSafety.RunKeeps | vehicle_calibration/calibrate.py:1426-1500 | the invariant holds after every sequence of polls, interrupts, errors and resumptions |
| SchedulerResults.InFlightAndAttempts | vehicle_calibration/calibrate.py:1114-1201 | at most four candidates in flight; attempts are the previous ones plus one unless planned, and at most the retry limit plus one and the manual retries |
| SchedulerResults.BudgetsAreExact | vehicle_calibration/calibrate.py:1212-1227 | no phase exceeds its budget, and a completed study holds exactly every budget |
| SchedulerResults.OnlyNewestBatchRuns | vehicle_calibration/calibrate.py:1465-1472 | without manual retries only the newest adaptive batch can still be planned or in flight |
| SchedulerResults.ValidIsForever | vehicle_calibration/calibrate.py:1079-1080 | a valid candidate never changes; between manual retries a done candidate stays done |
| SchedulerResults.EarliestGoFirst | vehicle_calibration/calibrate.py:1177-1189 | a planned candidate is passed over only when every slot is taken, and only for candidates of an earlier batch, or of the same batch with no larger identifier |
| SchedulerResults.SelectedAreDistinct | vehicle_calibration/calibrate.py:1029-1042 | the finalists are valid candidates with pairwise different configurations |
| SchedulerResults.FinalistsAreBest | vehicle_calibration/calibrate.py:1025-1042 | every valid candidate is represented by a finalist at least as good with its configuration, or all places went to finalists that are |
| SchedulerResults.EverySeedOfEveryFinalist | vehicle_calibration/calibrate.py:1053-1066 | every finalist is run with every seed, in order |
| SchedulerResults.AdaptiveBatchWaits | vehicle_calibration/calibrate.py:1467-1472 | candidates beyond the initial design are created only when every earlier candidate of the phase is terminal |
| SchedulerProgress.ReconcileOneIs | vehicle_calibration/calibrate.py:1070-1087 | a candidate takes over the status its run is listed with, unless it is valid |
| SchedulerProgress.CollectOneIs | vehicle_calibration/calibrate.py:1114-1154 | a failed candidate, a bad score and the last unavailable analytics are retried while an attempt is left, and final otherwise; a valid score makes a candidate valid |
| SchedulerProgress.CreateBatchFresh | vehicle_calibration/calibrate.py:999-1015 | a batch is of generated candidates, planned, under the next batch number |
| SchedulerProgress.PollCreates | vehicle_calibration/calibrate.py:1453-1472 | what a poll creates: the initial design is completed; after that four more candidates exactly when every earlier one is over and the budget is not used up; a phase that cannot start stops the poll |
| SchedulerProgress.SentIs | vehicle_calibration/calibrate.py:1176-1201 | each chosen candidate gets a run of its own and no other candidate changes; a planned one is left over only when every slot is taken |
| SchedulerProgress.AdvanceIff | vehicle_calibration/calibrate.py:1203-1227 | a phase is left for the next exactly when it is full and every candidate of it is valid, invalid or failed |
| SchedulerSafety.WholeIs | vehicle_calibration/calibrate.py:1453-1475 | a whole poll fetches, creates, submits and moves on, in this order |
| SchedulerProgress.SelectedAreWell | vehicle_calibration/calibrate.py:1025-1042 | finalists are valid calibration candidates that differ in more than the seed, and every other valid one shares its configuration with a finalist that is no worse, or all places went to finalists that are no worse |
| SchedulerProgress.ValidationIs | vehicle_calibration/calibrate.py:1018-1067 | validation starts exactly when there are as many such finalists as asked for, with one candidate for every finalist and every seed, whose parameters are the finalist's but for the seed |
| SchedulerResults.InvalidReturns | vehicle_calibration/calibrate.py:1079-1123 | an invalid candidate whose run is listed counts as finished again exactly when it has no score and the analytics answer or are given up |
| SchedulerResults.StuckForever | vehicle_calibration/calibrate.py:1079-1123 | a completed candidate that has its score already keeps its phase from ending, over every sequence of polls, interrupts, unlisted runs and manual retries |
| SchedulerResults.InvalidFreezes | vehicle_calibration/calibrate.py:1079-1123 | a whole poll that lists the run of a scored invalid candidate makes it such a candidate |
| SchedulerRuns.BecomesStuck | vehicle_calibration/calibrate.py:1114-1154 | a candidate whose last attempt is scored invalid while another of its phase still runs stalls the phase |
| SchedulerRuns.StuckIsReached | vehicle_calibration/calibrate.py:1079-1154 | a study with one retry and an honest server whose first candidate fails twice and stalls its phase |
| SchedulerRuns.InterruptedSize | vehicle_calibration/calibrate.py:1020-1066 | an interrupted creation leaves any number of validation candidates |
| SchedulerRuns.ValidationIsFixed | vehicle_calibration/calibrate.py:1020-1021 | once a validation candidate exists no other is created, and the phase ends only with as many as the budget asks for |
| SchedulerRuns.PartialValidationStalls | vehicle_calibration/calibrate.py:1020-1021 | a validation phase left with some but not all of its candidates never ends, over every sequence of events |
| SchedulerParams.DrawnIsUnseen | vehicle_calibration/calibrate.py:864-996 | the parameters drawn for a batch on top of the candidates so far are new |
| SchedulerParams.BatchStaysApart | vehicle_calibration/calibrate.py:999-1015 | a drawn batch keeps calibration parameters distinct |
| SchedulerParams.PollStaysApart | vehicle_calibration/calibrate.py:1453-1475 | a poll whose batches are drawn keeps calibration parameters distinct, wherever it stops |
| SchedulerParams.ParametersStayApart | vehicle_calibration/calibrate.py:864-1500 | when every batch of a run is drawn from its pool and rounding to the search space is stable, no reachable state holds two calibration candidates with equal parameters |
| Scheduler.CalibrationScheduler.ReconcileRemote | vehicle_calibration/calibrate.py:1070-1087 | every listed candidate that is not valid takes over the server's status |
| Scheduler.CalibrationScheduler.CollectResult | vehicle_calibration/calibrate.py:1119-1154 | one candidate's collection: retry, score, give up or wait |
| Scheduler.CalibrationScheduler.CreateCalibrationBatch | vehicle_calibration/calibrate.py:999-1015 | the batch in place |
| Scheduler.CalibrationScheduler.CreateBatches | vehicle_calibration/calibrate.py:1461-1472 | the initial design, then at most one adaptive batch |
| Scheduler.CalibrationScheduler.CreateValidationCandidates | vehicle_calibration/calibrate.py:1018-1067 | every finalist with every seed, or the error |
| Scheduler.CalibrationScheduler.SubmitAvailable | vehicle_calibration/calibrate.py:1176-1201 | submissions into the free slots, in the order of EarliestGoFirst, each saved, up to the one that is refused |
| Scheduler.CalibrationScheduler.AdvancePhase | vehicle_calibration/calibrate.py:1212-1227 | the phase change in place |
| Scheduler.CalibrationScheduler.PollOnce | vehicle_calibration/calibrate.py:1453-1475 | a poll in place; when it stops early the checkpoint is one of the poll's states |
| Scheduler.CalibrationScheduler.RetryFailed | vehicle_calibration/calibrate.py:1438-1441 | on resumption every failed or invalid candidate is planned again, and no other changes |
| PeakUpdate.QuantizeIsClose | backend/domain/calibration/service.py:322-333 | the new percentage is within [0, 300], moves by nothing or at least one step, and is less than one step from the clamped proposal |
| PeakUpdate.QuantizeOnGrid | backend/domain/calibration/service.py:322-333 | a proposal a whole number of steps away is taken exactly |
| PeakUpdate.NoFlowNoMove | backend/domain/calibration/service.py:343-344 | without simulated flow a peak does not move |
| PeakUpdate.UpdatedFollowsFlow | backend/domain/calibration/service.py:335-360 | every peak with simulated flow ends less than one step from the clamped aim: the fitted curve's input, the power formula, the old percentage scaled by observed over simulated, or one percent from zero; without a fit it rises only when more is observed than simulated and falls only when less is |
| PeakUpdate.UpdatedIsLocked | backend/domain/calibration/service.py:362-512 | only peak heights change, they stay in [0, 3], and a wrong number of heights is an error |
| PeakUpdate.CompareAndUpdateProfile | backend/domain/calibration/service.py:362-512 | the loop over the peaks; where each one goes is UpdatedFollowsFlow and NoFlowNoMove |
| FlowCalibration.NextProfilesLocked | backend/domain/calibration/service.py:543-588 | the next profiles differ from the original ones only in the selected subjects' peak heights |
| FlowCalibration.NextProfilesAre | backend/domain/calibration/service.py:543-588 | the next profiles exist exactly when every subject can be compared; each is the update of the subject's own profile by its own analysis, and no other profile changes |
| FlowCalibration.CreationDoes | backend/domain/calibration/service.py:148-209 | creation without a crash publishes the first iteration with the request as it is, or fails the session |
| FlowCalibration.DeliveryDoes | backend/domain/calibration/service.py:515-648 | a delivery of news without a crash records the result and the updated profiles, and then fails for want of simulated flow, completes with the last iteration, publishes the next run with those profiles, or fails for want of it |
| FlowCalibration.DeliveryFails | backend/domain/calibration/service.py:524-588 | without news nothing changes; a failed run, or a subject that cannot be compared, fails the session and records nothing |
| FlowCalibration.CreatedKeeps | backend/domain/calibration/service.py:148-209 | creation establishes the books; a running session it returns has one more run id than completed iterations |
| FlowCalibration.NewsIsNext | backend/domain/calibration/service.py:524-532 | a delivered run that is still news belongs to the next iteration |
| FlowCalibration.DeliveredKeeps | backend/domain/calibration/service.py:515-648 | every delivery, repeated or interrupted between any two writes, keeps the books |
| FlowCalibration.SessionIsSound | backend/domain/calibration/service.py:148-648 | over every sequence of deliveries the results are iterations 1 to completed in order, completed sessions have all results and run ids, and every run keeps the locked configuration |
| FlowCalibration.DeliveredExtends | backend/domain/calibration/service.py:515-648 | a terminal session is left alone; otherwise at most one result is added and none is lost |
| FlowCalibration.ResultsAreKept | backend/domain/calibration/service.py:515-648 | over every sequence terminal sessions never change and results are never lost |
| FlowCalibration.AdvancesIffPublished | backend/domain/calibration/service.py:639-648 | a running session can be advanced exactly when its newest run was published |
| FlowCalibration.StrandedForever | backend/domain/calibration/service.py:639-648 | a session whose newest run was not published never changes again |
| FlowCalibration.CrashStrands | backend/domain/calibration/service.py:117-145 | launching a run strands the session exactly when it crashes before publishing, or between the two writes of a failed publication |
| FlowCalibration.CreationStrandsIff | backend/domain/calibration/service.py:148-209 | which crashes during creation leave a session that nothing advances |
| FlowCalibration.DeliveryStrandsIff | backend/domain/calibration/service.py:515-648 | a delivery strands the session exactly when it starts another iteration and crashes before its run is published or the failure is persisted |
| FlowCalibration.CalibrationStore.Launch | backend/domain/calibration/service.py:117-145 | persist, publish, and the failure of publishing, in order |
| FlowCalibration.CalibrationStore.CreateFlowCalibration | backend/domain/calibration/service.py:148-209 | creation in place with every crash point |
| FlowCalibration.CalibrationStore.CompareSubjects | backend/domain/calibration/service.py:543-588 | the loop over the subjects with its errors |
| FlowCalibration.CalibrationStore.AdvanceFlowCalibration | backend/domain/calibration/service.py:515-648 | one delivery in place with every crash point |
| WorkerQueue.StepPlaces | backend/shared/worker_runtime.py:64-112 | every event moves a message from one place to exactly one other |
| WorkerQueue.RunPlaces | backend/shared/worker_runtime.py:64-112 | in every reachable state a known message is in exactly one of ready, in flight, acknowledged or dead |
| WorkerQueue.NeverLost | backend/shared/worker_runtime.py:64-112 | over every sequence of events a message is somewhere, and in exactly one place, exactly from its submission on |
| WorkerQueue.FlagIsExact | backend/shared/worker_runtime.py:83-108 | a delivery is flagged as redelivered exactly when the message was handed out before |
| WorkerQueue.LoseGivesBack | backend/shared/worker_runtime.py:108-112 | a lost connection gives the delivery back to the queue; jobs run on unless the process was killed |
| WorkerQueue.AckMeansDone | backend/services/simulation_worker/main.py:64-97 | every acknowledgement comes after the handler of the same delivery saw the run's record, terminal at that moment, and then published that status |
| WorkerQueue.OneRequeue | backend/shared/worker_runtime.py:93-106 | at most one failure of a message is settled by requeueing it |
| WorkerQueue.NextFailureIsFinal | backend/shared/worker_runtime.py:95-104 | after a requeue the next settled failure dead-letters the message |
| WorkerQueue.DeliverySettles | backend/shared/worker_runtime.py:83-108 | a delivery ends acknowledged with its run over, requeued on a first failure, or dead after a redelivery with its run over if it could be marked; a run that was over, and every other run, is untouched |
| WorkerQueue.Runtime.Handle | backend/services/simulation_worker/main.py:35-80 | the handler goes on only when the run's record is terminal, passes on that record's status, executes no run that is over, and touches no other run's record |
| WorkerQueue.Runtime.Consume | backend/shared/worker_runtime.py:64-108 | one delivery from getting the message to settling it, leading from a reachable state to a reachable one |
| Cancellation.CancelSticks | backend/shared/database.py:192-195 | once a cancel has committed, no write clears it and every read shows it |
| Cancellation.StaleWriteKeepsCancel | backend/shared/database.py:192-195 | a stale record written after the cancel does not clear it |
| Cancellation.NoCommandStarts | backend/domain/simulations/service.py:1302 | after the cancel a worker starts at most the command it was just about to launch |
| Cancellation.EarlyCancelStartsNothing | backend/domain/simulations/service.py:1113 | a cancel before a worker's first check lets it start no command |
| Cancellation.CancelledNeverCompletes | backend/domain/simulations/service.py:1080-1081 | a cancel before the last check of every execution keeps the run from ever being completed |
| Cancellation.LateCancelCompletes | backend/domain/simulations/service.py:1357-1388 | an execution past its last check still completes the run |
| Cancellation.CompletesIff | backend/domain/simulations/service.py:1080-1388 | after a cancel the run can still be completed exactly when some execution is past its last check |
| Cancellation.CompletedAfterAll | backend/domain/simulations/service.py:1302-1388 | over every sequence of events a run is completed only when some worker has started all its commands, and an execution starts them in order |
| Cancellation.UndisturbedCompletes | backend/domain/simulations/service.py:1080-1388 | an execution without trouble, in a run that nobody asks to stop, completes the run, with every remaining command started once |
| Cancellation.QueueFailureEnds | backend/services/simulation_worker/main.py:100-122 | a dead-lettered run is failed unless it is over already |
| Cancellation.RemovalIff | backend/domain/simulations/service.py:475-493 | a cancel marks the run failed exactly when it was read as queued and no process of it is at work |
| Cancellation.RecordsStayOpen | backend/domain/simulations/service.py:1080-1093 | executions only ever hold records of a run that was not over when they read it |
| Cancellation.RemovedStaysFailedIff | backend/domain/simulations/service.py:481-493 | a cancelled run marked failed stays failed over all event sequences exactly when every execution reads the cancel before it writes its record again |
| Cancellation.RemovedRunRevives | backend/domain/simulations/service.py:481-493 | a run removed from the queue, and then written as running again by a worker that had read it before |
| Cancellation.RunTable.UpsertSimulationRun | backend/shared/database.py:175-199 | the record is stored and the cancel column kept |
| Cancellation.RunTable.RequestSimulationCancel | backend/shared/database.py:326-362 | the cancel is set and returned in the record |
| Cancellation.RunTable.GetSimulationRun | backend/shared/database.py:1042-1049 | the cancel column shows as the stop request |
| Rings.JoinedAppend | backend/domain/models/osm.py:139-142 | joining a line at the end keeps the chain of its pieces |
| Rings.JoinedPrepend | backend/domain/models/osm.py:143-146 | joining a line at the front keeps the chain of its pieces |
| Rings.JoinedUses | backend/domain/models/osm.py:136-152 | a chain runs along every undirected pair exactly as often as its lines |
| Rings.Join | backend/domain/models/osm.py:138-146 | the four ways of joining, each turning the line as needed |
| Rings.GrowRing | backend/domain/models/osm.py:133-152 | a chain grows until it closes or no remaining line touches its ends |
| Rings.AssembleNodeRings | backend/domain/models/osm.py:123-158 | terminates; every usable line is in exactly one chain; rings and dropped chains together use every undirected pair as often as the lines |
| Rings.ClosedRingFromRefs | backend/domain/models/osm.py:89-110 | a returned ring is closed with at least four positions, in order; none exactly when refs are few, unknown or too short |
| Rings.TooShortIff | backend/domain/models/osm.py:107-108 | only three refs with equal ends are too short |
| Rings.RingsAreLinear | backend/domain/models/osm.py:155-156 | an assembled ring of known nodes is a linear ring, node for node |
| PolygonFilter.ReachableIsLeast | backend/domain/models/overpass.py:350-380 | reachability by membership is the least closed set of relations |
| PolygonFilter.ReachableIsClosed | backend/domain/models/overpass.py:350-380 | the reachable relations hold every relevant relation with a member in the polygon, and every relation that is a member of one of their own |
| PolygonFilter.Follow | backend/domain/models/overpass.py:366-380 | one relation's members are taken, and nothing without a reason |
| PolygonFilter.FollowAll | backend/domain/models/overpass.py:362-380 | the worklist terminates, cycles or not, with exactly the reachable relations |
| PolygonFilter.FilterToPolygon | backend/domain/models/overpass.py:327-398 | exactly the reachable relations, the relevant or referenced ways, the referenced nodes and the bounds are kept, and every existing element a kept one refers to |
| ParkingWays.FindGates | backend/domain/models/parking_capacity.py:199-221 | exactly the service ways through the outline |
| ParkingWays.ReachableIsLeast | backend/domain/models/parking_capacity.py:223-253 | the reachable ways are the least set with the service ways through the outline and every service way, inside enough, that shares a node with a way of the set |
| ParkingWays.FindInternal | backend/domain/models/parking_capacity.py:223-253 | the search terminates with exactly the reachable ways |
| ParkingWays.FindRelatedParkingWays | backend/domain/models/parking_capacity.py:183-269 | the gate, internal and spatial classes are exact and pairwise disjoint |
| Rebin.SharesTelescope | backend/domain/analytics/service.py:174-181 | the first buckets hold exactly the part of a point before their end |
| Rebin.AllConserved | backend/domain/analytics/service.py:156-190 | enough buckets hold exactly the counts scaled by the fraction before the limit |
| Rebin.PointIs | backend/domain/analytics/service.py:163-181 | what a point gives a bucket, and all buckets together, in its own fields: its count in proportion to the overlap, nothing when it has no count or time after zero and before the limit |
| Rebin.WholePoint | backend/domain/analytics/service.py:163-181 | a point within the limit counts in full |
| Rebin.Spread | backend/domain/analytics/service.py:173-181 | each bucket gains exactly the point's overlap share |
| Rebin.AggregateDetectorCounts | backend/domain/analytics/service.py:156-190 | each row is the overlap-weighted sum, rows are in order, missing buckets are zero, and the rows add up to the conserved total |
| Downsample.Extremes | backend/domain/analytics/service.py:622-623 | the first smallest and the first greatest point of a bucket |
| Downsample.FewBuckets | backend/domain/analytics/service.py:617-618 | the interior has at most 449 buckets |
| Downsample.BucketSizeIs | backend/domain/analytics/service.py:617-618 | the smallest size with which 449 buckets cover the interior |
| Downsample.SampleInterior | backend/domain/analytics/service.py:620-627 | at most 898 points in order of time: of every bucket exactly the first emptiest and the first fullest point |
| Downsample.StrictSubsequence | backend/domain/analytics/service.py:612-629 | with distinct times the kept points are a subsequence |
| Downsample.DownsampleOccupancy | backend/domain/analytics/service.py:612-629 | never more than 900 points, in order of time: the first, the last, and of every bucket between them exactly the first emptiest and the first fullest point; the final cut never happens |

## Left out

- HTTP, RabbitMQ, PostgreSQL, MinIO, files, subprocesses and TraCI: their answers are parameters or events.
- The vehicle tracker's status, segment timeline and output: only its search record is modelled.
- The controller's progress file, person-event log and diagnostics output.
- The row order of the written detector file: counts, begin and end of the intervals are modelled.
- Rounding of floating-point numbers, and the final roundings to eight or nine digits.
- Hill-curve and elasticity fitting, powers and square roots: given functions; the square root is only assumed to square back.
- Random utilities and hash-based draws of the parking choice: given functions of driver, decision and the offers compared.
- Halton points, features, distances and expected improvement: the generated parameters and scores are given.
- PedestrianCounting.ObserveCounts: zones that share a detector identifier, of which the code looks at the last one only.
- PedestrianCounting.WalkCountedOnce: zones that share a detector identifier.
- Digests: equal digests are taken to mean equal parameters.
- Liveness of the calibration protocols: the code does not guarantee it; the stalls are stated as findings.
- Interrupts inside the creation of one batch or inside the update of one candidate, over whole runs; inside the creation of the validation candidates they are a finding.
- ParkingSafety.LateFailureMixes: an exact condition for answers that change between the rounds of one search.
- Calibration steps of at most 1e-9: the code's own tolerance would confuse them.
- Geometric predicates (points in rings, lengths inside polygons): given truth values.
- The parameters a later phase starts from: only whether a phase can start is modelled.
- The frontend, reports, argument parsing, and the generators of scenarios, networks and demand.
