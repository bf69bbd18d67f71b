/** The parking controller with the state it updates in place
    (backend/sumo/controller/main.py). Every method is proved equal to the corresponding
    function on values. */
module Controller {
  import opened Wrappers
  import opened Reroute
  import opened ParkingModel
  import opened MetricsLogger
  import opened ParkingGroups
  import opened VehicleTracking
  import opened RerouteLoop
  import LinearAlgebra
  import PedestrianModel
  import PedestrianDetector
  import CrashRecovery
  import ParkingSafety

  /** A saved state. The tracker in it is a copy of its own. */
  datatype SavedState = SavedState(
    time: real, persons: set<string>, tracker: VehicleTracker, assignment: map<string, string>, durations: map<string,
        real>,
    activeReservations: set<string>, completedParking: set<string>, completedVehicles: set<string>,
    noAvailableLogged: set<(string, string)>, reserved: map<string, nat>, spawned: set<string>, draws: nat,
    eventsPosition: nat, occupancyPosition: nat, detector: PedestrianModel.Snapshot)

  ghost function Meaning(s: SavedState): CrashRecovery.Checkpoint
    reads s.tracker
  {
    CrashRecovery.Checkpoint(s.time, s.persons, s.tracker.records, s.assignment, s.durations, s.activeReservations,
                             s.completedParking,
                             s.completedVehicles, s.noAvailableLogged, s.reserved, s.spawned, s.draws,
                             s.eventsPosition, s.occupancyPosition, s.detector)
  }

  class ParkingController {
    const site: Site
    const parking: ParkingGroupManager
    const parkingEvents: CsvLogger<Event>
    const occupancyLog: CsvLogger<Row>
    const detector: PedestrianDetector.FastPedestrianDetector
    var tracker: VehicleTracker
    var assignment: map<string, string>
    var durations: map<string, real>
    var activeReservations: set<string>
    var completedParking: set<string>
    var completedVehicles: set<string>
    var noAvailableLogged: set<(string, string)>
    var spawned: set<string>
    var draws: nat
    var lastTime: real

    ghost predicate Valid()
      reads this, tracker
    {
      tracker.site == site && parking.site == site && detector.zones == site.zones
      && PedestrianModel.ValidZones(site.zones) && WellFormed(site)
    }

    ghost function View(): Core
      reads this, tracker, parking, parkingEvents, occupancyLog, detector
    {
      Core(tracker.records, assignment, durations, activeReservations, completedParking, completedVehicles,
           noAvailableLogged,
           parking.reserved, spawned, draws, parkingEvents.rows, occupancyLog.rows, detector.View(), lastTime)
    }

    constructor (site: Site, begin: real)
      requires PedestrianModel.ValidZones(site.zones) && WellFormed(site)
      ensures Valid() && this.site == site && View() == Initial(site, begin)
      ensures fresh(tracker) && fresh(parking) && fresh(parkingEvents) && fresh(occupancyLog) && fresh(detector)
    {
      this.site := site;
      parking := new ParkingGroupManager(site);
      parkingEvents := new CsvLogger();
      occupancyLog := new CsvLogger();
      detector := new PedestrianDetector.FastPedestrianDetector(site.zones);
      tracker := new VehicleTracker(site, map[]);
      assignment, durations, activeReservations, completedParking := map[], map[], {}, {};
      completedVehicles, noAvailableLogged, spawned, draws, lastTime := {}, {}, {}, 0, begin;
    }

    /** Look for another lot; without one the vehicle is unserved. */
    method RerouteOrMarkUnserved(t: real, occupied: map<string, nat>, v: Visit, lot: string, attempts: nat)
      requires Valid() && v.id in tracker.records
      modifies this`completedParking, this`completedVehicles, tracker, parkingEvents
      ensures Valid() && View() == RerouteOrUnserved(site, old(View()), t, occupied, v, lot, attempts)
    {
      hide SearchContext, Rerouted;
      var ctx := SearchContext(site, parking.reserved, t, occupied, v);
      SearchesFor(site, parking.reserved, t, occupied, v);
      var target := RerouteToNextCandidate(ctx, tracker, parkingEvents);
      if target.None? {
        parkingEvents.Write(Event(t, v.id, Unserved(Exhausted), lot, "", attempts));
        completedParking := completedParking + {v.id};
        completedVehicles := completedVehicles + {v.id};
      }
    }

    /** The bookkeeping of an accepted stop. */
    method Book(t: real, v: Visit, p: string, duration: real)
      requires Valid()
      modifies this`assignment, this`durations, this`activeReservations, parking
      ensures View() ==
          old(View()).(reserved := ParkingModel.Reserve(old(parking.reserved), p),
                       assignment := old(assignment)[v.id := p],
                                     durations := old(durations)[v.id := duration], active :=
                                         old(activeReservations) + {v.id})
    {
      parking.Reserve(p);
      assignment := assignment[v.id := p];
      durations := durations[v.id := duration];
      activeReservations := activeReservations + {v.id};
    }

    /** Route to the area, set the stop, and book it. */
    method CommandArea(t: real, v: Visit, p: string)
      requires Valid()
      modifies this`assignment, this`durations, this`activeReservations, this`draws, parking
      ensures Valid()
          && View() == (if v.outcome == Accepted || v.outcome == LogRefused then Booked(site, old(View()), t, v, p)
                                    else DurationDrawn(site, old(View()), v))
    {
      hide ParkingModel.Reserve;
      if v.outcome == RouteRefused {
        return;
      }
      var duration := if !site.personBased then site.durations(draws)
                      else if site.endTime - t > 1.0 then site.endTime - t else 1.0;
      if !site.personBased {
        draws := draws + 1;
      }
      if v.outcome != StopRefused {
        Book(t, v, p, duration);
      }
    }

    /** Assign the area; on failure release it and search on. */
    method AssignArea(t: real, occupied: map<string, nat>, v: Visit, lot: string, p: string, attempts: nat)
      requires Valid() && v.id in tracker.records
      modifies this, tracker, parking, parkingEvents
      ensures Valid() && tracker == old(tracker)
          && View() == Assign(site, old(View()), t, occupied, v, lot, p, attempts)
    {
      hide RerouteOrUnserved, ParkingModel.Release, Booked, DurationDrawn, WellFormed;
      ghost var before := View();
      ParkingSafety.NoEmptyLot(site);
      CommandArea(t, v, p);
      if v.outcome == Accepted {
        parkingEvents.Write(Event(t, v.id, Assigned, lot, p, attempts));
      } else {
        parking.Release(p);
        parkingEvents.Write(Event(t, v.id, AssignmentFailed, lot, p, attempts));
        assert View() == FailedAssign(site, before, t, v, lot, p, attempts);
        hide FailedAssign;
        RerouteOrMarkUnserved(t, occupied, v, lot, attempts);
      }
    }

    /** Select an area, if the lot has a free space. */
    method SelectArea(occupied: map<string, nat>, v: Visit, attempt: string) returns (selected: Option<string>)
      requires Valid() && attempt in site.groups
      modifies this`draws
      ensures var s := Selection(site, old(View()), occupied, v, site.groups[attempt]);
              selected == s.0 && View() == old(View()).(draws := s.1)
    {
      hide Choose, HasFreeSpace;
      selected := None;
      var hasFree := parking.LogicalHasFreeSpace(occupied, site.groups[attempt]);
      if hasFree {
        selected, draws := parking.ChoosePhysical(occupied, v.cost, site.groups[attempt], draws);
      }
    }

    /** Note the attempt in the record and the log. */
    method NoteAttempt(t: real, v: Visit, attempt: string, selected: Option<string>) returns (attempts: nat)
      requires Valid()
      modifies tracker, parkingEvents
      ensures Valid() && v.id in tracker.records
      ensures forall c: Core :: c.(draws := draws) == old(View()) ==>
                View() == Attempted(site, c, t, v, attempt, selected, draws)
      ensures attempts == |tracker.Of(v.id).attempted|
    {
      attempts := tracker.MarkParkingAttempt(v.id, attempt);
      parkingEvents.Write(Event(t, v.id, Attempt(selected.Some?), attempt, if selected.Some? then selected.value
                                else "", attempts));
    }

    /** A lot taken in passing becomes the target. */
    method Retarget(t: real, v: Visit, attempt: string)
      requires Valid() && v.id in tracker.records
      modifies tracker, parkingEvents
      ensures Valid() && v.id in tracker.records && View() == Retargeted(site, old(View()), t, v, attempt)
    {
      if attempt != tracker.Of(v.id).current {
        tracker.MarkTargetChanged(v.id, attempt);
        parkingEvents.Write(Event(t, v.id, TargetChanged, attempt, "", |tracker.Of(v.id).attempted|));
      }
    }

    method AttemptParking(t: real, occupied: map<string, nat>, v: Visit, attempt: string, context: SelectionContext)
      requires Valid() && attempt in site.groups
      modifies this, tracker, parking, parkingEvents
      ensures Valid() && tracker == old(tracker)
          && View() == TryPark(site, old(View()), t, occupied, v, attempt, context)
    {
      hide Selection, RerouteOrUnserved, Assign, Attempted, Retargeted, WellFormed;
      ParkingSafety.NoEmptyLot(site);
      ghost var before := View();
      var selected := SelectArea(occupied, v, attempt);
      var attempts := NoteAttempt(t, v, attempt, selected);
      assert View() == Attempted(site, before, t, v, attempt, selected, draws);
      if selected.None? {
        noAvailableLogged := noAvailableLogged + {(v.id, attempt)};
        if context != PassBy {
          RerouteOrMarkUnserved(t, occupied, v, attempt, attempts);
        }
      } else {
        Retarget(t, v, attempt);
        AssignArea(t, occupied, v, attempt, selected.value, attempts);
      }
    }

    method VisitVehicle(t: real, occupied: map<string, nat>, v: Visit)
      requires Valid()
      modifies this, tracker, parking, parkingEvents
      ensures Valid() && tracker == old(tracker) && View() == ProcessVisit(site, old(View()), t, occupied, v)
    {
      hide TryPark, DecisionTarget;
      var target := tracker.Of(v.id).current;
      if target !in site.groups || v.id in completedParking || v.id in assignment {
        return;
      }
      var (attempt, context) :=
          DecisionTarget(site, target, Unattempted(CandidatesOf(site, v.id), tracker.Of(v.id)), v.road);
      if attempt.None? || attempt.value !in site.groups {
        return;
      }
      AttemptParking(t, occupied, v, attempt.value, context);
    }

    method VisitVehicles(t: real, occupied: map<string, nat>, visits: seq<Visit>)
      requires Valid()
      modifies this, tracker, parking, parkingEvents
      ensures Valid() && tracker == old(tracker) && View() == ProcessVisits(site, old(View()), t, occupied, visits)
    {
      hide ProcessVisit;
      for i := 0 to |visits|
        invariant Valid() && tracker == old(tracker)
            && View() == ProcessVisits(site, old(View()), t, occupied, visits[..i])
      {
        assert visits[..i + 1][..i] == visits[..i];
        VisitVehicle(t, occupied, visits[i]);
      }
      assert visits[..|visits|] == visits;
    }

    method ReleaseHeld(v: string)
      requires Valid() && v in activeReservations
      modifies this`activeReservations, parking
      ensures View() == old(View()).(
                reserved := if v in assignment then ParkingModel.Release(old(parking.reserved), assignment[v])
                    else old(parking.reserved),
                active := old(activeReservations) - {v})
    {
      if v in assignment {
        parking.Release(assignment[v]);
      }
      activeReservations := activeReservations - {v};
    }

    method StopStarting(t: real, occupants: set<string>, v: string)
      requires Valid()
      modifies this, parking, parkingEvents
      ensures Valid() && tracker == old(tracker) && View() == StopStarts(site, old(View()), t, occupants, v)
    {
      if v !in assignment {
        return;
      }
      if v in activeReservations {
        ReleaseHeld(v);
      }
      parkingEvents.Write(Event(t, v, Started, tracker.Of(v).current, assignment[v], 0));
      if v in occupants {
        spawned := spawned + {v};
      }
    }

    /** The vehicle is done with its area. */
    method Depart(t: real, v: string, lot: string, p: string)
      requires Valid()
      modifies this`completedParking, this`assignment, this`durations, this`noAvailableLogged, parkingEvents
      ensures Valid()
      ensures View() == Log(old(View()), t, v, Ended, lot, p, 0).(
                completed := old(completedParking) + {v}, assignment := old(assignment) - {v},
                durations := old(durations) - {v},
                noAvailable := if lot != "" then old(noAvailableLogged) - {(v, lot)} else old(noAvailableLogged))
    {
      parkingEvents.Write(Event(t, v, Ended, lot, p, 0));
      completedParking := completedParking + {v};
      assignment, durations := assignment - {v}, durations - {v};
      if lot != "" {
        noAvailableLogged := noAvailableLogged - {(v, lot)};
      }
    }

    method StopEnding(t: real, v: string)
      requires Valid()
      modifies this, parking, parkingEvents
      ensures Valid() && tracker == old(tracker) && View() == StopEnds(site, old(View()), t, v)
    {
      hide ParkingModel.Release, RecordOf;
      var p := if v in assignment then assignment[v] else "";
      var lot := tracker.Of(v).current;
      if v in activeReservations {
        ReleaseHeld(v);
      }
      Depart(t, v, lot, p);
    }

    method Arrive(t: real, v: string)
      requires Valid()
      modifies parkingEvents
      ensures View() == Arrives(site, old(View()), t, v)
    {
      var lot := tracker.Of(v).current;
      if v in completedParking || v in assignment || lot !in site.groups {
        return;
      }
      parkingEvents.Write(Event(t, v, Unserved(FullBeforeArrival), lot, "", 0));
    }

    /** Stop starts, stop ends and arrivals, in this order. */
    method Settle(k: Tick)
      requires Valid()
      modifies this, parking, parkingEvents
      ensures Valid() && tracker == old(tracker)
          && View() == AllArrive(site, Settled(site, old(View()), k), k.time, k.arrived)
    {
      hide StopStarts, StopEnds, Arrives, WellFormed, PedestrianModel.ValidZones;
      ghost var before := View();
      for i := 0 to |k.starting|
        invariant Valid() && tracker == old(tracker)
            && View() == AllStart(site, before, k.time, k.spawned, k.starting[..i])
      {
        assert k.starting[..i + 1][..i] == k.starting[..i];
        StopStarting(k.time, k.spawned, k.starting[i]);
      }
      assert k.starting[..|k.starting|] == k.starting;
      SettleEnds(k);
    }

    method SettleEnds(k: Tick)
      requires Valid()
      modifies this, parking, parkingEvents
      ensures Valid() && tracker == old(tracker)
      ensures View() == AllArrive(site, AllEnd(site, old(View()), k.time, k.ending), k.time, k.arrived)
    {
      hide StopEnds, Arrives, WellFormed, PedestrianModel.ValidZones;
      ghost var before := View();
      for i := 0 to |k.ending|
        invariant Valid() && tracker == old(tracker) && View() == AllEnd(site, before, k.time, k.ending[..i])
      {
        assert k.ending[..i + 1][..i] == k.ending[..i];
        StopEnding(k.time, k.ending[i]);
      }
      assert k.ending[..|k.ending|] == k.ending;
      ghost var ended := View();
      for i := 0 to |k.arrived|
        invariant Valid() && tracker == old(tracker) && View() == AllArrive(site, ended, k.time, k.arrived[..i])
      {
        assert k.arrived[..i + 1][..i] == k.arrived[..i];
        Arrive(k.time, k.arrived[i]);
      }
      assert k.arrived[..|k.arrived|] == k.arrived;
    }

    /** One row for every area of every lot. */
    method LogOccupancy(t: real, occupied: map<string, nat>)
      requires Valid()
      modifies occupancyLog
      ensures View() ==
          old(View()).(rows := old(View()).rows + OccupancyRows(site, parking.reserved, t, occupied, site.order))
    {
      hide AreaRow, WellFormed, PedestrianModel.ValidZones;
      for i := 0 to |site.order|
        invariant occupancyLog.rows ==
            old(occupancyLog.rows) + OccupancyRows(site, parking.reserved, t, occupied, site.order[..i])
      {
        assert site.order[..i + 1][..i] == site.order[..i];
        if site.order[i] in site.groups {
          LogLot(t, occupied, site.order[i]);
        }
      }
      assert site.order[..|site.order|] == site.order;
    }

    method LogLot(t: real, occupied: map<string, nat>, lot: string)
      requires Valid() && lot in site.groups
      modifies occupancyLog
      ensures occupancyLog.rows ==
          old(occupancyLog.rows) + LotRows(site, parking.reserved, t, occupied, lot, site.groups[lot])
    {
      var areas := site.groups[lot];
      for j := 0 to |areas|
        invariant occupancyLog.rows ==
            old(occupancyLog.rows) + LotRows(site, parking.reserved, t, occupied, lot, areas)[..j]
      {
        var p := areas[j].id;
        occupancyLog.Write(Row(t, lot, p, CapacityOf(site, p), Occupied(occupied, p), Reserved(parking.reserved, p),
                               parking.Free(occupied, p)));
      }
    }

    /** Pedestrians are observed before the simulator is advanced. */
    method ObservePedestrians(at: real, positions: seq<(string, PedestrianModel.Position)>)
      requires Valid()
      modifies detector
      ensures Valid()
          && View() ==
              old(View()).(detector := PedestrianModel.Observe(site.zones, old(View()).detector, at, positions))
    {
      detector.Observe(at, positions);
    }

    /** The observation, the new time, and the minute's log; the simulator's own step falls
        between the first two. */
    method AdvanceTime(k: Tick)
      requires Valid()
      modifies this`lastTime, this`completedVehicles, occupancyLog, detector
      ensures Valid() && View() == Advanced(site, old(View()), k)
    {
      hide PedestrianModel.Observe, OccupancyRows, PedestrianModel.ValidZones, LinearAlgebra.Truncate;
      ObservePedestrians(k.observedAt, k.positions);
      lastTime := k.time;
      completedVehicles := completedVehicles + set v | v in k.arrived;
      if LinearAlgebra.Truncate(k.time) % 60 == 0 {
        LogOccupancy(k.time, k.occupied);
      }
    }

    /** One iteration of the main loop. */
    method Iterate(k: Tick)
      requires Valid()
      modifies this, tracker, parking, parkingEvents, occupancyLog, detector
      ensures Valid() && tracker == old(tracker) && View() == Step(site, old(View()), k)
    {
      hide Advanced, ProcessVisits, Settled, AllArrive;
      AdvanceTime(k);
      VisitVehicles(k.time, k.occupied, k.visits);
      Settle(k);
    }

    method CaptureState(persons: set<string>) returns (s: SavedState)
      requires Valid()
      ensures fresh(s.tracker) && s.tracker.site == site && Meaning(s) == CrashRecovery.Capture(View(), persons)
    {
      var copy := tracker.DeepCopy();
      var eventsPosition := parkingEvents.Checkpoint();
      var occupancyPosition := occupancyLog.Checkpoint();
      var snapshot := detector.TakeSnapshot();
      s := SavedState(lastTime, persons, copy, assignment, durations, activeReservations, completedParking,
                      completedVehicles,
                      noAvailableLogged, parking.reserved, spawned, draws, eventsPosition, occupancyPosition, snapshot);
    }

    /** Back to the saved state. The saved tracker is copied again, so that the same state can
        be restored once more. */
    method RestoreState(s: SavedState)
      requires Valid() && s.tracker != tracker && s.tracker.site == site
      modifies this, parking, parkingEvents, occupancyLog, detector
      ensures Valid() && fresh(tracker) && View() == CrashRecovery.Restore(old(View()), Meaning(s))
    {
      hide PedestrianModel.ValidZones, WellFormed, PedestrianModel.RestoreSnapshot, CrashRecovery.Truncated;
      tracker := s.tracker.DeepCopy();
      RestoreFields(s);
      RestoreLogs(s.eventsPosition, s.occupancyPosition, s.detector);
    }

    method RestoreFields(s: SavedState)
      modifies this, parking
      ensures tracker == old(tracker)
      ensures assignment == s.assignment && durations == s.durations && activeReservations == s.activeReservations
      ensures completedParking == s.completedParking && completedVehicles == s.completedVehicles
      ensures noAvailableLogged == s.noAvailableLogged && parking.reserved == s.reserved
      ensures spawned == s.spawned && draws == s.draws && lastTime == s.time
    {
      assignment, durations, activeReservations := s.assignment, s.durations, s.activeReservations;
      completedParking, completedVehicles, noAvailableLogged :=
          s.completedParking, s.completedVehicles, s.noAvailableLogged;
      parking.reserved := s.reserved;
      spawned, draws, lastTime := s.spawned, s.draws, s.time;
    }

    method RestoreLogs(events: nat, occupancy: nat, snapshot: PedestrianModel.Snapshot)
      requires Valid()
      modifies parkingEvents, occupancyLog, detector
      ensures View() == old(View()).(events := CrashRecovery.Truncated(old(View()).events, events),
                                     rows := CrashRecovery.Truncated(old(View()).rows, occupancy),
                                     detector := PedestrianModel.RestoreSnapshot(snapshot))
    {
      hide PedestrianModel.ValidZones, WellFormed, PedestrianModel.RestoreSnapshot;
      parkingEvents.Restore(events);
      occupancyLog.Restore(occupancy);
      detector.Restore(snapshot);
    }
  }

  /** The main loop's recovery bookkeeping around the controller. */
  class RecoveringController {
    const cfg: CrashRecovery.Config
    const controller: ParkingController
    var checkpoint: Option<SavedState>
    var completedPersons: set<string>
    var lastCheckpoint: real
    var attempts: nat
    var quarantined: set<string>
    var failed: bool

    ghost predicate Valid()
      reads this, controller, controller.tracker
    {
      controller.Valid()
          && (checkpoint.Some? ==>
              checkpoint.value.tracker != controller.tracker && checkpoint.value.tracker.site == controller.site)
    }

    ghost function Repr(): set<object>
      reads this, controller
    {
      {this, controller, controller.tracker, controller.parking, controller.parkingEvents, controller.occupancyLog,
       controller.detector}
      + if checkpoint.Some? then {checkpoint.value.tracker} else {}
    }

    ghost function View(): CrashRecovery.Run
      reads Repr()
    {
      CrashRecovery.Run(controller.View(), completedPersons, if checkpoint.Some? then Some(Meaning(checkpoint.value))
                        else None,
                        lastCheckpoint, attempts, quarantined, failed)
    }

    /** With recovery on, a first state is saved before the loop. */
    constructor (site: Site, cfg: CrashRecovery.Config, begin: real)
      requires PedestrianModel.ValidZones(site.zones) && WellFormed(site)
      ensures Valid() && fresh(Repr()) && controller.site == site && this.cfg == cfg
          && View() == CrashRecovery.Start(site, cfg, begin)
    {
      this.cfg := cfg;
      controller := new ParkingController(site, begin);
      checkpoint, completedPersons, lastCheckpoint, attempts, quarantined, failed := None, {}, begin, 0, {}, false;
      new;
      if cfg.enabled && cfg.maxAttempts > 0 {
        var saved := controller.CaptureState({});
        checkpoint := Some(saved);
      }
    }

    /** A completed iteration, with a checkpoint at its end when one is due. */
    method Advance(k: Tick)
      requires Valid() && !failed
      modifies this, controller, controller.tracker, controller.parking, controller.parkingEvents,
          controller.occupancyLog, controller.detector
      ensures Valid() && fresh(Repr() - old(Repr()))
          && View() == CrashRecovery.Advance(controller.site, cfg, old(View()), k)
    {
      hide Step;
      controller.Iterate(k);
      completedPersons := completedPersons + k.arrivedPersons;
      if cfg.enabled && cfg.maxAttempts > 0 && k.time - lastCheckpoint >= cfg.interval {
        var saved := controller.CaptureState(completedPersons);
        checkpoint, lastCheckpoint := Some(saved), k.time;
      }
    }

    /** Roll back to the checkpoint and quarantine the candidates. */
    method Recover(candidates: set<string>)
      requires Valid() && !failed && checkpoint.Some?
      modifies this, controller, controller.parking, controller.parkingEvents, controller.occupancyLog,
          controller.detector
      ensures Valid() && fresh(Repr() - old(Repr()))
          && View() == CrashRecovery.Recover(old(View()), old(View()).checkpoint.value, candidates)
    {
      var saved := checkpoint.value;
      attempts := attempts + 1;
      controller.RestoreState(saved);
      lastCheckpoint := saved.time;
      quarantined := quarantined + candidates;
      completedPersons := saved.persons + quarantined;
    }

    /** One turn of the main loop. */
    method Turn(o: CrashRecovery.Outcome)
      requires Valid()
      modifies Repr()
      ensures Valid() && fresh(Repr() - old(Repr()))
          && View() == CrashRecovery.Turn(controller.site, cfg, old(View()), o)
    {
      hide CrashRecovery.Advance, CrashRecovery.Recover, PedestrianModel.Observe;
      if failed {
        return;
      }
      match o
      case Stepped(k) => Advance(k);
      case Crashed(at, positions, candidates, recoverable) =>
        controller.ObservePedestrians(at, positions);
        if cfg.enabled && recoverable && checkpoint.Some? && candidates != {} && attempts < cfg.maxAttempts {
          Recover(candidates);
        } else {
          failed := true;
        }
    }

    /** The whole run. With CrashesAreInvisible, the state reached is that of a run of the
        surviving iterations without crashes. */
    method Run(outcomes: seq<CrashRecovery.Outcome>, ghost begin: real)
      requires Valid() && View() == CrashRecovery.Start(controller.site, cfg, begin)
      modifies Repr()
      ensures Valid() && View() == CrashRecovery.Execute(controller.site, cfg, begin, outcomes)
    {
      hide CrashRecovery.Turn, CrashRecovery.Start, PedestrianModel.ValidZones, WellFormed;
      for i := 0 to |outcomes|
        invariant Valid() && fresh(Repr() - old(Repr()))
            && View() == CrashRecovery.Execute(controller.site, cfg, begin, outcomes[..i])
      {
        assert outcomes[..i + 1][..i] == outcomes[..i];
        Turn(outcomes[i]);
      }
      assert outcomes[..|outcomes|] == outcomes;
    }
  }

  lemma SearchesFor(site: Site, reserved: map<string, nat>, t: real, occupied: map<string, nat>, v: Visit)
    requires WellFormed(site)
    ensures SearchContext(site, reserved, t, occupied, v).vehicle == v.id
        && "" !in SearchContext(site, reserved, t, occupied, v).lots
  {
  }
}
