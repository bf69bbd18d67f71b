/** The pedestrian counter inside the controller: what a run writes at its end
    (backend/sumo/controller/main.py). */
module PedestrianRuns {
  import opened Wrappers
  import opened LinearAlgebra
  import opened PedestrianModel
  import opened PedestrianCounting
  import opened PedestrianDetector
  import opened ParkingModel
  import ParkingSafety
  import CrashRecovery

  /** What the controller has shown its counter. */
  function Samples(ticks: seq<Tick>): (samples: seq<Sample>)
    ensures |samples| == |ticks|
  {
    seq(|ticks|, i requires 0 <= i < |ticks| => Sample(ticks[i].observedAt, ticks[i].positions))
  }

  /** No other stage of an iteration touches the counter. */
  lemma StepObserves(site: Site, c: Core, k: Tick)
    requires WellFormed(site)
    ensures Step(site, c, k).detector == Observe(site.zones, c.detector, k.observedAt, k.positions)
    ensures Step(site, c, k).clock == k.time
  {
    assert "" !in site.groups;
    var c0 := Advanced(site, c, k);
    assert c0.detector == Observe(site.zones, c.detector, k.observedAt, k.positions) && c0.clock == k.time by {
      hide Observe, OccupancyRows, Truncate;
    }
    hide Advanced, ProcessVisits, AllStart, AllEnd, AllArrive, Observe;
    CrashRecovery.VisitsAppend(site, c0, k.time, k.occupied, k.visits);
    var c1 := Assigning(site, c, k);
    CrashRecovery.StartsAppend(site, c1, k.time, k.spawned, k.starting);
    CrashRecovery.EndsAppend(site, AllStart(site, c1, k.time, k.spawned, k.starting), k.time, k.ending);
    CrashRecovery.ArrivalsAppend(site, Settled(site, c1, k), k.time, k.arrived);
  }

  lemma {:induction false} RunObserves(site: Site, begin: real, ticks: seq<Tick>)
    requires WellFormed(site)
    ensures ParkingSafety.RunCore(site, begin, ticks).detector == ObserveRun(site.zones, Samples(ticks))
    decreases |ticks|
  {
    if ticks != [] {
      var front, last := ticks[..|ticks| - 1], ticks[|ticks| - 1];
      RunObserves(site, begin, front);
      StepObserves(site, ParkingSafety.RunCore(site, begin, front), last);
      assert Samples(ticks)[..|ticks| - 1] == Samples(front);
      hide Step, Observe;
    }
  }

  /** The simulator's clock: every observation precedes its iteration's step, and time never
      goes back. */
  ghost predicate Advances(begin: real, ticks: seq<Tick>) {
    && (forall i :: 0 <= i < |ticks| ==> begin <= ticks[i].observedAt < ticks[i].time)
    && (forall i, j :: 0 <= i < j < |ticks| ==> ticks[i].time <= ticks[j].time)
  }

  /** The end the controller writes with, as the writer understands it. */
  function WrittenEnd(c: Core, begin: real, configuredEnd: real): real {
    Max(Max(Max(configuredEnd, c.clock), c.detector.lastTime), begin)
  }

  /** The controller observes before every step and writes at the earliest with the time after
      the last one, so the written counts of every run are all its entries. */
  lemma NothingIsLost(site: Site, begin: real, ticks: seq<Tick>, configuredEnd: real)
    requires WellFormed(site) && ValidZones(site.zones) && Advances(begin, ticks)
    ensures var c := ParkingSafety.RunCore(site, begin, ticks);
            var b := c.detector.buckets;
            Total(CoveredBuckets(b, site.zones, |site.zones|, begin, WrittenEnd(c, begin, configuredEnd))) == Total(b)
            && AllCovered(b, site.zones, begin, WrittenEnd(c, begin, configuredEnd))
  {
    var c := ParkingSafety.RunCore(site, begin, ticks);
    RunObserves(site, begin, ticks);
    if ticks != [] {
      StepObserves(site, ParkingSafety.RunCore(site, begin, ticks[..|ticks| - 1]), ticks[|ticks| - 1]);
      assert c.clock == ticks[|ticks| - 1].time;
    }
    hide ParkingSafety.RunCore, Total, CoveredBuckets, AllCovered, Step;
    RunIsCovered(site.zones, Samples(ticks), begin, WrittenEnd(c, begin, configuredEnd));
  }

  /** The same for a run with crashes that ends without an error: only then is anything written.
      The clock is the simulator's over the iterations that were not rolled back. */
  lemma NothingIsLostWithCrashes(site: Site, cfg: CrashRecovery.Config, begin: real,
                                 outcomes: seq<CrashRecovery.Outcome>, configuredEnd: real)
    requires WellFormed(site) && ValidZones(site.zones) && !CrashRecovery.Execute(site, cfg, begin, outcomes).failed
    requires Advances(begin, CrashRecovery.Survivors(site, cfg, begin, outcomes))
    ensures var c := CrashRecovery.Execute(site, cfg, begin, outcomes).core;
            var b := c.detector.buckets;
            Total(CoveredBuckets(b, site.zones, |site.zones|, begin, WrittenEnd(c, begin, configuredEnd))) == Total(b)
  {
    var kept := CrashRecovery.Survivors(site, cfg, begin, outcomes);
    CrashRecovery.CrashesAreInvisible(site, cfg, begin, outcomes);
    CrashRecovery.Anchored(site, cfg, begin, kept);
    hide CrashRecovery.Execute, CrashRecovery.Survivors, CrashRecovery.Undisturbed, ParkingSafety.RunCore, Total,
        CoveredBuckets;
    NothingIsLost(site, begin, kept, configuredEnd);
  }
}
