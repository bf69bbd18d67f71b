/** The part of the vehicle tracker that the search for a lot uses
    (backend/sumo/controller/vehicle_tracker.py). */
module VehicleTracking {
  import opened Reroute
  import opened ParkingModel

  class VehicleTracker {
    const site: Site
    var records: map<string, Record>

    constructor (site: Site, records: map<string, Record>)
      ensures this.site == site && this.records == records
    {
      this.site, this.records := site, records;
    }

    /** An independent copy. */
    method DeepCopy() returns (copy: VehicleTracker)
      ensures fresh(copy) && copy.site == site && copy.records == records
    {
      copy := new VehicleTracker(site, records);
    }

    function Of(v: string): Record
      reads this
    {
      RecordOf(site, records, v)
    }

    method MarkParkingAttempt(v: string, lot: string) returns (attempts: nat)
      modifies this
      ensures records == old(records)[v := AttemptedRecord(old(Of(v)), lot)] && attempts == |Of(v).attempted|
    {
      var rec := Of(v);
      if lot != "" && lot !in rec.attempted {
        rec := rec.(attempted := rec.attempted + [lot]);
      }
      records := records[v := rec];
      attempts := |rec.attempted|;
    }

    method MarkCandidateRejected(v: string, lot: string)
      requires v in records
      modifies this
      ensures records == old(records)[v := Reject(old(Of(v)), lot)]
    {
      var rec := records[v];
      if lot != "" && lot !in rec.rejected {
        records := records[v := rec.(rejected := rec.rejected + [lot])];
      }
    }

    method NextDecisionIndex(v: string) returns (index: nat)
      requires v in records
      modifies this
      ensures index == old(Of(v)).decisions + 1
      ensures records == old(records)[v := old(Of(v)).(decisions := old(Of(v)).decisions + 1)]
    {
      index := records[v].decisions + 1;
      records := records[v := records[v].(decisions := index)];
    }

    method MarkTargetChanged(v: string, lot: string)
      requires v in records
      modifies this
      ensures records == old(records)[v := old(Of(v)).(current := lot)]
    {
      records := records[v := records[v].(current := lot)];
    }
  }
}
