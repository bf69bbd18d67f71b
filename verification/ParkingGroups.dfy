/** The reservation counters and the selection policies
    (backend/sumo/controller/parking_group_manager.py). */
module ParkingGroups {
  import opened Wrappers
  import opened ParkingModel

  class ParkingGroupManager {
    const site: Site
    var reserved: map<string, nat>

    constructor (site: Site)
      ensures this.site == site && reserved == map p | p in site.capacity :: 0
    {
      this.site := site;
      reserved := map p | p in site.capacity :: 0;
    }

    method Reserve(p: string)
      modifies this
      ensures reserved == ParkingModel.Reserve(old(reserved), p)
    {
      var count := if p in reserved then reserved[p] else 0;
      reserved := reserved[p := count + 1];
    }

    method Release(p: string)
      modifies this
      ensures reserved == ParkingModel.Release(old(reserved), p)
    {
      if p in reserved && reserved[p] > 0 {
        reserved := reserved[p := reserved[p] - 1];
      }
    }

    function Free(occupied: map<string, nat>, p: string): int
      reads this
    {
      FreeSpaces(site, reserved, occupied, p)
    }

    method LogicalHasFreeSpace(occupied: map<string, nat>, areas: seq<Area>) returns (found: bool)
      ensures found == HasFreeSpace(site, reserved, occupied, areas)
    {
      found := false;
      for i := 0 to |areas|
        invariant forall k :: 0 <= k < i ==> !HasSpace(site, reserved, occupied, areas[k].id)
      {
        if Selectable(site, areas[i].id) && Free(occupied, areas[i].id) > 0 {
          assert HasSpace(site, reserved, occupied, areas[i].id);
          return true;
        }
      }
    }

    method TotalFreeSpaces(occupied: map<string, nat>, areas: seq<Area>) returns (total: int)
      ensures total == TotalFree(site, reserved, occupied, areas)
    {
      total := 0;
      for i := 0 to |areas|
        invariant total == TotalFree(site, reserved, occupied, areas[..i])
      {
        assert areas[..i + 1][..i] == areas[..i];
        var free := Free(occupied, areas[i].id);
        if Selectable(site, areas[i].id) {
          total := total + if free > 0 then free else 0;
        }
      }
      assert areas[..|areas|] == areas;
    }

    method ChooseNearVehicle(occupied: map<string, nat>, cost: string -> Option<real>, areas: seq<Area>)
        returns (best: Option<Area>)
      ensures best == Nearest(site, reserved, occupied, cost, areas)
    {
      best := None;
      var bestDistance := 0.0;
      for i := 0 to |areas|
        invariant best == Nearest(site, reserved, occupied, cost, areas[..i])
        invariant best.Some? ==> cost(best.value.edge) == Some(bestDistance)
      {
        assert areas[..i + 1][..i] == areas[..i];
        var area := areas[i];
        if !Selectable(site, area.id) || Free(occupied, area.id) <= 0 {
          continue;
        }
        var distance := cost(area.edge);
        if distance.Some? && distance.value >= 0.0 && (best.None? || distance.value < bestDistance) {
          bestDistance, best := distance.value, Some(area);
        }
      }
      assert areas[..|areas|] == areas;
    }

    method ChooseReachable(occupied: map<string, nat>, cost: string -> Option<real>, areas: seq<Area>)
        returns (available: seq<Area>)
      ensures available == Reachable(site, reserved, occupied, cost, areas)
    {
      available := [];
      for i := 0 to |areas|
        invariant available == Reachable(site, reserved, occupied, cost, areas[..i])
      {
        assert areas[..i + 1][..i] == areas[..i];
        if Selectable(site, areas[i].id) && Free(occupied, areas[i].id) > 0 && cost(areas[i].edge).Some? {
          available := available + [areas[i]];
        }
      }
      assert areas[..|areas|] == areas;
    }

    method ChooseBalanced(occupied: map<string, nat>, cost: string -> Option<real>, areas: seq<Area>)
        returns (best: Option<Area>)
      ensures best == Balanced(site, reserved, occupied, cost, areas)
    {
      hide BetterBalanced, BalancedFree, Utilization;
      best := None;
      for i := 0 to |areas|
        invariant best == Balanced(site, reserved, occupied, cost, areas[..i])
      {
        assert areas[..i + 1][..i] == areas[..i];
        var area := areas[i];
        if !Selectable(site, area.id) || BalancedFree(site, reserved, occupied, area.id) <= 0 || cost(area.edge).None? {
          continue;
        }
        if best.None? || BetterBalanced(site, reserved, occupied, cost, area, best.value) {
          best := Some(area);
        }
      }
      assert areas[..|areas|] == areas;
    }

    /** The configured policy; a random choice uses up one draw. */
    method ChoosePhysical(occupied: map<string, nat>, cost: string -> Option<real>, areas: seq<Area>, draws: nat)
        returns (p: Option<string>, drawn: nat)
      ensures (p, drawn) == Choose(site, reserved, occupied, cost, areas, draws)
    {
      p, drawn := None, draws;
      match site.policy
      case RandomAvailable =>
        var available := ChooseReachable(occupied, cost, areas);
        if available != [] {
          p, drawn := Some(available[site.picks(draws) % |available|].id), draws + 1;
        }
      case BalancedAvailable =>
        var best := ChooseBalanced(occupied, cost, areas);
        if best.Some? {
          p := Some(best.value.id);
        }
      case NearestAvailable =>
        var best := ChooseNearVehicle(occupied, cost, areas);
        if best.Some? {
          p := Some(best.value.id);
        }
    }
  }
}
