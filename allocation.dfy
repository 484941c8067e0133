/**
 * Sequences of requests against the tables, run one after another, and what
 * the handlers guarantee, or fail to guarantee, across several requests: the
 * capacity bound on every load, the zone table's fixed shape, how many of a
 * batch of assigns succeed, repeated shipping, and how the zone loads drift
 * away from the number of containers actually assigned to each zone.
 */
module Allocation {
  import opened Store
  import Routes
  import ContainerController
  import ZoneController

  /** One call of a handler, with its request parameters. */
  datatype Request =
    | PostContainer(number: Option<string>, kind: Option<string>, now: nat)
    | PatchContainer(id: Id, status: string)
    | PostAssign(zoneId: Id, containerId: Id)
    | PostShip(id: Id)
    | CallCreate(number: Option<string>, kind: Option<string>, initialStatus: Option<string>, zone: Option<Id>)
    | CallUpdateStatus(id: Id, status: string)
    | CallAssignContainer(zoneId: Id, containerId: Id)

  /** Zone rows keep their ids, names, types and capacities: only loads move. */
  ghost predicate ZoneShapeKept(t: Tables, t': Tables)
  {
    && t'.zones.Keys == t.zones.Keys
    && forall z :: z in t.zones ==>
         && t'.zones[z].name == t.zones[z].name
         && t'.zones[z].kind == t.zones[z].kind
         && t'.zones[z].capacity == t.zones[z].capacity
  }

  /** One request, run as one atomic step. */
  function Step(t: Tables, q: Request): (r: (Outcome, Tables))
    requires t.Valid()
    ensures r.1.Valid()
    ensures LoadsBounded(t) ==> LoadsBounded(r.1)
    ensures ZoneShapeKept(t, r.1)
  {
    match q
    case PostContainer(number, kind, now) => (Ok, Routes.Create(t, number, kind, now))
    case PatchContainer(id, status) => Routes.Patch(t, id, status)
    case PostAssign(zoneId, containerId) => Routes.Assign(t, zoneId, containerId)
    case PostShip(id) => Routes.Ship(t, id)
    case CallCreate(number, kind, status, zone) => (Ok, ContainerController.Create(t, number, kind, status, zone))
    case CallUpdateStatus(id, status) => (Ok, ContainerController.UpdateStatus(t, id, status))
    case CallAssignContainer(zoneId, containerId) => ZoneController.AssignContainer(t, zoneId, containerId)
  }

  /** The requests run in order: one outcome per request, and the final tables. */
  function Run(t: Tables, qs: seq<Request>): (r: (seq<Outcome>, Tables))
    requires t.Valid()
    ensures |r.0| == |qs| && r.1.Valid()
    ensures ZoneShapeKept(t, r.1)
    decreases |qs|
  {
    if qs == [] then ([], t)
    else
      var (o, t1) := Step(t, qs[0]);
      var (os, t2) := Run(t1, qs[1..]);
      ([o] + os, t2)
  }

  /**
   * The capacity invariant under sequential execution: if every load was within
   * 0..capacity, it still is after any sequence of requests.
   */
  lemma {:induction false} RunKeepsLoadsBounded(t: Tables, qs: seq<Request>)
    requires t.Valid() && LoadsBounded(t)
    ensures LoadsBounded(Run(t, qs).1)
    decreases |qs|
  {
    if qs != [] {
      var t1 := Step(t, qs[0]).1;
      RunKeepsLoadsBounded(t1, qs[1..]);
    }
  }

  /** Free slots of a zone, as the `current_load >= capacity` guard counts them. */
  function Room(z: Zone): (n: nat)
    ensures n > 0 <==> !Full(z)
  {
    if z.capacity - z.currentLoad > 0 then z.capacity - z.currentLoad else 0
  }

  function Min(a: int, b: int): int
  {
    if a <= b then a else b
  }

  /** Requests assigning each of `cs` in turn to zone `zoneId`, by the route or by the controller. */
  function Assigns(zoneId: Id, cs: seq<Id>, viaController: bool): (qs: seq<Request>)
    ensures |qs| == |cs|
    decreases |cs|
  {
    if cs == [] then []
    else
      var q := if viaController then CallAssignContainer(zoneId, cs[0]) else PostAssign(zoneId, cs[0]);
      [q] + Assigns(zoneId, cs[1..], viaController)
  }

  /**
   * Assigning existing containers one after another to a zone with `n` free
   * slots: exactly the first `n` succeed, every later one is Overloaded, and
   * the load rises by the number that succeeded. Holds for both assign
   * handlers under sequential execution.
   */
  lemma {:induction false} FillZone(t: Tables, zoneId: Id, cs: seq<Id>, viaController: bool)
    requires t.Valid() && zoneId in t.zones
    requires forall i :: 0 <= i < |cs| ==> cs[i] in t.containers
    ensures var r := Run(t, Assigns(zoneId, cs, viaController));
      && (forall i :: 0 <= i < |cs| ==> r.0[i] == (if i < Room(t.zones[zoneId]) then Ok else Overloaded))
      && r.1.zones[zoneId].currentLoad == t.zones[zoneId].currentLoad + Min(|cs|, Room(t.zones[zoneId]))
      && r.1.zones[zoneId].capacity == t.zones[zoneId].capacity
    decreases |cs|
  {
    if cs != [] {
      var qs := Assigns(zoneId, cs, viaController);
      assert qs[1..] == Assigns(zoneId, cs[1..], viaController);
      var (o, t1) := Step(t, qs[0]);
      assert o == (if Room(t.zones[zoneId]) > 0 then Ok else Overloaded);
      assert t1.containers.Keys == t.containers.Keys;
      FillZone(t1, zoneId, cs[1..], viaController);
    }
  }

  function Repeat(q: Request, k: nat): (qs: seq<Request>)
    ensures |qs| == k
  {
    if k == 0 then [] else [q] + Repeat(q, k - 1)
  }

  /**
   * Shipping one bound container `k` times: every call answers Ok, the
   * container stays bound to its zone, and the zone's load falls by one per
   * call until it reaches 0 - re-shipping is not a no-op.
   */
  lemma {:induction false} ShipRepeatedly(t: Tables, id: Id, k: nat)
    requires t.Valid() && id in t.containers && Bound(t.containers[id].zoneId)
    requires t.containers[id].zoneId.value in t.zones && t.zones[t.containers[id].zoneId.value].currentLoad >= 0
    ensures var r := Run(t, Repeat(PostShip(id), k));
      var z := t.containers[id].zoneId.value;
      && (forall i :: 0 <= i < k ==> r.0[i] == Ok)
      && id in r.1.containers && r.1.containers[id].zoneId == t.containers[id].zoneId
      && (k > 0 ==> r.1.containers[id].status == Shipped)
      && SameZonesExcept(t, r.1, z)
      && r.1.zones[z].currentLoad == (if t.zones[z].currentLoad >= k then t.zones[z].currentLoad - k else 0)
    decreases k
  {
    if k > 0 {
      var qs := Repeat(PostShip(id), k);
      assert qs[0] == PostShip(id) && qs[1..] == Repeat(PostShip(id), k - 1);
      var t1 := Step(t, qs[0]).1;
      ShipRepeatedly(t1, id, k - 1);
    }
  }

  /** Shipping a container twice takes two off its zone's load when the load allows it. */
  lemma ShipTwiceDecrementsTwice(t: Tables, id: Id)
    requires t.Valid() && id in t.containers && Bound(t.containers[id].zoneId)
    requires t.containers[id].zoneId.value in t.zones && t.zones[t.containers[id].zoneId.value].currentLoad >= 2
    ensures var z := t.containers[id].zoneId.value;
      Run(t, [PostShip(id), PostShip(id)]).1.zones[z].currentLoad == t.zones[z].currentLoad - 2
  {
    assert Repeat(PostShip(id), 2) == [PostShip(id), PostShip(id)];
    ShipRepeatedly(t, id, 2);
  }

  /** The containers a zone's load is meant to count: status "assigned" and bound to `z`. */
  ghost function Occupants(t: Tables, z: Id): set<Id>
  {
    set c | c in t.containers && t.containers[c].status == Assigned && t.containers[c].zoneId == Some(z)
  }

  /** The occupancy invariant at zone `z`: its load equals the number of containers assigned to it. */
  ghost predicate LoadMatches(t: Tables, z: Id)
  {
    z in t.zones && t.zones[z].currentLoad == |Occupants(t, z)|
  }

  function Counted(row: Container, z: Id): nat
  {
    if row.status == Assigned && row.zoneId == Some(z) then 1 else 0
  }

  /** Changing one container row moves a zone's occupant count only by what that row contributes. */
  lemma OccupantsAfterRowChange(t: Tables, t': Tables, c: Id, z: Id)
    requires c in t.containers && SameContainersExcept(t, t', c)
    ensures |Occupants(t', z)| == |Occupants(t, z)| - Counted(t.containers[c], z) + Counted(t'.containers[c], z)
  {
    var a, b := Occupants(t, z), Occupants(t', z);
    forall x | x != c
      ensures x in a <==> x in b
    {
      if x in t.containers {
        assert t'.containers[x] == t.containers[x];
      }
    }
    assert a - {c} == b - {c};
    assert c in a <==> Counted(t.containers[c], z) == 1;
    assert c in b <==> Counted(t'.containers[c], z) == 1;
    if c in a { assert |a| == |a - {c}| + 1; }
    if c in b { assert |b| == |b - {c}| + 1; }
  }

  /**
   * The controller's assign keeps the occupancy invariant at the target
   * zone when the container was not already counted there, but
   * reassigning a container from zone
   * `z1` never releases `z1`: its load stays one above its occupants.
   */
  lemma ControllerAssignKeepsTarget(t: Tables, zoneId: Id, c: Id)
    requires LoadMatches(t, zoneId) && c in t.containers && !Full(t.zones[zoneId])
    requires Counted(t.containers[c], zoneId) == 0
    ensures var r := ZoneController.AssignContainer(t, zoneId, c);
      r.0 == Ok && LoadMatches(r.1, zoneId)
  {
    var r := ZoneController.AssignContainer(t, zoneId, c);
    OccupantsAfterRowChange(t, r.1, c, zoneId);
  }

  lemma ControllerReassignLeavesStaleLoad(t: Tables, z1: Id, z2: Id, c: Id)
    requires c in t.containers && t.containers[c].status == Assigned && t.containers[c].zoneId == Some(z1)
    requires LoadMatches(t, z1) && z1 != z2 && z2 in t.zones && !Full(t.zones[z2])
    ensures var r := ZoneController.AssignContainer(t, z2, c);
      r.0 == Ok && r.1.zones[z1].currentLoad == |Occupants(r.1, z1)| + 1
  {
    var r := ZoneController.AssignContainer(t, z2, c);
    OccupantsAfterRowChange(t, r.1, c, z1);
  }

  /**
   * The route's assign raises the load without setting status "assigned",
   * so assigning a container that is not yet "assigned" leaves the target
   * zone's load one above its occupants.
   */
  lemma RouteAssignOvercounts(t: Tables, zoneId: Id, c: Id)
    requires LoadMatches(t, zoneId) && c in t.containers && !Full(t.zones[zoneId])
    requires t.containers[c].status != Assigned
    ensures var r := Routes.Assign(t, zoneId, c);
      r.0 == Ok && r.1.zones[zoneId].currentLoad == |Occupants(r.1, zoneId)| + 1
  {
    var r := Routes.Assign(t, zoneId, c);
    OccupantsAfterRowChange(t, r.1, c, zoneId);
  }

  /** A raw status patch away from "assigned" leaves the zone's load stale by one. */
  lemma PatchLeavesStaleLoad(t: Tables, c: Id, z: Id, status: string)
    requires c in t.containers && t.containers[c].status == Assigned && t.containers[c].zoneId == Some(z)
    requires LoadMatches(t, z) && status != Assigned
    ensures var r := Routes.Patch(t, c, status);
      r.0 == Ok && r.1.zones[z].currentLoad == |Occupants(r.1, z)| + 1
  {
    var r := Routes.Patch(t, c, status);
    OccupantsAfterRowChange(t, r.1, c, z);
  }

  /**
   * Shipping an assigned container keeps the occupancy invariant at its
   * zone; shipping it again takes one more off the load while other
   * containers still occupy the zone, so the load falls one below its
   * occupants.
   */
  lemma ShipKeepsLoadMatches(t: Tables, c: Id, z: Id)
    requires c in t.containers && t.containers[c].status == Assigned && t.containers[c].zoneId == Some(z)
    requires z != 0 && LoadMatches(t, z)
    ensures var r := Routes.Ship(t, c);
      r.0 == Ok && LoadMatches(r.1, z)
  {
    var r := Routes.Ship(t, c);
    OccupantsAfterRowChange(t, r.1, c, z);
    assert c in Occupants(t, z);
  }

  lemma ReshipUndercounts(t: Tables, c: Id, z: Id)
    requires c in t.containers && t.containers[c].status == Shipped && t.containers[c].zoneId == Some(z)
    requires z != 0 && LoadMatches(t, z) && |Occupants(t, z)| > 0
    ensures var r := Routes.Ship(t, c);
      r.0 == Ok && r.1.zones[z].currentLoad == |Occupants(r.1, z)| - 1
  {
    var r := Routes.Ship(t, c);
    OccupantsAfterRowChange(t, r.1, c, z);
  }

  /**
   * The controller's assign of a container already assigned to the same
   * zone raises the load once more, leaving it one above its occupants.
   */
  lemma ControllerAssignSameZoneOvercounts(t: Tables, zoneId: Id, c: Id)
    requires c in t.containers && t.containers[c].status == Assigned && t.containers[c].zoneId == Some(zoneId)
    requires LoadMatches(t, zoneId) && !Full(t.zones[zoneId])
    ensures var r := ZoneController.AssignContainer(t, zoneId, c);
      r.0 == Ok && r.1.zones[zoneId].currentLoad == |Occupants(r.1, zoneId)| + 1
  {
    var r := ZoneController.AssignContainer(t, zoneId, c);
    OccupantsAfterRowChange(t, r.1, c, zoneId);
  }

  /** A raw status patch to "assigned" of a bound, uncounted container leaves its zone's load one below its occupants. */
  lemma PatchToAssignedUndercounts(t: Tables, c: Id, z: Id)
    requires c in t.containers && t.containers[c].status != Assigned && t.containers[c].zoneId == Some(z)
    requires LoadMatches(t, z)
    ensures var r := Routes.Patch(t, c, Assigned);
      r.0 == Ok && r.1.zones[z].currentLoad == |Occupants(r.1, z)| - 1
  {
    var r := Routes.Patch(t, c, Assigned);
    OccupantsAfterRowChange(t, r.1, c, z);
  }

  /**
   * The controller's `create` with status "assigned" and a truthy zone
   * reference adds an occupant to that zone without touching its load.
   */
  lemma ControllerCreateAssignedUndercounts(t: Tables, number: Option<string>, kind: Option<string>, z: Id)
    requires t.Valid() && z != 0 && LoadMatches(t, z)
    ensures var t' := ContainerController.Create(t, number, kind, Some(Assigned), Some(z));
      t'.zones[z].currentLoad == |Occupants(t', z)| - 1
  {
    var t' := ContainerController.Create(t, number, kind, Some(Assigned), Some(z));
    var a, b := Occupants(t, z), Occupants(t', z);
    forall x | x != t.nextId
      ensures x in a <==> x in b
    {
      if x in t.containers {
        assert t'.containers[x] == t.containers[x];
      }
    }
    assert t.nextId in b && t.nextId !in a;
    assert b == a + {t.nextId};
  }

  /**
   * A zone with one slot: the first container gets it, the second is
   * Overloaded, shipping the first frees the slot and the second then gets
   * it.
   */
  lemma OneSlotScenario()
    ensures var t := Tables(map[5 := Container(None, None, New, None), 7 := Container(None, None, New, None)],
                            map[1 := Zone("Z1", "", 1, 0)], 8);
      var r := Run(t, [PostAssign(1, 5), PostAssign(1, 7), PostShip(5), PostAssign(1, 7)]);
      r.0 == [Ok, Overloaded, Ok, Ok] && r.1.zones[1].currentLoad == 1
  {
  }
}
