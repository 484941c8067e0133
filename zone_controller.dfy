/**
 * The zone controller: `getAll`, wired to GET /zones, and `assignContainer`,
 * reachable from no route. `assignContainer` reads both rows, answers
 * NotFound when either is missing, checks capacity only after that, and then
 * issues two updates: status and zone of the container, then the zone's load.
 */
module ZoneController {
  import opened Store

  /**
   * `assignContainer`: on success the container becomes "assigned" to the
   * zone whatever its status was (a shipped one included), the zone's load
   * goes up by one, and a zone the container was bound to before keeps its
   * load.
   */
  function AssignContainer(t: Tables, zoneId: Id, containerId: Id): (r: (Outcome, Tables))
    ensures zoneId !in t.zones || containerId !in t.containers ==> r == (NotFound, t)
    ensures zoneId in t.zones && containerId in t.containers && Full(t.zones[zoneId]) ==> r == (Overloaded, t)
    ensures r.0 == Ok <==> zoneId in t.zones && containerId in t.containers && !Full(t.zones[zoneId])
    ensures r.0 == Ok ==>
      && SameContainersExcept(t, r.1, containerId)
      && r.1.containers[containerId].status == Assigned
      && r.1.containers[containerId].zoneId == Some(zoneId)
      && r.1.containers[containerId].number == t.containers[containerId].number
      && r.1.containers[containerId].kind == t.containers[containerId].kind
      && SameZonesExcept(t, r.1, zoneId)
      && r.1.zones[zoneId] == t.zones[zoneId].(currentLoad := t.zones[zoneId].currentLoad + 1)
    ensures r.0 == Ok && t.containers[containerId].zoneId.Some? && t.containers[containerId].zoneId.value != zoneId
            && t.containers[containerId].zoneId.value in t.zones
            ==> r.1.zones[t.containers[containerId].zoneId.value] == t.zones[t.containers[containerId].zoneId.value]
    ensures r.1.nextId == t.nextId && (t.Valid() ==> r.1.Valid())
    ensures LoadsBounded(t) ==> LoadsBounded(r.1)
  {
    var zone, container := t.ZoneRow(zoneId), t.ContainerRow(containerId);
    if zone.None? || container.None? then (NotFound, t)
    else if Full(zone.value) then (Overloaded, t)
    else (Ok, t.SetStatusAndZone(containerId, Assigned, zoneId).IncrementLoad(zoneId))
  }

  /** `getAll`: `SELECT * FROM zones`; reads and changes nothing. */
  method HandleGetAll(db: Database) returns (rows: map<Id, Zone>)
    ensures rows == db.State().zones
  {
    rows := db.SelectZones();
  }

  method HandleAssignContainer(db: Database, zoneId: Id, containerId: Id) returns (o: Outcome)
    modifies db
    ensures (o, db.State()) == AssignContainer(old(db.State()), zoneId, containerId)
  {
    var zone := db.SelectZone(zoneId);
    var container := db.SelectContainer(containerId);
    if zone.None? || container.None? {
      return NotFound;
    }
    if Full(zone.value) {
      return Overloaded;
    }
    db.SetStatusAndZone(containerId, Assigned, zoneId);
    db.IncrementLoad(zoneId);
    return Ok;
  }
}
