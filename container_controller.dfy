/**
 * The container controller: `getAll`, `create` and `updateStatus`, each a
 * function on the tables and a handler method on the live database. Only
 * `getAll` is wired to a route; the other two are reachable from no route.
 */
module ContainerController {
  import opened Store

  /**
   * `create`: inserts the body's `number` and `type` exactly as given (NULL
   * when absent), `status || 'new'` and `zone_id || null`. A zone named here
   * is stored without touching that zone's load.
   */
  function Create(t: Tables, number: Option<string>, kind: Option<string>, status: Option<string>, zoneId: Option<Id>)
    : (r: Tables)
    requires t.Valid()
    ensures r.Valid() && r.nextId == t.nextId + 1
    ensures t.nextId !in t.containers && r.containers.Keys == t.containers.Keys + {t.nextId}
    ensures forall id :: id in t.containers ==> r.containers[id] == t.containers[id]
    ensures r.zones == t.zones
    ensures r.containers[t.nextId].number == number && r.containers[t.nextId].kind == kind
    ensures Present(status) ==> r.containers[t.nextId].status == status.value
    ensures !Present(status) ==> r.containers[t.nextId].status == New
    ensures Bound(zoneId) ==> r.containers[t.nextId].zoneId == zoneId
    ensures !Bound(zoneId) ==> r.containers[t.nextId].zoneId == None
  {
    t.Insert(Container(number, kind, OrElse(status, New), if Bound(zoneId) then zoneId else None))
  }

  /**
   * `updateStatus`: overwrites the status of container `id`. It answers
   * "Status updated" whether or not the row exists, so there is no outcome;
   * an absent id changes nothing.
   */
  function UpdateStatus(t: Tables, id: Id, status: string): (r: Tables)
    ensures id !in t.containers ==> r == t
    ensures SameContainersExcept(t, r, id) && r.zones == t.zones && r.nextId == t.nextId
    ensures id in t.containers ==>
      && r.containers[id].status == status
      && r.containers[id].zoneId == t.containers[id].zoneId
      && r.containers[id].number == t.containers[id].number
      && r.containers[id].kind == t.containers[id].kind
    ensures t.Valid() ==> r.Valid()
  {
    t.SetStatus(id, status)
  }

  /** `getAll`: `SELECT * FROM containers`; reads and changes nothing. */
  method HandleGetAll(db: Database) returns (rows: map<Id, Container>)
    ensures rows == db.State().containers
  {
    rows := db.SelectContainers();
  }

  method HandleCreate(db: Database, number: Option<string>, kind: Option<string>, status: Option<string>, zoneId: Option<Id>)
    returns (id: Id, row: Container)
    requires db.Valid()
    modifies db
    ensures db.Valid()
    ensures id == old(db.nextId) && db.State() == Create(old(db.State()), number, kind, status, zoneId)
    ensures id in db.containers && row == db.containers[id]
  {
    row := Container(number, kind, OrElse(status, New), if Bound(zoneId) then zoneId else None);
    id := db.Insert(row);
  }

  method HandleUpdateStatus(db: Database, id: Id, status: string)
    modifies db
    ensures db.State() == UpdateStatus(old(db.State()), id, status)
  {
    var _ := db.SetStatus(id, status);
  }
}
