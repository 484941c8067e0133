/**
 * The two PostgreSQL tables the handlers work on, `containers` and `zones`,
 * held in memory. Each SQL statement the handlers issue is a pure function on
 * `Tables` (the meaning of the statement) and a method of `Database` (the
 * statement executed against the live tables).
 */
module Store {

  datatype Option<T> = None | Some(value: T)

  /** Row keys of both tables (PostgreSQL integer ids). */
  type Id = int

  const New: string := "new"
  const Assigned: string := "assigned"
  const Shipped: string := "shipped"

  /** A row of `containers`. `number` and `kind` (the `type` column) may be NULL. */
  datatype Container = Container(number: Option<string>, kind: Option<string>, status: string, zoneId: Option<Id>)

  /** A row of `zones`; the handlers only ever change `currentLoad`. */
  datatype Zone = Zone(name: string, kind: string, capacity: int, currentLoad: int)

  /** The outcome a handler reports: 200, 404 or 400 ("Zone Overloaded"). */
  datatype Outcome = Ok | NotFound | Overloaded

  /** JavaScript truthiness of an optional string body field: absent and "" are falsy. */
  predicate Present(s: Option<string>)
  {
    s.Some? && s.value != ""
  }

  /** JavaScript truthiness of a zone reference: NULL and 0 are falsy. */
  predicate Bound(z: Option<Id>)
  {
    z.Some? && z.value != 0
  }

  /** The capacity guard both assign handlers test: `current_load >= capacity`. */
  predicate Full(z: Zone)
  {
    z.currentLoad >= z.capacity
  }

  /** `v || d` for an optional string. */
  function OrElse(v: Option<string>, d: string): string
  {
    if Present(v) then v.value else d
  }

  /** `t'` has the same container rows as `t` except possibly the row `id`. */
  ghost predicate SameContainersExcept(t: Tables, t': Tables, id: Id)
  {
    && t'.containers.Keys == t.containers.Keys
    && forall c :: c in t.containers && c != id ==> t'.containers[c] == t.containers[c]
  }

  /** `t'` has the same zone rows as `t` except possibly the row `id`. */
  ghost predicate SameZonesExcept(t: Tables, t': Tables, id: Id)
  {
    && t'.zones.Keys == t.zones.Keys
    && forall z :: z in t.zones && z != id ==> t'.zones[z] == t.zones[z]
  }

  /** The capacity invariant: every zone's load lies within 0 and its capacity. */
  ghost predicate LoadsBounded(t: Tables)
  {
    forall z :: z in t.zones ==> 0 <= t.zones[z].currentLoad <= t.zones[z].capacity
  }

  datatype Tables = Tables(containers: map<Id, Container>, zones: map<Id, Zone>, nextId: Id)
  {
    /** The serial sequence behind `containers.id` is above every id in use. */
    ghost predicate Valid()
    {
      forall id :: id in containers ==> id < nextId
    }

    /** `SELECT * FROM containers WHERE id = $1`, as the row or nothing. */
    function ContainerRow(id: Id): (r: Option<Container>)
      ensures r.Some? <==> id in containers
      ensures r.Some? ==> r.value == containers[id]
    {
      if id in containers then Some(containers[id]) else None
    }

    /** `SELECT * FROM zones WHERE id = $1`, as the row or nothing. */
    function ZoneRow(id: Id): (r: Option<Zone>)
      ensures r.Some? <==> id in zones
      ensures r.Some? ==> r.value == zones[id]
    {
      if id in zones then Some(zones[id]) else None
    }

    /** `INSERT INTO containers ... RETURNING *`: `c` is stored under the next serial id. */
    function Insert(c: Container): (r: Tables)
      requires Valid()
      ensures r.Valid() && r.nextId == nextId + 1
      ensures nextId !in containers && r.containers.Keys == containers.Keys + {nextId}
      ensures r.containers[nextId] == c
      ensures forall id :: id in containers ==> r.containers[id] == containers[id]
      ensures r.zones == zones
    {
      Tables(containers[nextId := c], zones, nextId + 1)
    }

    /** `UPDATE containers SET status = $1 WHERE id = $2`. */
    function SetStatus(id: Id, s: string): (r: Tables)
      ensures SameContainersExcept(this, r, id) && r.zones == zones && r.nextId == nextId
      ensures id in containers ==> r.containers[id] == containers[id].(status := s)
      ensures id !in containers ==> r == this
      ensures Valid() ==> r.Valid()
    {
      if id in containers then this.(containers := containers[id := containers[id].(status := s)]) else this
    }

    /** `UPDATE containers SET zone_id = $1 WHERE id = $2`. */
    function SetZone(id: Id, z: Id): (r: Tables)
      ensures SameContainersExcept(this, r, id) && r.zones == zones && r.nextId == nextId
      ensures id in containers ==> r.containers[id] == containers[id].(zoneId := Some(z))
      ensures id !in containers ==> r == this
      ensures Valid() ==> r.Valid()
    {
      if id in containers then this.(containers := containers[id := containers[id].(zoneId := Some(z))]) else this
    }

    /** `UPDATE containers SET status = $1, zone_id = $2 WHERE id = $3`. */
    function SetStatusAndZone(id: Id, s: string, z: Id): (r: Tables)
      ensures SameContainersExcept(this, r, id) && r.zones == zones && r.nextId == nextId
      ensures id in containers ==> r.containers[id] == containers[id].(status := s, zoneId := Some(z))
      ensures id !in containers ==> r == this
      ensures Valid() ==> r.Valid()
    {
      if id in containers then this.(containers := containers[id := containers[id].(status := s, zoneId := Some(z))]) else this
    }

    /** `UPDATE zones SET current_load = current_load + 1 WHERE id = $1`: unguarded. */
    function IncrementLoad(z: Id): (r: Tables)
      ensures SameZonesExcept(this, r, z) && r.containers == containers && r.nextId == nextId
      ensures z in zones ==> r.zones[z] == zones[z].(currentLoad := zones[z].currentLoad + 1)
      ensures z !in zones ==> r == this
      ensures Valid() ==> r.Valid()
    {
      if z in zones then this.(zones := zones[z := zones[z].(currentLoad := zones[z].currentLoad + 1)]) else this
    }

    /** `UPDATE zones SET current_load = current_load - 1 WHERE id = $1 AND current_load > 0`. */
    function DecrementLoad(z: Id): (r: Tables)
      ensures SameZonesExcept(this, r, z) && r.containers == containers && r.nextId == nextId
      ensures z in zones && zones[z].currentLoad > 0 ==> r.zones[z] == zones[z].(currentLoad := zones[z].currentLoad - 1)
      ensures (z in zones && zones[z].currentLoad <= 0) || z !in zones ==> r == this
      ensures Valid() ==> r.Valid()
      ensures LoadsBounded(this) ==> LoadsBounded(r)
    {
      if z in zones && zones[z].currentLoad > 0 then
        this.(zones := zones[z := zones[z].(currentLoad := zones[z].currentLoad - 1)])
      else
        this
    }
  }

  /** The live database: both tables and the container id sequence, changed in place by each statement. */
  class Database {
    var containers: map<Id, Container>
    var zones: map<Id, Zone>
    var nextId: Id

    /** The current contents of the database as a value. */
    function State(): Tables
      reads this
    {
      Tables(containers, zones, nextId)
    }

    ghost predicate Valid()
      reads this
    {
      State().Valid()
    }

    constructor (initial: Tables)
      requires initial.Valid()
      ensures Valid() && State() == initial
    {
      containers := initial.containers;
      zones := initial.zones;
      nextId := initial.nextId;
    }

    /** `SELECT * FROM containers`. */
    method SelectContainers() returns (rows: map<Id, Container>)
      ensures rows == State().containers
    {
      rows := containers;
    }

    /** `SELECT * FROM zones`. */
    method SelectZones() returns (rows: map<Id, Zone>)
      ensures rows == State().zones
    {
      rows := zones;
    }

    method SelectContainer(id: Id) returns (row: Option<Container>)
      ensures row == State().ContainerRow(id)
    {
      row := if id in containers then Some(containers[id]) else None;
    }

    method SelectZone(id: Id) returns (row: Option<Zone>)
      ensures row == State().ZoneRow(id)
    {
      row := if id in zones then Some(zones[id]) else None;
    }

    method Insert(c: Container) returns (id: Id)
      requires Valid()
      modifies this
      ensures Valid()
      ensures id == old(nextId) && State() == old(State()).Insert(c)
    {
      id := nextId;
      containers := containers[id := c];
      nextId := nextId + 1;
    }

    /** `found` is whether `RETURNING *` yields a row. */
    method SetStatus(id: Id, s: string) returns (found: bool)
      modifies this
      ensures found == (id in old(containers))
      ensures State() == old(State()).SetStatus(id, s)
    {
      found := id in containers;
      if found {
        containers := containers[id := containers[id].(status := s)];
      }
    }

    method SetZone(id: Id, z: Id) returns (found: bool)
      modifies this
      ensures found == (id in old(containers))
      ensures State() == old(State()).SetZone(id, z)
    {
      found := id in containers;
      if found {
        containers := containers[id := containers[id].(zoneId := Some(z))];
      }
    }

    method SetStatusAndZone(id: Id, s: string, z: Id)
      modifies this
      ensures State() == old(State()).SetStatusAndZone(id, s, z)
    {
      if id in containers {
        containers := containers[id := containers[id].(status := s, zoneId := Some(z))];
      }
    }

    method IncrementLoad(z: Id)
      modifies this
      ensures State() == old(State()).IncrementLoad(z)
    {
      if z in zones {
        zones := zones[z := zones[z].(currentLoad := zones[z].currentLoad + 1)];
      }
    }

    method DecrementLoad(z: Id)
      modifies this
      ensures State() == old(State()).DecrementLoad(z)
    {
      if z in zones && zones[z].currentLoad > 0 {
        zones := zones[z := zones[z].(currentLoad := zones[z].currentLoad - 1)];
      }
    }
  }
}
