/**
 * The inline route handlers of the HTTP server: POST /containers,
 * PATCH /containers/:id, POST /zones/:id/assign and POST /containers/:id/ship.
 * Each handler is a function giving its outcome and the tables afterwards, and
 * a method that runs the handler's SQL statements, in order, on a `Database`.
 */
module Routes {
  import opened Store

  /** The container type stored when the request names none. */
  const DefaultKind: string := "тип 1"

  /** The decimal digits of `n`, as JavaScript prints a clock reading. */
  function Decimal(n: nat): (r: string)
    ensures |r| >= 1
    ensures forall i :: 0 <= i < |r| ==> '0' <= r[i] <= '9'
  {
    var d := ['0' + (n % 10) as char];
    if n < 10 then d else Decimal(n / 10) + d
  }

  /** Distinct numbers have distinct decimal forms. */
  lemma {:induction false} DecimalInjective(a: nat, b: nat)
    requires Decimal(a) == Decimal(b)
    ensures a == b
    decreases a
  {
    var da, db := Decimal(a), Decimal(b);
    assert da[|da| - 1] == '0' + (a % 10) as char;
    assert db[|db| - 1] == '0' + (b % 10) as char;
    assert a % 10 == b % 10;
    // One below 10 and the other not: the lengths differ, so that case cannot arise.
    if a >= 10 && b >= 10 {
      assert Decimal(a / 10) == da[..|da| - 1];
      assert Decimal(b / 10) == db[..|db| - 1];
      DecimalInjective(a / 10, b / 10);
    }
  }

  /** The label `C-${Date.now()}` generated when the request gives no number. */
  function GeneratedNumber(now: nat): (s: string)
    ensures |s| >= 3 && s[..2] == "C-"
    ensures forall i :: 2 <= i < |s| ==> '0' <= s[i] <= '9'
  {
    "C-" + Decimal(now)
  }

  /** Distinct clock readings give distinct generated labels. */
  lemma GeneratedNumberInjective(a: nat, b: nat)
    requires a != b
    ensures GeneratedNumber(a) != GeneratedNumber(b)
  {
    if GeneratedNumber(a) == GeneratedNumber(b) {
      assert Decimal(a) == GeneratedNumber(a)[2..];
      assert Decimal(b) == GeneratedNumber(b)[2..];
      DecimalInjective(a, b);
    }
  }

  /**
   * POST /containers with body fields `number` and `type` at clock reading
   * `now`: one new row with status "new" and no zone; the id of the new row
   * is `t.nextId`.
   */
  function Create(t: Tables, number: Option<string>, kind: Option<string>, now: nat): (r: Tables)
    requires t.Valid()
    ensures r.Valid() && r.nextId == t.nextId + 1
    ensures t.nextId !in t.containers && r.containers.Keys == t.containers.Keys + {t.nextId}
    ensures forall id :: id in t.containers ==> r.containers[id] == t.containers[id]
    ensures r.zones == t.zones
    ensures r.containers[t.nextId].status == New && r.containers[t.nextId].zoneId == None
    ensures Present(number) ==> r.containers[t.nextId].number == number
    ensures !Present(number) ==> r.containers[t.nextId].number == Some(GeneratedNumber(now))
    ensures Present(kind) ==> r.containers[t.nextId].kind == kind
    ensures !Present(kind) ==> r.containers[t.nextId].kind == Some(DefaultKind)
  {
    t.Insert(Container(Some(OrElse(number, GeneratedNumber(now))), Some(OrElse(kind, DefaultKind)), New, None))
  }

  /**
   * PATCH /containers/:id: overwrites the status of container `id` with
   * whatever the body gives, leaving its zone and every load as they are.
   */
  function Patch(t: Tables, id: Id, status: string): (r: (Outcome, Tables))
    ensures r.0 == NotFound <==> id !in t.containers
    ensures r.0 == Ok <==> id in t.containers
    ensures id !in t.containers ==> r.1 == t
    ensures SameContainersExcept(t, r.1, id) && r.1.zones == t.zones && r.1.nextId == t.nextId
    ensures id in t.containers ==> r.1.containers[id] == t.containers[id].(status := status)
    ensures t.Valid() ==> r.1.Valid()
  {
    var t' := t.SetStatus(id, status);
    if id in t.containers then (Ok, t') else (NotFound, t')
  }

  /**
   * POST /zones/:id/assign: the zone is looked up first, then its capacity is
   * checked, and only then is the container bound, so a full zone answers
   * Overloaded even for a missing container. The container's status is not
   * touched, a shipped container is not refused, and a zone it was bound to
   * before keeps its load.
   */
  function Assign(t: Tables, zoneId: Id, containerId: Id): (r: (Outcome, Tables))
    ensures zoneId !in t.zones ==> r == (NotFound, t)
    ensures zoneId in t.zones && Full(t.zones[zoneId]) ==> r == (Overloaded, t)
    ensures zoneId in t.zones && !Full(t.zones[zoneId]) && containerId !in t.containers ==> r == (NotFound, t)
    ensures r.0 == Ok <==> zoneId in t.zones && !Full(t.zones[zoneId]) && containerId in t.containers
    ensures r.0 == Ok ==>
      && SameContainersExcept(t, r.1, containerId)
      && r.1.containers[containerId] == t.containers[containerId].(zoneId := Some(zoneId))
      && SameZonesExcept(t, r.1, zoneId)
      && r.1.zones[zoneId] == t.zones[zoneId].(currentLoad := t.zones[zoneId].currentLoad + 1)
    ensures r.0 == Ok && t.containers[containerId].zoneId.Some? && t.containers[containerId].zoneId.value != zoneId
            && t.containers[containerId].zoneId.value in t.zones
            ==> r.1.zones[t.containers[containerId].zoneId.value] == t.zones[t.containers[containerId].zoneId.value]
    ensures r.1.nextId == t.nextId && (t.Valid() ==> r.1.Valid())
    ensures LoadsBounded(t) ==> LoadsBounded(r.1)
  {
    match t.ZoneRow(zoneId)
    case None => (NotFound, t)
    case Some(zone) =>
      if Full(zone) then (Overloaded, t)
      else
        var t1 := t.SetZone(containerId, zoneId);
        if containerId !in t.containers then (NotFound, t1)
        else (Ok, t1.IncrementLoad(zoneId))
  }

  /**
   * POST /containers/:id/ship: marks the container shipped, keeps its
   * `zone_id`, and, when that reference is truthy, takes one off the zone's
   * load unless the load is already 0 or below. Shipping again repeats the
   * decrement.
   */
  function Ship(t: Tables, id: Id): (r: (Outcome, Tables))
    ensures r.0 == NotFound <==> id !in t.containers
    ensures r.0 == Ok <==> id in t.containers
    ensures id !in t.containers ==> r.1 == t
    ensures SameContainersExcept(t, r.1, id) && r.1.nextId == t.nextId
    ensures id in t.containers ==> r.1.containers[id] == t.containers[id].(status := Shipped)
    ensures id in t.containers && Bound(t.containers[id].zoneId) ==>
      var z := t.containers[id].zoneId.value;
      && SameZonesExcept(t, r.1, z)
      && (z in t.zones && t.zones[z].currentLoad > 0 ==>
            r.1.zones[z] == t.zones[z].(currentLoad := t.zones[z].currentLoad - 1))
      && (z in t.zones && t.zones[z].currentLoad <= 0 ==> r.1.zones[z] == t.zones[z])
    ensures id in t.containers && !Bound(t.containers[id].zoneId) ==> r.1.zones == t.zones
    ensures t.Valid() ==> r.1.Valid()
    ensures LoadsBounded(t) ==> LoadsBounded(r.1)
  {
    match t.ContainerRow(id)
    case None => (NotFound, t)
    case Some(row) =>
      var t1 := t.SetStatus(id, Shipped);
      if Bound(row.zoneId) then (Ok, t1.DecrementLoad(row.zoneId.value)) else (Ok, t1)
  }

  method HandleCreate(db: Database, number: Option<string>, kind: Option<string>, now: nat)
    returns (id: Id, row: Container)
    requires db.Valid()
    modifies db
    ensures db.Valid()
    ensures id == old(db.nextId) && db.State() == Create(old(db.State()), number, kind, now)
    ensures id in db.containers && row == db.containers[id]
  {
    var uniqueNumber := OrElse(number, GeneratedNumber(now));
    row := Container(Some(uniqueNumber), Some(OrElse(kind, DefaultKind)), New, None);
    id := db.Insert(row);
  }

  method HandlePatch(db: Database, id: Id, status: string) returns (o: Outcome)
    modifies db
    ensures (o, db.State()) == Patch(old(db.State()), id, status)
  {
    var found := db.SetStatus(id, status);
    if !found {
      return NotFound;
    }
    return Ok;
  }

  method HandleAssign(db: Database, zoneId: Id, containerId: Id) returns (o: Outcome)
    modifies db
    ensures (o, db.State()) == Assign(old(db.State()), zoneId, containerId)
  {
    var zone := db.SelectZone(zoneId);
    if zone.None? {
      return NotFound;
    }
    if Full(zone.value) {
      return Overloaded;
    }
    var found := db.SetZone(containerId, zoneId);
    if !found {
      return NotFound;
    }
    db.IncrementLoad(zoneId);
    return Ok;
  }

  method HandleShip(db: Database, id: Id) returns (o: Outcome)
    modifies db
    ensures (o, db.State()) == Ship(old(db.State()), id)
  {
    var container := db.SelectContainer(id);
    if container.None? {
      return NotFound;
    }
    var _ := db.SetStatus(id, Shipped);
    if Bound(container.value.zoneId) {
      db.DecrementLoad(container.value.zoneId.value);
    }
    return Ok;
  }
}
