# Container API: allocation of containers to storage zones

This project models the allocation core of a small container-tracking HTTP
service. The service keeps two PostgreSQL tables. `containers` has number,
type, status and zone reference. `zones` has name, type, capacity and current
load. Its handlers register containers, overwrite their status, bind them to
zones under a capacity guard, and ship them out.

The database is modelled as in-memory state:

- `Store.Tables` is a value holding both tables as maps from id to row, plus
  the serial counter that hands out container ids.
- Each SQL statement the handlers send is a pure function on `Tables`:
  `Insert`, `SetStatus`, `SetZone`, `SetStatusAndZone`, `IncrementLoad`,
  `DecrementLoad`, `ContainerRow`, `ZoneRow`.
- `Store.Database` is a class with the two tables and the counter as fields.
  It has one method per SQL statement, and each method changes the fields
  exactly as that statement would.

Each handler appears twice:

- As a function that gives the outcome (`Ok`, `NotFound`, `Overloaded`) and
  the tables afterwards. Its contract states the handler's guarantees: which
  error comes from which input, what changes, and what stays the same.
- As a method over a `Database` that runs the handler's statements in the
  source's order, with the same early returns. Each method's postcondition
  says that it computes exactly that function.

Modules follow the source files:

- `Routes`: the inline handlers of `src/index.ts`.
- `ContainerController`: `src/controllers/ContainerController.ts`.
- `ZoneController`: `src/controllers/ZoneController.ts`.
- `Allocation`: runs sequences of requests and proves properties that span
  several requests.

Where the code falls short of what a careful reader would expect, the model
follows the code:

- Neither assign handler refuses a shipped container.
- Neither assign handler releases the zone a container was bound to before.
- The route's assign sets `zone_id` but leaves `status` as it was.
- Ship keeps `zone_id`, and shipping again decrements the load again.
- The raw status patch never adjusts a load.
- The route's assign checks capacity before it looks up the container. So a
  full zone answers Overloaded even when the container does not exist.
- The controller's assign looks up both rows before it checks capacity.

The capacity invariant `0 <= current_load <= capacity` holds after any
sequence of requests run one at a time (`Allocation.RunKeepsLoadsBounded`).
The occupancy invariant, "a zone's load equals the number of containers in
status "assigned" bound to it", is not kept. Each of the following lemmas
shows one request that breaks it by exactly one; they are examples, not a
complete list:

- `ControllerReassignLeavesStaleLoad`: the controller's assign moves a
  container to another zone.
- `ControllerAssignSameZoneOvercounts`: the controller's assign re-assigns a
  container to the zone it is already in.
- `RouteAssignOvercounts`: the route's assign binds a container that is not
  in status "assigned".
- `PatchLeavesStaleLoad` and `PatchToAssignedUndercounts`: a raw status patch
  moves a bound container out of, or into, status "assigned".
- `ControllerCreateAssignedUndercounts`: the controller's `create` with
  status "assigned" and a zone.
- `ReshipUndercounts`: a shipped container is shipped again.

`ControllerAssignKeepsTarget` and `ShipKeepsLoadMatches` show cases where the
invariant is kept.

JavaScript truthiness is modelled explicitly:

- `number || ...`, `type || ...` and `status || 'new'` treat an absent value
  and `""` as falsy (`Store.Present`).
- `zone_id || null` and `if (container.zone_id)` treat NULL and `0` as falsy
  (`Store.Bound`). So a container bound to zone 0 is shipped without any load
  change.

The controller's `create`, `updateStatus` and `assignContainer` are not
wired to any route in `src/index.ts`; only the two `getAll` handlers are.
They are modelled all the same.

## Model

| member | source | states |
|---|---|---|
| `Store.Tables.ContainerRow` | src/index.ts:253-257 | the container lookup yields a row exactly when the id is present, and then that id's row |
| `Store.Tables.ZoneRow` | src/index.ts:220-221 | the zone lookup yields a row exactly when the id is present, and then that id's row |
| `Store.Tables.Insert` | src/index.ts:105-108 | the insert puts the new row under the next serial id, which was unused; the key set grows by that id only; other rows, zones and the id invariant are kept |
| `Store.Tables.SetStatus` | src/index.ts:146-148 | the status update changes only the status of row `id`; an absent id changes nothing; zones are untouched |
| `Store.Tables.SetZone` | src/index.ts:226-229 | the `zone_id` update changes only the zone reference of row `id`; status and every other row are kept; an absent id changes nothing |
| `Store.Tables.SetStatusAndZone` | src/controllers/ZoneController.ts:27 | the combined update sets status and zone of row `id` only; an absent id changes nothing |
| `Store.Tables.IncrementLoad` | src/index.ts:232-235 | the unguarded increment raises the load of exactly that zone by one; containers and other zones are unchanged |
| `Store.Tables.DecrementLoad` | src/index.ts:266-271 | the guarded decrement takes one off a positive load and leaves a load of 0 or below alone, so `0 <= load <= capacity` is preserved; nothing else changes |
| `Store.Database.SelectContainers` | src/controllers/ContainerController.ts:7 | the read returns the whole container table and changes nothing |
| `Store.Database.SelectZones` | src/controllers/ZoneController.ts:7 | the read returns the whole zone table and changes nothing |
| `Store.Database.SelectContainer` | src/index.ts:253-256 | the read returns the row of `id`, if any, without changes |
| `Store.Database.SelectZone` | src/index.ts:220 | the read returns the row of `id`, if any, without changes |
| `Store.Database.Insert` | src/index.ts:105-108 | the executed insert returns the id it used and leaves the tables as `Tables.Insert` describes |
| `Store.Database.SetStatus` | src/index.ts:146-150 | the executed update reports whether a row matched and leaves the tables as `Tables.SetStatus` describes |
| `Store.Database.SetZone` | src/index.ts:226-230 | the executed update reports whether a row matched and leaves the tables as `Tables.SetZone` describes |
| `Store.Database.SetStatusAndZone` | src/controllers/ZoneController.ts:27 | the executed update leaves the tables as `Tables.SetStatusAndZone` describes |
| `Store.Database.IncrementLoad` | src/index.ts:232-235 | the executed increment leaves the tables as `Tables.IncrementLoad` describes |
| `Store.Database.DecrementLoad` | src/index.ts:267-270 | the executed decrement leaves the tables as `Tables.DecrementLoad` describes |
| `Routes.Decimal` | src/index.ts:104 | the clock reading in a generated label is a non-empty string of decimal digits |
| `Routes.DecimalInjective` | src/index.ts:104 | distinct clock readings have distinct decimal forms |
| `Routes.GeneratedNumber` | src/index.ts:104 | a generated label is `C-` followed by one or more decimal digits |
| `Routes.GeneratedNumberInjective` | src/index.ts:104 | distinct clock readings give distinct generated container numbers |
| `Routes.Create` | src/index.ts:101-115 | create adds exactly one container, under a fresh id, with status "new" and no zone; its number is the given one if truthy, else `C-` and the clock; its type is the given one if truthy, else "тип 1"; other containers and all zones are unchanged |
| `Routes.Patch` | src/index.ts:142-157 | patch answers NotFound exactly when the id is absent, and then changes nothing; otherwise it overwrites only that container's status, keeping its zone and every zone's load |
| `Routes.Assign` | src/index.ts:216-248 | an unknown zone gives NotFound; a full zone gives Overloaded even when the container is missing; a missing container gives NotFound; none of these changes anything; success sets only the container's `zone_id`, keeps its status, raises that zone's load by exactly one, leaves every other zone (a previous zone included) unchanged, and preserves `0 <= load <= capacity` |
| `Routes.Ship` | src/index.ts:250-285 | ship answers NotFound exactly when the container is absent, and then changes nothing; otherwise status becomes "shipped", `zone_id` is kept, and a truthy zone reference takes one off that zone's load only when it is positive; other zones are unchanged and loads never go negative |
| `Routes.HandleCreate` | src/index.ts:101-110 | the handler inserts the row that `Create` describes and returns its id and the stored row |
| `Routes.HandlePatch` | src/index.ts:142-152 | running the update and then the row check gives exactly `Patch`'s outcome and tables |
| `Routes.HandleAssign` | src/index.ts:216-238 | running the zone read, the capacity check, the container update and the increment, with their early returns, gives exactly `Assign`'s outcome and tables |
| `Routes.HandleShip` | src/index.ts:250-275 | running the read, the status update and the conditional decrement gives exactly `Ship`'s outcome and tables |
| `ContainerController.Create` | src/controllers/ContainerController.ts:11-18 | create adds exactly one row under a fresh id; number and type are stored as given; status is the given one if truthy, else "new"; `zone_id` is the given one if truthy, else NULL; no zone's load changes |
| `ContainerController.UpdateStatus` | src/controllers/ContainerController.ts:20-25 | the update overwrites only the target container's status and keeps its other fields, other containers and zones; an absent id changes nothing |
| `ContainerController.HandleGetAll` | src/controllers/ContainerController.ts:6-9 | the handler returns the container table as it is and changes nothing |
| `ContainerController.HandleCreate` | src/controllers/ContainerController.ts:11-18 | the handler inserts the row that `Create` describes and returns its id and the stored row |
| `ContainerController.HandleUpdateStatus` | src/controllers/ContainerController.ts:20-25 | the handler leaves the tables as `UpdateStatus` describes |
| `ZoneController.AssignContainer` | src/controllers/ZoneController.ts:11-31 | a missing zone or container gives NotFound, checked before capacity; a full zone gives Overloaded; neither changes anything; success makes the container "assigned" to the zone whatever its prior status (shipped included), keeps its number and type, raises that zone's load by exactly one, leaves other containers and other zones (a previous zone included) unchanged, and preserves `0 <= load <= capacity` |
| `ZoneController.HandleGetAll` | src/controllers/ZoneController.ts:6-9 | the handler returns the zone table as it is and changes nothing |
| `ZoneController.HandleAssignContainer` | src/controllers/ZoneController.ts:11-31 | running both reads, the two guards and the two updates gives exactly `AssignContainer`'s outcome and tables |
| `Allocation.Step` | src/index.ts:224-235 | every handler keeps the id invariant and `0 <= load <= capacity`, and changes no zone's name, type or capacity |
| `Allocation.Run` | src/index.ts:216-285 | a sequence of requests yields one outcome per request and keeps the id invariant and the zone table's shape |
| `Allocation.RunKeepsLoadsBounded` | src/index.ts:224-235 | `0 <= load <= capacity` holds after any sequence of requests to any of the handlers, if it held before |
| `Allocation.Room` | src/index.ts:224 | a zone has a free slot exactly when the capacity guard lets an assign through |
| `Allocation.FillZone` | src/index.ts:224-235 | assigning existing containers in turn to a zone with `n` free slots, by either handler: exactly the first `n` answer Ok, all later ones answer Overloaded, and the load rises by the number of successes |
| `Allocation.ShipRepeatedly` | src/index.ts:261-270 | shipping one bound container `k` times: every call answers Ok, the container stays bound and "shipped", and its zone's load falls by `k`, floored at 0 |
| `Allocation.ShipTwiceDecrementsTwice` | src/index.ts:266-270 | shipping the same container twice takes two off a load of at least two |
| `Allocation.OccupantsAfterRowChange` | src/controllers/ZoneController.ts:27 | changing one container row moves a zone's count of assigned containers only by what that row contributes |
| `Allocation.ControllerAssignKeepsTarget` | src/controllers/ZoneController.ts:27-28 | the controller's assign keeps "load equals assigned containers" at the target zone when the container was not already counted there |
| `Allocation.ControllerReassignLeavesStaleLoad` | src/controllers/ZoneController.ts:27-28 | moving an assigned container to another zone leaves the old zone's load one above its assigned containers |
| `Allocation.RouteAssignOvercounts` | src/index.ts:226-235 | the route's assign of a container not in status "assigned" leaves the target zone's load one above its assigned containers |
| `Allocation.PatchLeavesStaleLoad` | src/index.ts:146-148 | patching an assigned container to another status leaves its zone's load one above its assigned containers |
| `Allocation.ShipKeepsLoadMatches` | src/index.ts:261-270 | shipping an assigned container keeps "load equals assigned containers" at its zone |
| `Allocation.ControllerAssignSameZoneOvercounts` | src/controllers/ZoneController.ts:27-28 | the controller's assign of a container already assigned to that zone leaves its load one above its assigned containers |
| `Allocation.PatchToAssignedUndercounts` | src/index.ts:146-148 | patching a bound container into status "assigned" leaves its zone's load one below its assigned containers |
| `Allocation.ControllerCreateAssignedUndercounts` | src/controllers/ContainerController.ts:12-15 | creating a container with status "assigned" and a truthy zone adds an assigned container to that zone without raising its load |
| `Allocation.ReshipUndercounts` | src/index.ts:261-270 | shipping an already shipped container again, while others occupy its zone, leaves the load one below the assigned containers |
| `Allocation.OneSlotScenario` | src/index.ts:216-285 | in a zone with one slot: assign answers Ok, a second assign answers Overloaded, ship frees the slot, and the second container's assign then answers Ok |

## Left out

- HTTP transport is not modelled: Express routing, CORS, JSON body parsing,
  status codes and the response bodies. Only the abstract outcome is kept.
  The root route `GET /` only sends a fixed text.
- The Swagger/OpenAPI documentation is not modelled; it has no behaviour.
- The socket.io server and its `containerAdded`, `containerUpdated`,
  `containerAssigned` and `containerShipped` broadcasts are not modelled.
  They are best-effort notifications, not state.
- The pg connection pool and environment configuration are not modelled. The
  database is the in-memory `Tables` value and `Database` object.
- The `arrival_time` column is not modelled. It is set from the database clock
  (`NOW()`) on the route's insert and left to a column default in the
  controller's insert; neither is visible here. The `Date.now()` reading used
  for generated numbers is a parameter `now`.
- Storage failures are not modelled: the `try`/`catch` answers with status 500,
  the logging, and the unhandled rejections of the controller handlers.
- Interleaving between the separately awaited queries of one handler is not
  modelled. The code has no transactions, so two concurrent assigns can both
  pass the capacity check before either increments. Each handler is modelled
  as one atomic step, and every multi-request property holds only under
  sequential execution.
- Request parsing is not modelled: string path parameters, `Number(...)`
  conversion and its `NaN` case, and body fields of unexpected JSON types.
  Ids are integers. `number` and `type` are optional strings in both create
  handlers, and `status` is an optional string in the controller's
  `create`. The two status overwrites, the route's patch and the
  controller's `updateStatus`, take `status` as a plain string.
- Routes.Patch: the status is taken as a given string. A request body without
  `status`, which the code would store as NULL, is not modelled.
- ContainerController.UpdateStatus: the status is taken as a given string. A
  request body without `status` makes the code write NULL into the row's
  status; that case is not modelled.
- Table constraints of the schema (foreign keys, NOT NULL, defaults) are not
  visible to this model. A `zone_id` given to the controller's `create` is
  stored as given, even when no such zone exists.
- Several safeguards a reader might expect do not exist in the code, so they
  are not modelled: an assign that refuses shipped containers, a retryable
  error when concurrent requests contend for a row, releasing the previous
  zone when a container is reassigned, and a re-ship that changes nothing.
  The lemmas in `Allocation` state what the code actually does in those
  cases.
