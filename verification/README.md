# BilleSpace office and reservation handlers in Dafny

BilleSpace is a desk-booking back end. Offices are created and edited by their
author (the receptionist who made them). Each office has a city, an address,
office zones (each with a number of desks) and parking zones (each with a number
of spaces). Users reserve a desk, and optionally a parking space, for a day.

This project models the four command handlers that change stored data, and the
`Result` envelope they return. The handlers are:

- `ManageOfficeCommandHandler.Handle`: create an office, or edit one.
  - Only the author may edit, and a request is validated before anything is applied.
  - An edit reconciles the stored zones with the requested zones by name. Zones
    the request no longer names are deleted. Zones named on both sides keep their
    id and take the requested capacity. New names are added.
  - The result is the `OfficeModel` projection of the saved office.
- `MakeReservationCommandHandler.Handle`: create a reservation, or update one.
  - It first checks that the office, office zone and parking zone references resolve.
  - Create mode runs the conflict query. That query treats a repeated desk label
    as a conflict on any day and in any office.
  - Update mode overwrites some fields without any conflict check. It copies the
    office zone id into the parking zone id, exactly as the code does, and sets
    the parking zone navigation to the looked-up parking zone.
  - The database enforces the foreign key from a reservation's parking zone id
    to the parking zones. A row whose id names no parking zone is refused, and
    the handler answers "Can't edit reservation.".
  - Before the save, Entity Framework reconciles the id with the navigation.
    Without a parking zone the navigation stays null and the office zone id is
    saved as set. So such an update is normally refused.
  - With a parking zone, the flag `navigationWins` says whether the navigation's
    key replaces the id. If it does not, the update is refused unless the office
    zone id happens to be a parking zone's key.
  - If an update without a parking zone does get saved, the payload projection
    then dereferences the null parking zone. The model answers `NullDereference`
    there instead of a result.
  - The payload's office is loaded with its city and country only. Its zone
    lists hold just the looked-up zones that belong to it.
- `DeleteOfficeCommandHandler.Handle`: the office's author removes it.
- `DeleteReservationCommandHandler.Handle`: remove a reservation by id. There is
  no ownership check.

How the store is modelled:

- The store is a `Store.Database` object. Its `cities`, `offices` and
  `reservations` tables are sequences; zones live inside their office.
- Each handler is a method that changes the database in place.
- Each handler is proved equal to a specification function `Outcome`, which
  gives the result and the table afterwards.
- The lemmas next to `Outcome` state what the handler promises: error order, no
  change on rejection, what success writes, and the invariants kept.
- Keys the database would generate are passed in as parameters: `newOfficeId`,
  `newReservationId`, and `ZoneKeys`, one key per requested zone. A requested zone
  keeps its own id unless that is `Guid.Empty`; then it takes its generated key.
- The store invariant includes the primary keys of the `OfficeZones` and
  `ParkingZones` tables, across all offices.
- A created office is added with all its zones, so every zone is inserted. A
  requested zone id that is already a key makes the save fail.
- `AddAsync` tracks the new office with all its zones before the save's `try`.
  If two zones of one kind carry the same key, for example because the request
  repeats an id, it throws and the handler returns nothing. The model answers
  `IdentityConflict` there instead of a result.
- An edit only inserts the new zones whose id is `Guid.Empty`. Entity
  Framework's change detection tracks a new zone that carries a key as an
  existing row, and the save updates that row:
  - If another office has a zone with that key, the zone moves into the edited
    office, with the requested name and capacity.
  - If no zone has that key, no row is updated and the save fails.
  - If a zone the office keeps has that key, the office holds two entities with
    one key and the save fails.
- Whether `SaveChanges` throws is passed in as the flag `saveFails`.
- How the change tracker settles a reservation's parking zone id against its
  navigation is passed in as the flag `navigationWins`.
- GUIDs are their canonical text. A `DateTime` is a day number plus a time of
  day, so comparing `.Date` values compares days.

## Model

| member | source | states |
|---|---|---|
| Results.StatusCode | BilleSpace.Domain/Results/Result.cs:12-111 | the factories use 200, 400, 404 and 403, one per kind; the code is 200 exactly for Ok, 400 for BadRequest, 404 for NotFound, 403 for Forbidden |
| Results.ErrorList | BilleSpace.Domain/CQRS/ManageOfficeCommand.cs:74-104 | the error list has one message per failed check, in the order of the checks |
| Results.AddErrorIf | BilleSpace.Domain/CQRS/ManageOfficeCommand.cs:76-97 | one check of a validation appends its message exactly when it fails, keeping the list equal to the messages of the failures so far |
| Results.StatusCodeInjective | BilleSpace.Domain/Results/Result.cs:119-125 | two result kinds never share a status code |
| Results.OkResult | BilleSpace.Domain/Results/Result.cs:12-19 | success without errors or payload, with matching code |
| Results.OkWith | BilleSpace.Domain/Results/Result.cs:21-29 | success carrying exactly the given payload and no errors |
| Results.BadRequestMessage | BilleSpace.Domain/Results/Result.cs:31-40 | BadRequest whose error list is the one message |
| Results.BadRequestList | BilleSpace.Domain/Results/Result.cs:42-52 | BadRequest whose error list is the given list unchanged, even when empty |
| Results.NotFoundId | BilleSpace.Domain/Results/Result.cs:54-76 | NotFound with the single error "There is no object with id: " followed by the id |
| Results.NotFoundError | BilleSpace.Domain/Results/Result.cs:78-88 | NotFound whose single error is the given text |
| Results.ForbiddenMessage | BilleSpace.Domain/Results/Result.cs:90-99 | Forbidden whose single error is the message |
| Results.ForbiddenList | BilleSpace.Domain/Results/Result.cs:101-111 | Forbidden whose error list is the given list |
| Entities.CityIndexByName | BilleSpace.Domain/CQRS/ManageOfficeCommand.cs:45-47 | finds a city with the requested name, and finds none exactly when no city has it |
| Entities.OfficeIndexByAddress | BilleSpace.Domain/CQRS/ManageOfficeCommand.cs:49-51 | finds the first office with the address, and none exactly when no office has it |
| Entities.OfficeIndexById | BilleSpace.Domain/CQRS/DeleteOfficeCommand.cs:39 | finds an office with the id, and none exactly when no office has it |
| Entities.ReservationIndexById | BilleSpace.Domain/CQRS/DeleteReservationCommand.cs:37 | finds a reservation with the id, and none exactly when no reservation has it |
| Entities.ZoneById | BilleSpace.Domain/CQRS/ManageReservationCommand.cs:215-225 | finds a zone with the id among the given zones, and none exactly when none has it |
| Entities.OfficeZoneTable | BilleSpace.Domain/CQRS/ManageReservationCommand.cs:215-219 | the office zones table holds every office zone of every office, and only those |
| Entities.ParkingZoneTable | BilleSpace.Domain/CQRS/ManageReservationCommand.cs:221-225 | the parking zones table holds every parking zone of every office, and only those |
| Entities.CityOf | BilleSpace.Infrastructure/Models/OfficeModel.cs:19-29 | the office's city navigation is a stored city with the office's city id |
| Entities.RemoveAt | BilleSpace.Domain/CQRS/DeleteReservationCommand.cs:47 | removing one row shortens the table by one and keeps the others in order |
| OfficeModels.ToZoneModels | BilleSpace.Infrastructure/Models/OfficeModel.cs:33-44 | every zone is projected, in order, keeping id, name and capacity |
| OfficeModels.ToZones | BilleSpace.Infrastructure/Models/OfficeModel.cs:33-44 | the inverse of the zone projection, element by element: same id, name and capacity, in order |
| OfficeModels.ZonesRoundTrip | BilleSpace.Infrastructure/Models/OfficeModel.cs:33-44 | rebuilding entities from projected zones gives the stored zones back |
| OfficeModels.ZoneKey | BilleSpace.Domain/CQRS/ManageOfficeCommand.cs:142-144 | a new zone is stored under its requested id, or under the generated key when the request leaves the id at `Guid.Empty` |
| OfficeModels.NewZones | BilleSpace.Domain/CQRS/ManageOfficeCommand.cs:142-144 | every requested zone becomes a zone entity, in request order, with its name and capacity and the key `ZoneKey` gives it |
| OfficeModels.ToViewModel | BilleSpace.Infrastructure/Models/OfficeModel.cs:14-48 | id, address, post code and map URL come from the office; city and country come from its city; both zone lists are projected element by element |
| OfficeModels.ViewModelRoundTrip | BilleSpace.Infrastructure/Models/OfficeModel.cs:18-44 | every office field but AuthorEmail can be read back from the view: id, address, post code, map URL, city key and both zone lists |
| ZoneDiff.FirstNamed | BilleSpace.Domain/CQRS/ManageOfficeCommand.cs:122 | finds the first requested zone with the name, and finds one exactly when the name is requested |
| ZoneDiff.Obsolete | BilleSpace.Domain/CQRS/ManageOfficeCommand.cs:110-112 | the zones to delete are exactly the stored zones whose name is not requested |
| ZoneDiff.SurvivingMembers | BilleSpace.Domain/CQRS/ManageOfficeCommand.cs:110-116 | the zones left after removal are exactly the stored zones whose name is requested |
| ZoneDiff.SurvivingInOrder | BilleSpace.Domain/CQRS/ManageOfficeCommand.cs:116 | removal keeps stored order: the survivors of two stored runs are the survivors of the first followed by those of the second |
| ZoneDiff.SurvivingOne | BilleSpace.Domain/CQRS/ManageOfficeCommand.cs:116 | a single stored zone survives exactly when its name is requested |
| ZoneDiff.Updated | BilleSpace.Domain/CQRS/ManageOfficeCommand.cs:119-124 | a surviving zone keeps its id and name and takes the capacity of a requested zone of that name |
| ZoneDiff.Kept | BilleSpace.Domain/CQRS/ManageOfficeCommand.cs:116-124 | the kept zones are the survivors, position by position, with their ids and names unchanged |
| ZoneDiff.CreatedMembers | BilleSpace.Domain/CQRS/ManageOfficeCommand.cs:135-144 | the zones to create are exactly the new zones built from the requested zones whose name no stored zone uses |
| ZoneDiff.CreatedInOrder | BilleSpace.Domain/CQRS/ManageOfficeCommand.cs:135-144 | new zones come in request order: the zones created for two requested runs are those of the first followed by those of the second |
| ZoneDiff.CreatedOne | BilleSpace.Domain/CQRS/ManageOfficeCommand.cs:135-144 | a single requested zone is created, under its key, exactly when no stored zone has its name |
| ZoneDiff.Reconciled | BilleSpace.Domain/CQRS/ManageOfficeCommand.cs:107-144 | after the diff, the office's zone names are exactly the requested names |
| ZoneDiff.SameIdSameZone | BilleSpace.Domain/CQRS/ManageOfficeCommand.cs:116 | with distinct zone ids, two zones with the same id are the same zone |
| ZoneDiff.RemovalPredicate | BilleSpace.Domain/CQRS/ManageOfficeCommand.cs:116 | with distinct zone ids, the removal test selects a stored zone exactly when its name is not requested |
| ZoneDiff.KeptNames | BilleSpace.Domain/CQRS/ManageOfficeCommand.cs:110-124 | the kept zones carry exactly the stored names that are also requested |
| ZoneDiff.CreatedNames | BilleSpace.Domain/CQRS/ManageOfficeCommand.cs:135-144 | the created zones carry exactly the requested names that are not stored |
| ZoneDiff.ObsoleteZoneRemoved | BilleSpace.Domain/CQRS/ManageOfficeCommand.cs:110-116 | no zone with an unrequested name survives the diff |
| ZoneDiff.KeptZoneKeepsIdentity | BilleSpace.Domain/CQRS/ManageOfficeCommand.cs:119-124 | a stored zone whose name is requested survives with its id and name, and takes the capacity of the first requested zone of that name |
| ZoneDiff.KeptPrefix | BilleSpace.Domain/CQRS/ManageOfficeCommand.cs:116-144 | the result starts with the survivors, position by position with ids and names unchanged, and continues with exactly the created zones |
| ZoneDiff.ReconcileFromEmpty | BilleSpace.Domain/CQRS/ManageOfficeCommand.cs:129-144 | for a new office, the zones are all the requested zones, in request order, under their keys |
| ZoneDiff.ReconcileStable | BilleSpace.Domain/CQRS/ManageOfficeCommand.cs:107-144 | repeating an edit changes no zone id or name |
| ZoneDiff.ReconciledCapacity | BilleSpace.Domain/CQRS/ManageOfficeCommand.cs:119-124 | with distinct requested names, every zone after the diff has the capacity requested for its name |
| ZoneDiff.ReconcileIdempotent | BilleSpace.Domain/CQRS/ManageOfficeCommand.cs:107-144 | with distinct requested names, repeating an edit leaves the zones exactly as they are |
| ZoneDiff.SurvivingAll | BilleSpace.Domain/CQRS/ManageOfficeCommand.cs:110-116 | when every stored name is requested, nothing is removed |
| ZoneDiff.CreatedNone | BilleSpace.Domain/CQRS/ManageOfficeCommand.cs:135-137 | when every requested name is stored, nothing is created |
| ZoneDiff.SurvivingKeys | BilleSpace.Domain/CQRS/ManageOfficeCommand.cs:110-116 | removing zones keeps the remaining keys distinct |
| ZoneDiff.NewZoneReconciled | BilleSpace.Domain/CQRS/ManageOfficeCommand.cs:135-144 | a requested zone with a name no stored zone has ends up in the office, under its requested id or generated key |
| ZoneDiff.CreatedKeysIn | BilleSpace.Domain/CQRS/ManageOfficeCommand.cs:142-144 | each created zone carries its generated key or its requested id |
| ZoneDiff.CreatedKeys | BilleSpace.Domain/CQRS/ManageOfficeCommand.cs:142-144 | with distinct fresh generated keys, and requested ids each taken once from the table, no two created zones share a key |
| ZoneDiff.ReconciledKeys | BilleSpace.Domain/CQRS/ManageOfficeCommand.cs:107-144 | with fresh generated keys, and requested ids taken once from the table but not from the office, the diffed zones have distinct keys; each is a key the office had, a requested id, or a key no zone of the table uses |
| ZoneDiff.KeyedIdsInTable | BilleSpace.Domain/CQRS/ManageOfficeCommand.cs:142-144 | requested ids taken from the table are keys of the table |
| ZoneDiff.UnkeyedFromTable | BilleSpace.Domain/CQRS/ManageOfficeCommand.cs:142-144 | zones to create that all come without an id carry no requested id to account for |
| ZoneDiff.RemoveObsolete | BilleSpace.Domain/CQRS/ManageOfficeCommand.cs:115-116 | the removal loop leaves exactly `Surviving`: the stored zones with a requested name, in stored order (`SurvivingInOrder`, `SurvivingOne`) |
| ZoneDiff.CopyCapacities | BilleSpace.Domain/CQRS/ManageOfficeCommand.cs:119-124 | the update loop gives each surviving zone the first requested capacity for its name and changes nothing else |
| ZoneDiff.AppendCreated | BilleSpace.Domain/CQRS/ManageOfficeCommand.cs:135-144 | appends exactly `Created`: the requested zones with an unstored name, in request order (`CreatedInOrder`, `CreatedOne`) |
| ZoneDiff.ReconcileZones | BilleSpace.Domain/CQRS/ManageOfficeCommand.cs:107-144 | the step-by-step edit of one zone list equals the diff, and leaves exactly the requested names |
| Store.OfficeZoneKeysDistinct | BilleSpace.Domain/CQRS/ManageOfficeCommand.cs:60-63 | with unique zone keys in the tables, the zones of any one office have distinct keys |
| Store.OwnZonesInTables | BilleSpace.Domain/CQRS/ManageOfficeCommand.cs:60-63 | every key of an office's zones is a key of its zone table |
| Store.WithoutKeysMembers | BilleSpace.Domain/CQRS/ManageOfficeCommand.cs:140-144 | an office that loses the zones with given keys keeps exactly its other zones |
| Store.WithoutKeysDistinct | BilleSpace.Domain/CQRS/ManageOfficeCommand.cs:140-144 | losing zones keeps the remaining keys distinct |
| Store.WithoutNoKeys | BilleSpace.Domain/CQRS/ManageOfficeCommand.cs:140-144 | losing no key leaves the zones as they were |
| Store.ReleasedTables | BilleSpace.Domain/CQRS/ManageOfficeCommand.cs:205-208 | when zones leave their offices, the zone tables lose exactly those zones and keep their order |
| Store.ReleasedNothing | BilleSpace.Domain/CQRS/ManageOfficeCommand.cs:205-208 | when no zone leaves, the offices table is unchanged |
| Store.ZoneKeysAfterMove | BilleSpace.Domain/CQRS/ManageOfficeCommand.cs:140-214 | rewriting one office while zones move into it from other offices keeps zone keys unique, when its zones have distinct keys, each its own, a moved one, or one no office uses |
| Store.ZoneKeysAfterReplace | BilleSpace.Domain/CQRS/ManageOfficeCommand.cs:205-214 | rewriting one office keeps zone keys unique when its new zones use its own keys or keys no office uses |
| Store.ZoneKeysAfterAppend | BilleSpace.Domain/CQRS/ManageOfficeCommand.cs:194-214 | adding an office keeps zone keys unique when its zones use distinct keys no office uses |
| Store.ZoneKeysAfterRemoval | BilleSpace.Domain/CQRS/DeleteOfficeCommand.cs:53-54 | removing an office keeps zone keys unique |
| Store.OfficeZoneKeyShared | BilleSpace.Domain/CQRS/ManageOfficeCommand.cs:205-214 | office zones of two different offices with the same key break the key of the office zones table |
| Store.InvariantAfterUpdate | BilleSpace.Domain/CQRS/ManageOfficeCommand.cs:186-214 | overwriting an office under its own key while zones leave other offices, with unique zone keys, keeps office keys distinct and every office's city present |
| Store.InvariantAfterAppend | BilleSpace.Domain/CQRS/ManageOfficeCommand.cs:194-214 | adding an office with a fresh key, a stored city and unique zone keys keeps the invariant |
| Store.InvariantAfterReservationUpdate | BilleSpace.Domain/CQRS/ManageReservationCommand.cs:130-142 | overwriting a reservation under its own key keeps reservation keys distinct |
| Store.InvariantAfterReservationAppend | BilleSpace.Domain/CQRS/ManageReservationCommand.cs:108-111 | adding a reservation with a fresh key keeps reservation keys distinct |
| Store.InvariantAfterOfficeRemoval | BilleSpace.Domain/CQRS/DeleteOfficeCommand.cs:53-54 | removing an office keeps the keys and foreign keys |
| Store.InvariantAfterReservationRemoval | BilleSpace.Domain/CQRS/DeleteReservationCommand.cs:47-48 | removing a reservation keeps the keys |
| Store.RemovedExactlyOne | BilleSpace.Domain/CQRS/DeleteReservationCommand.cs:37-48 | with distinct keys, removing the row found by key leaves exactly the rows with other keys |
| ManageOffice.EditIndex | BilleSpace.Domain/CQRS/ManageOfficeCommand.cs:60-63 | in edit mode, the office loaded has the requested id |
| ManageOffice.Violations | BilleSpace.Domain/CQRS/ManageOfficeCommand.cs:74-97 | at most one error per check, four checks in all; which errors occur, and in what order, is stated by `NoViolationsIff`, `ViolationsMeaning` and `ViolationsOrdered` |
| ManageOffice.NoViolationsIff | BilleSpace.Domain/CQRS/ManageOfficeCommand.cs:74-104 | validation passes exactly when the requested office zone names are pairwise distinct and non-empty, the address is not taken in that city, and the city exists |
| ManageOffice.DuplicateNamesIff | BilleSpace.Domain/CQRS/ManageOfficeCommand.cs:77-80 | the count check fires exactly when two requested office zones share a name |
| ManageOffice.ViolationsMeaning | BilleSpace.Domain/CQRS/ManageOfficeCommand.cs:76-97 | each error is reported exactly when its check fails: duplicate names, empty name, address taken in that city, unknown city |
| ManageOffice.ViolationsOrdered | BilleSpace.Domain/CQRS/ManageOfficeCommand.cs:74-97 | the errors come in the order of the checks |
| ManageOffice.AddressTakenMeaning | BilleSpace.Domain/CQRS/ManageOfficeCommand.cs:49-51 | the address is taken exactly when the first office with it is not the one edited and lies in the requested city |
| ManageOffice.Apply | BilleSpace.Domain/CQRS/ManageOfficeCommand.cs:106-191 | the written office keeps its key, takes the resolved city and the request's address, post code, map URL and author, and its zone names are exactly the requested ones |
| ManageOffice.Outcome | BilleSpace.Domain/CQRS/ManageOfficeCommand.cs:39-219 | a returned result's code matches its kind; any rejection, the exception from `AddAsync` included, leaves the offices as they were without payload; success leaves the zone keys unique, returns a payload, and adds one office in create mode and none in edit mode; an edit always returns a result |
| ManageOffice.EditSavedTable | BilleSpace.Domain/CQRS/ManageOfficeCommand.cs:107-208 | an accepted edit writes the edited office rewritten, and takes the zones whose keys its new zones carry out of the other offices |
| ManageOffice.ForbiddenIffNotAuthor | BilleSpace.Domain/CQRS/ManageOfficeCommand.cs:65-70 | a Forbidden result comes back exactly when an edit's caller is not the stored author; it has code 403 and one error, comes before validation and changes nothing |
| ManageOffice.RejectionChangesNothing | BilleSpace.Domain/CQRS/ManageOfficeCommand.cs:64-214 | success happens exactly when the request passes the author gate and validation, `AddAsync` does not throw, the store does not throw, every new zone saved as an update finds its row, and the zone keys stay unique; `AddAsync` throws exactly for an accepted create with two new zones of one kind under one key; any rejection leaves the offices unchanged; validation errors come back as one BadRequest; any other failure gives the save message |
| ManageOffice.GeneratedKeysSave | BilleSpace.Domain/CQRS/ManageOfficeCommand.cs:140-214 | when every new zone comes without an id, an accepted request that the store does not reject succeeds; so a freshly created office can be edited at once |
| ManageOffice.CreateKeysUnique | BilleSpace.Domain/CQRS/ManageOfficeCommand.cs:194-214 | a created office whose new zones all come without an id is taken by the database |
| ManageOffice.KeyedEditSaves | BilleSpace.Domain/CQRS/ManageOfficeCommand.cs:140-214 | an accepted edit saves when each new zone carrying an id carries the key of another office's zone, no two the same, and the store does not otherwise throw |
| ManageOffice.RequestedKeyClashFails | BilleSpace.Domain/CQRS/ManageOfficeCommand.cs:194-214 | a created office is inserted with all its zones, so a new office zone whose requested id is a stored office zone's key makes the save fail, unless `AddAsync` already threw; nothing changes |
| ManageOffice.RepeatedKeyThrows | BilleSpace.Domain/CQRS/ManageOfficeCommand.cs:140-198 | an accepted create whose office zones repeat a non-empty id makes `AddAsync` throw, outside the save's `try`; no result comes back and nothing changes |
| ManageOffice.AcceptedCreateDoesNotThrow | BilleSpace.Domain/CQRS/ManageOfficeCommand.cs:194-214 | a create the database takes has distinct keys on its new zones of each kind, so `AddAsync` did not throw |
| ManageOffice.CreatedZones | BilleSpace.Domain/CQRS/ManageOfficeCommand.cs:126-183 | a created office holds exactly the requested office zones and parking zones, in order, each under its key |
| ManageOffice.KeyedZoneMoves | BilleSpace.Domain/CQRS/ManageOfficeCommand.cs:140-208 | in an edit, a new office zone carrying a key is saved as an update of that row: on success the zone, with the requested name and desks, is in the edited office and in no other |
| ManageOffice.UnknownKeyFails | BilleSpace.Domain/CQRS/ManageOfficeCommand.cs:140-214 | in an edit, a new office zone carrying a key no office zone has updates no row: the save fails and nothing changes |
| ManageOffice.OwnKeyReuseFails | BilleSpace.Domain/CQRS/ManageOfficeCommand.cs:116-214 | in an edit, a new office zone carrying the key of a zone the office keeps makes the save fail, and nothing changes |
| ManageOffice.EditOthersReleased | BilleSpace.Domain/CQRS/ManageOfficeCommand.cs:140-208 | the table an accepted edit writes takes from every other office exactly the zones whose keys the new zones carry, and nothing else; with no such key the other offices stay as they were |
| ManageOffice.EditMovesOnlyKeyedZones | BilleSpace.Domain/CQRS/ManageOfficeCommand.cs:140-214 | after a successful edit, every other office has lost exactly the zones whose keys the edit's new zones carry, and is otherwise unchanged; with no such key, no other office changes |
| ManageOffice.EditReconcilesOffice | BilleSpace.Domain/CQRS/ManageOfficeCommand.cs:107-183 | a successful edit rewrites the edited office; its zones are the diff of the stored zones, with exactly the requested names; zones kept by name keep their id and take the requested capacity |
| ManageOffice.CreateAddsOneOffice | BilleSpace.Domain/CQRS/ManageOfficeCommand.cs:127-219 | a successful create appends one office under the new key, with the requested zones in request order, each under its requested id or its generated key; the payload returns those zones with those keys |
| ManageOffice.SuccessOverwritesFields | BilleSpace.Domain/CQRS/ManageOfficeCommand.cs:186-219 | on success, the stored office and the payload carry the resolved city and the request's address, post code, map URL and author |
| ManageOffice.CollectErrors | BilleSpace.Domain/CQRS/ManageOfficeCommand.cs:73-97 | the validation block yields exactly the messages of the failed checks, in order |
| ManageOffice.CheckAddress | BilleSpace.Domain/CQRS/ManageOfficeCommand.cs:49-51 | looking up the office at the address and comparing it with the office being edited or created is the address-taken test |
| ManageOffice.ReconcileOffice | BilleSpace.Domain/CQRS/ManageOfficeCommand.cs:106-191 | the two zone diffs and the field overwrites together give `Apply` |
| ManageOffice.Handle | BilleSpace.Domain/CQRS/ManageOfficeCommand.cs:39-220 | the response (a result, or the exception from `AddAsync`) and the offices table are those of `Outcome`; cities and reservations are untouched; the store invariant is kept |
| ManageOffice.Save | BilleSpace.Domain/CQRS/ManageOfficeCommand.cs:106-219 | for an accepted request, the response and the offices table are those of `Outcome`; the store invariant is kept |
| ManageOffice.Commit | BilleSpace.Domain/CQRS/ManageOfficeCommand.cs:194-219 | for an accepted request whose new office tracked without a clash, the response and the offices table are those of `Outcome`; the store invariant is kept |
| ManageReservation.ResolveOffice | BilleSpace.Domain/CQRS/ManageReservationCommand.cs:207-213 | finds a stored office with the id, and none exactly when no office has it |
| ManageReservation.OfficeZoneResolves | BilleSpace.Domain/CQRS/ManageReservationCommand.cs:215-219 | an office zone id resolves exactly when some office, not necessarily the requested one, has a zone with that id |
| ManageReservation.ParkingZoneResolves | BilleSpace.Domain/CQRS/ManageReservationCommand.cs:221-225 | a parking zone id resolves exactly when some office has a parking zone with that id |
| ManageReservation.MissingReferencesMeaning | BilleSpace.Domain/CQRS/ManageReservationCommand.cs:45-66 | each reference error is reported exactly when that reference does not resolve; the parking zone is checked only when one is given; the order is office, office zone, parking zone |
| ManageReservation.Conflicts | BilleSpace.Domain/CQRS/ManageReservationCommand.cs:94-101 | an equal desk label is always a conflict; a different desk on a different day never is |
| ManageReservation.NewReservation | BilleSpace.Domain/CQRS/ManageReservationCommand.cs:76-92 | the new reservation has the new key and every field of the request, the parking zone id included |
| ManageReservation.Overwrite | BilleSpace.Domain/CQRS/ManageReservationCommand.cs:130-137 | day, office, office zone and user come from the request; the parking zone id becomes the requested office zone id; key, desk and parking space are kept |
| ManageReservation.Loaded | BilleSpace.Domain/CQRS/ManageReservationCommand.cs:207-213 | the office as loaded keeps its scalar fields, and its zone lists hold only the looked-up office zone and parking zone, when they belong to it |
| ManageReservation.ToReservationModel | BilleSpace.Domain/CQRS/ManageReservationCommand.cs:154-202 | the payload carries the reservation's key, day, desk and space, the office with only its loaded zones, the office zone under the reservation's zone id, and a parking zone exactly when the parking zone id is set |
| ManageReservation.Outcome | BilleSpace.Domain/CQRS/ManageReservationCommand.cs:40-205 | a returned result is Ok or BadRequest with a matching code; a BadRequest changes nothing; create either changes nothing or appends the new reservation; update changes no reservation with another id |
| ManageReservation.UpdateOutcome | BilleSpace.Domain/CQRS/ManageReservationCommand.cs:121-204 | an unknown id or a failed save is a BadRequest that changes nothing; otherwise the tracked row is written exactly when its parking zone id names a parking zone; no row with another id changes; Ok only with a parking zone, and the null dereference only without one |
| ManageReservation.CreateOutcome | BilleSpace.Domain/CQRS/ManageReservationCommand.cs:74-120 | create succeeds exactly when the save succeeds and no stored reservation conflicts; success appends the new reservation, anything else changes nothing |
| ManageReservation.RejectionChangesNothing | BilleSpace.Domain/CQRS/ManageReservationCommand.cs:54-150 | a returned result is Ok or BadRequest; a BadRequest leaves reservations unchanged with no payload; unresolved references are reported before anything else; only a saved update can fail without a result |
| ManageReservation.ConflictBlocksCreate | BilleSpace.Domain/CQRS/ManageReservationCommand.cs:94-106 | create is refused with "This seat is already reserved." whenever any stored reservation conflicts with the new one, and changes nothing |
| ManageReservation.DeskLabelBlocksCreate | BilleSpace.Domain/CQRS/ManageReservationCommand.cs:94-106 | in particular, a stored desk label refuses the create on any day, in any office |
| ManageReservation.CreateIff | BilleSpace.Domain/CQRS/ManageReservationCommand.cs:74-204 | create succeeds exactly when the save succeeds and no stored reservation has the desk label or the same day, office, zone, parking zone and space; it then appends one reservation with the request's fields and the new key, and returns its key, day, office, zone, desk, parking zone and space |
| ManageReservation.UpdateOfMissingReservation | BilleSpace.Domain/CQRS/ManageReservationCommand.cs:123-128 | updating an unknown id is a BadRequest naming it and changes nothing |
| ManageReservation.UpdateRewritesOne | BilleSpace.Domain/CQRS/ManageReservationCommand.cs:121-204 | an update with a parking zone saves as parking zone id the navigation's key or the office zone id, as the change tracker settles it; it succeeds exactly when that id names a parking zone, so always when the navigation wins, and is otherwise refused with "Can't edit reservation." and no change; success changes only that reservation: day, office, zone and user from the request, key, desk and space kept; the payload returns them with the requested parking zone |
| ManageReservation.UpdateWithoutParkingZoneFails | BilleSpace.Domain/CQRS/ManageReservationCommand.cs:130-199 | an update without a parking zone writes the office zone id as its parking zone id; when no parking zone has that key the database refuses it, giving "Can't edit reservation." and no change; otherwise it is saved and the handler fails on a null dereference instead of returning a result |
| ManageReservation.DesksStayDistinct | BilleSpace.Domain/CQRS/ManageReservationCommand.cs:74-152 | if no two stored reservations share a desk label, that stays true after either mode |
| ManageReservation.UpdateSkipsConflictCheck | BilleSpace.Domain/CQRS/ManageReservationCommand.cs:121-152 | an update can succeed and leave two stored reservations that the conflict query flags |
| ManageReservation.CollectErrors | BilleSpace.Domain/CQRS/ManageReservationCommand.cs:45-71 | the reference checks yield exactly the messages of the unresolved references, in order |
| ManageReservation.Handle | BilleSpace.Domain/CQRS/ManageReservationCommand.cs:40-205 | the response (a result, or the null dereference) and the reservations table are those of `Outcome`; cities and offices are untouched; reservation keys stay distinct |
| ManageReservation.Create | BilleSpace.Domain/CQRS/ManageReservationCommand.cs:74-120 | create mode's result and table are those of `CreateOutcome` |
| ManageReservation.Update | BilleSpace.Domain/CQRS/ManageReservationCommand.cs:121-152 | update mode's response and table are those of `UpdateOutcome`, foreign-key refusal included |
| DeleteOffice.Outcome | BilleSpace.Domain/CQRS/DeleteOfficeCommand.cs:37-71 | NotFound exactly when no office has the id; success removes one row and needs the save to succeed; anything else changes nothing |
| DeleteOffice.RejectionsIff | BilleSpace.Domain/CQRS/DeleteOfficeCommand.cs:39-67 | NotFound exactly when no office has the id; BadRequest with an empty error list exactly when the caller is not the author; a rejection changes nothing |
| DeleteOffice.AuthorDeletesExactlyOne | BilleSpace.Domain/CQRS/DeleteOfficeCommand.cs:49-70 | success happens exactly when the author asks and the save succeeds; exactly the office with that id is removed |
| DeleteOffice.Handle | BilleSpace.Domain/CQRS/DeleteOfficeCommand.cs:37-71 | the result and the offices table are those of `Outcome`; the store invariant is kept |
| DeleteReservation.Outcome | BilleSpace.Domain/CQRS/DeleteReservationCommand.cs:35-59 | success happens exactly when a reservation has the id and the save succeeds, and removes one row; anything else changes nothing |
| DeleteReservation.DeletesExactlyOne | BilleSpace.Domain/CQRS/DeleteReservationCommand.cs:35-58 | NotFound exactly when no reservation has the id; otherwise success unless the save fails; success removes exactly the reservation with that id; rejections change nothing |
| DeleteReservation.Handle | BilleSpace.Domain/CQRS/DeleteReservationCommand.cs:35-59 | the result and the reservations table are those of `Outcome`; the store invariant is kept |

## Left out

- Asynchrony, cancellation tokens, logging and dependency injection are not modelled.
- Entity Framework change tracking is modelled only for which new zones are inserted and which are saved as updates. Each handler writes its table as one new value.
- `SaveChanges` failures other than a repeated zone key, an update that finds no row, or a reservation whose parking zone id names no parking zone are the parameter `saveFails`.
- Foreign keys are enforced only for a reservation update's parking zone id, the one foreign key a handler can break. Relationship fix-up is modelled only as the flag `navigationWins`.
- ManageReservation.UpdateOutcome: when the change tracker keeps the office zone id and that id is also some parking zone's key, the payload shows the looked-up parking zone. The tracker might instead have cleared the navigation, which would end in a null dereference.
- Cascade deletes are not modelled. Deleting an office does not touch reservations that refer to it.
- The read queries, registration, login and authorization policies are not part of this model.
- The controllers that map a `Result` to an HTTP response are not part of this model.
- Concurrency is not modelled. Two requests racing past the conflict query are outside this model.
- Entities.CityIndexByName: compares names exactly. The lookup runs in SQL Server, whose default collation ignores case and trailing spaces; the same holds for the address lookup `Entities.OfficeIndexByAddress`. The city-name comparison of the address check runs in C# and is exact, as modelled.
- ManageReservation.Conflicts: compares desk labels, parking spaces and ids exactly, although the query runs in SQL Server under a collation that ignores case and trailing spaces. It compares days only, as the date comparison in the query does; time zones and `DateTime` kinds are not modelled.
- ManageOffice.Message: omits the "[<UTC time>] " prefix the handler puts before each validation message. The clock is outside the model. The same applies to ManageOffice.NotAuthorMessage and ManageReservation.Message.
- ManageOffice.HasEmptyName: a null zone name and an empty one are both the empty string. So a null name and an empty name count as a duplicate pair for `HasDuplicateNames`, where `DistinctBy` tells them apart; both requests are rejected anyway by the empty-name check.
- ManageOffice.Handle: validates names of office zones only, as the code does. Parking zone names are never checked for duplicates or emptiness.
- ManageOffice.HandleRequires: requires parking zones to be present when the request is accepted, because the code dereferences them without a check.
  - It also requires the edited office to exist, for the same reason.
  - It also requires the generated zone keys to be non-empty, pairwise distinct and unused in their table, as database-generated keys are.
  - The request's `OfficeZones` is a plain sequence, so a missing list cannot be expressed. The code reads its count in the first validation check and throws there when it is missing.
- ManageOffice.Outcome: a new zone whose requested id is the key of a zone the same edit deletes is saved under that key. Entity Framework may instead refuse to track the two entities with one key; that is not modelled.
- ManageReservation.Loaded: assumes the looked-up office zone and parking zone are the only zones the request tracks, so relationship fix-up puts just those into the loaded office's collections.
- ManageReservation.Response: stands for the exception that the null dereference raises. What the web host then sends back is not modelled. The same holds for `IdentityConflict` of ManageOffice.Response, the exception `AddAsync` throws.
- DeleteOffice.DeleteOfficeCommand: leaves out the command's `AuthorEmail` property, which the handler never reads.
