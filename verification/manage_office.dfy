/** `ManageOfficeCommandHandler.Handle`: create an office (empty request id)
    or edit one, guarded by an ownership check, then a validation that
    collects every error, then the zone diff and the overwrite of the
    office's own fields. */
module ManageOffice {
  import opened Wrappers
  import opened Results
  import opened Entities
  import opened OfficeModels
  import opened ZoneDiff
  import opened Store

  datatype ManageOfficeCommand = ManageOfficeCommand(
    id: Guid,
    city: string,
    address: string,
    postCode: string,
    officeZones: seq<ZoneModel>,
    parkingZones: Option<seq<ZoneModel>>,
    officeMap: Option<string>,
    authorEmail: string)

  /** What the caller gets: the handler's `Result`, or the exception that
      `AddAsync` throws, before the save's `try`, when the new office holds
      two zones of one kind under one key. */
  datatype Response =
    | Returned(result: Result<OfficeModel>)
    | IdentityConflict
  {
    predicate Ok() {
      Returned? && result.codeResult == ResultCode.Ok
    }
  }

  /** What the validation step can find wrong, in the order it checks. */
  datatype Violation =
    | DuplicateZoneNames
    | EmptyZoneName
    | AddressTaken(address: string)
    | CityNotFound(city: string)

  function Message(v: Violation): string {
    match v
    case DuplicateZoneNames => "Office Zones must have different name."
    case EmptyZoneName => "OffizeZones can not be null."
    case AddressTaken(address) => "Address " + address + " already taken."
    case CityNotFound(city) => "Can not find city " + city + "."
  }

  function Rank(v: Violation): nat {
    match v
    case DuplicateZoneNames => 0
    case EmptyZoneName => 1
    case AddressTaken(_) => 2
    case CityNotFound(_) => 3
  }

  function NotAuthorMessage(email: string): string {
    "User with " + email + " Identifier can not edit this office!"
  }

  predicate IsAdding(request: ManageOfficeCommand) {
    request.id == EmptyGuid
  }

  /** The duplicate check: the number of requested office zones differs from
      the number of distinct names among them. */
  predicate HasDuplicateNames(zones: seq<ZoneModel>) {
    |zones| != |RequestedNames(zones)|
  }

  /** The empty-name check: some requested office zone has a null or empty name. */
  predicate HasEmptyName(zones: seq<ZoneModel>) {
    exists m | m in zones :: m.name == ""
  }

  /** Edit mode dereferences the looked-up office without a null check. */
  predicate EditTargetExists(offices: seq<Office>, request: ManageOfficeCommand) {
    !IsAdding(request) ==> OfficeIndexById(offices, request.id).Some?
  }

  function EditIndex(offices: seq<Office>, request: ManageOfficeCommand): (i: nat)
    requires !IsAdding(request) && EditTargetExists(offices, request)
    ensures i < |offices| && offices[i].id == request.id
  {
    OfficeIndexById(offices, request.id).value
  }

  /** The ownership gate: an edit by anyone but the office's author. */
  predicate NotAuthor(offices: seq<Office>, request: ManageOfficeCommand)
    requires EditTargetExists(offices, request)
  {
    !IsAdding(request) && offices[EditIndex(offices, request)].authorEmail != request.authorEmail
  }

  /** The first office with the requested address is another office, and lies in the requested city. */
  predicate AddressIsTaken(cities: seq<City>, offices: seq<Office>, request: ManageOfficeCommand)
    requires CitiesResolve(cities, offices)
  {
    match OfficeIndexByAddress(offices, request.address)
    case None => false
    case Some(i) =>
      (IsAdding(request) || offices[i].id != request.id) && CityOf(cities, offices[i]).name == request.city
  }

  /** Every validation failure, in the order the handler checks them. */
  function Violations(cities: seq<City>, offices: seq<Office>, request: ManageOfficeCommand): (vs: seq<Violation>)
    requires CitiesResolve(cities, offices)
    ensures |vs| <= 4
  {
    (if HasDuplicateNames(request.officeZones) then [DuplicateZoneNames] else [])
    + (if HasEmptyName(request.officeZones) then [EmptyZoneName] else [])
    + (if AddressIsTaken(cities, offices, request) then [AddressTaken(request.address)] else [])
    + (if CityIndexByName(cities, request.city).None? then [CityNotFound(request.city)] else [])
  }

  /** The request gets past the ownership gate and the validation. */
  predicate Accepted(cities: seq<City>, offices: seq<Office>, request: ManageOfficeCommand)
    requires CitiesResolve(cities, offices) && EditTargetExists(offices, request)
  {
    !NotAuthor(offices, request) && Violations(cities, offices, request) == []
  }

  /** The keys the database generates for the requested office zones and
      parking zones, position by position; a requested zone keeps its own id
      unless that is `Guid.Empty`. */
  datatype ZoneKeys = ZoneKeys(officeZones: seq<Guid>, parkingZones: seq<Guid>)

  /** What the handler relies on without checking it: the edited office
      exists; `request.ParkingZones` is present once the zone diff runs; a
      created office and every new zone get fresh keys. */
  predicate HandleRequires(cities: seq<City>, offices: seq<Office>, request: ManageOfficeCommand, newOfficeId: Guid, keys: ZoneKeys) {
    && CitiesResolve(cities, offices)
    && EditTargetExists(offices, request)
    && (Accepted(cities, offices, request) ==> request.parkingZones.Some?)
    && (IsAdding(request) ==> newOfficeId != EmptyGuid && OfficeIndexById(offices, newOfficeId).None?)
    && FreshKeys(keys.officeZones, AllOfficeZones(offices), request.officeZones)
    && (request.parkingZones.Some? ==> FreshKeys(keys.parkingZones, AllParkingZones(offices), request.parkingZones.value))
  }

  /** `new Office()` with the key the database generates for it. */
  function NewOffice(id: Guid): Office {
    Office(id, "", "", None, EmptyGuid, "", [], [])
  }

  /** The office the handler works on. */
  function Target(offices: seq<Office>, request: ManageOfficeCommand, newOfficeId: Guid): Office
    requires EditTargetExists(offices, request)
  {
    if IsAdding(request) then NewOffice(newOfficeId) else offices[EditIndex(offices, request)]
  }

  /** The office after the zone diffs and the overwrite of its scalar fields. */
  function Apply(office: Office, city: City, request: ManageOfficeCommand, keys: ZoneKeys): (r: Office)
    requires request.parkingZones.Some?
    requires |keys.officeZones| == |request.officeZones| && |keys.parkingZones| == |request.parkingZones.value|
    ensures r.id == office.id && r.cityId == city.id
    ensures r.address == request.address && r.postCode == request.postCode
    ensures r.officeMapUrl == request.officeMap && r.authorEmail == request.authorEmail
    ensures Names(r.officeZones) == RequestedNames(request.officeZones)
    ensures Names(r.parkingZones) == RequestedNames(request.parkingZones.value)
  {
    Office(
      office.id,
      request.address,
      request.postCode,
      request.officeMap,
      city.id,
      request.authorEmail,
      Reconciled(office.officeZones, request.officeZones, keys.officeZones),
      Reconciled(office.parkingZones, request.parkingZones.value, keys.parkingZones))
  }

  /** The requested city, once validation has found it. */
  function RequestedCity(cities: seq<City>, request: ManageOfficeCommand): City
    requires CityIndexByName(cities, request.city).Some?
  {
    cities[CityIndexByName(cities, request.city).value]
  }

  /** The office the save writes. */
  function SavedOffice(cities: seq<City>, offices: seq<Office>, request: ManageOfficeCommand, newOfficeId: Guid, keys: ZoneKeys): Office
    requires HandleRequires(cities, offices, request, newOfficeId, keys) && Accepted(cities, offices, request)
  {
    Apply(Target(offices, request, newOfficeId), RequestedCity(cities, request), request, keys)
  }

  /** The `Offices` table the save writes: the new office appended, or the
      edited one replaced. A created office is inserted with all its zones.
      An edit inserts only the new zones left at `Guid.Empty`: change tracking
      finds a new zone that carries a requested id with its key set, and saves
      it as an update of the row with that key, which thereby leaves its
      previous office. */
  function SavedTable(cities: seq<City>, offices: seq<Office>, request: ManageOfficeCommand, newOfficeId: Guid, keys: ZoneKeys): seq<Office>
    requires HandleRequires(cities, offices, request, newOfficeId, keys) && Accepted(cities, offices, request)
  {
    var office := SavedOffice(cities, offices, request, newOfficeId, keys);
    if IsAdding(request) then offices + [office]
    else
      var i := EditIndex(offices, request);
      var moved := Released(offices, KeyedIds(offices[i].officeZones, request.officeZones),
                                     KeyedIds(offices[i].parkingZones, request.parkingZones.value));
      moved[i := office]
  }

  /** The database takes the save: in an edit, every new zone saved as an
      update finds its row in its table, and the written zone tables hold
      every key once. */
  predicate StoreAccepts(cities: seq<City>, offices: seq<Office>, request: ManageOfficeCommand, newOfficeId: Guid, keys: ZoneKeys)
    requires HandleRequires(cities, offices, request, newOfficeId, keys) && Accepted(cities, offices, request)
  {
    && (!IsAdding(request) ==>
          var before := offices[EditIndex(offices, request)];
          && KeyedIds(before.officeZones, request.officeZones) <= ZoneIds(AllOfficeZones(offices))
          && KeyedIds(before.parkingZones, request.parkingZones.value) <= ZoneIds(AllParkingZones(offices)))
    && ZoneKeysUnique(SavedTable(cities, offices, request, newOfficeId, keys))
  }

  /** `AddAsync` starts tracking a new office together with all its zones.
      No stored zone is tracked in create mode, so it throws exactly when two
      new zones of one kind carry the same key. */
  predicate AddThrows(cities: seq<City>, offices: seq<Office>, request: ManageOfficeCommand, newOfficeId: Guid, keys: ZoneKeys)
    requires HandleRequires(cities, offices, request, newOfficeId, keys) && Accepted(cities, offices, request)
  {
    && IsAdding(request)
    && (|| !DistinctZoneIds(NewZones(request.officeZones, keys.officeZones))
        || !DistinctZoneIds(NewZones(request.parkingZones.value, keys.parkingZones)))
  }

  /** The handler's response and the `Offices` table afterwards. The save
      fails when the store throws (`saveFails`) or does not take the save. */
  function Outcome(cities: seq<City>, offices: seq<Office>, request: ManageOfficeCommand, newOfficeId: Guid, keys: ZoneKeys, saveFails: bool)
    : (o: (Response, seq<Office>))
    requires HandleRequires(cities, offices, request, newOfficeId, keys)
    ensures o.0.Returned? ==> o.0.result.Consistent()
    ensures !o.0.Ok() ==> o.1 == offices && (o.0.Returned? ==> o.0.result.data == None)
    ensures o.0.Ok() ==> ZoneKeysUnique(o.1) && o.0.result.data.Some?
    ensures o.0.Ok() ==> |o.1| == if IsAdding(request) then |offices| + 1 else |offices|
    ensures !IsAdding(request) ==> o.0.Returned?
  {
    if NotAuthor(offices, request) then
      (Returned(ForbiddenList([NotAuthorMessage(request.authorEmail)])), offices)
    else if Violations(cities, offices, request) != [] then
      (Returned(BadRequestList(ErrorList(Message, Violations(cities, offices, request)))), offices)
    else if AddThrows(cities, offices, request, newOfficeId, keys) then
      (IdentityConflict, offices)
    else if saveFails || !StoreAccepts(cities, offices, request, newOfficeId, keys) then
      (Returned(BadRequestList([SaveFailedMessage])), offices)
    else
      (Returned(OkWith(ToViewModel(SavedOffice(cities, offices, request, newOfficeId, keys), RequestedCity(cities, request)))),
       SavedTable(cities, offices, request, newOfficeId, keys))
  }

  /** Counting distinct names gives at most the number of zones, so the
      count check fires exactly when two requested zones share a name. */
  lemma {:induction false} DuplicateNamesIff(zones: seq<ZoneModel>)
    ensures |RequestedNames(zones)| <= |zones|
    ensures HasDuplicateNames(zones) <==> !DistinctNames(zones)
  {
    if zones != [] {
      var init, last := zones[..|zones| - 1], zones[|zones| - 1];
      DuplicateNamesIff(init);
      RequestedNamesSnoc(init, last);
      assert zones == init + [last];
      if last.name in RequestedNames(init) {
        DuplicateOfLast(init, last);
      } else if DistinctNames(init) {
        DistinctNamesSnoc(init, last);
      } else {
        DuplicateInPrefix(init, last);
      }
    }
  }

  lemma RequestedNamesSnoc(init: seq<ZoneModel>, last: ZoneModel)
    ensures RequestedNames(init + [last]) == RequestedNames(init) + {last.name}
  {
    assert forall m | m in init + [last] :: m in init || m == last;
  }

  lemma DuplicateOfLast(init: seq<ZoneModel>, last: ZoneModel)
    requires last.name in RequestedNames(init)
    ensures !DistinctNames(init + [last])
  {
    var m :| m in init && m.name == last.name;
    var i :| 0 <= i < |init| && init[i] == m;
    assert (init + [last])[i] == m && (init + [last])[|init|] == last;
  }

  lemma DuplicateInPrefix(init: seq<ZoneModel>, last: ZoneModel)
    requires !DistinctNames(init)
    ensures !DistinctNames(init + [last])
  {
    var i, j :| 0 <= i < j < |init| && init[i].name == init[j].name;
    assert (init + [last])[i] == init[i] && (init + [last])[j] == init[j];
  }

  lemma DistinctNamesSnoc(init: seq<ZoneModel>, last: ZoneModel)
    requires DistinctNames(init) && last.name !in RequestedNames(init)
    ensures DistinctNames(init + [last])
  {
    var zones := init + [last];
    forall i, j | 0 <= i < j < |zones| ensures zones[i].name != zones[j].name {
      if j == |init| {
        assert zones[i] == init[i] && init[i] in init;
      } else {
        assert zones[i] == init[i] && zones[j] == init[j];
      }
    }
  }

  /** The validation passes exactly when the requested office zone names are
      pairwise distinct and none is empty, the address is not taken and the
      city exists. */
  lemma NoViolationsIff(cities: seq<City>, offices: seq<Office>, request: ManageOfficeCommand)
    requires CitiesResolve(cities, offices)
    ensures Violations(cities, offices, request) == [] <==>
      && DistinctNames(request.officeZones)
      && (forall m | m in request.officeZones :: m.name != "")
      && !AddressIsTaken(cities, offices, request)
      && (exists c | c in cities :: c.name == request.city)
  {
    DuplicateNamesIff(request.officeZones);
    assert CityIndexByName(cities, request.city).Some? ==> cities[CityIndexByName(cities, request.city).value] in cities;
  }

  /** Each check adds its error exactly when it fails. */
  lemma ViolationsMeaning(cities: seq<City>, offices: seq<Office>, request: ManageOfficeCommand)
    requires CitiesResolve(cities, offices)
    ensures var vs := Violations(cities, offices, request);
      && (DuplicateZoneNames in vs <==> !DistinctNames(request.officeZones))
      && (EmptyZoneName in vs <==> exists m | m in request.officeZones :: m.name == "")
      && (AddressTaken(request.address) in vs <==> AddressIsTaken(cities, offices, request))
      && (CityNotFound(request.city) in vs <==> forall c | c in cities :: c.name != request.city)
  {
    DuplicateNamesIff(request.officeZones);
    assert CityIndexByName(cities, request.city).Some? ==> cities[CityIndexByName(cities, request.city).value] in cities;
  }

  /** The errors come in the order duplicate names, empty name, address
      taken, unknown city. */
  lemma ViolationsOrdered(cities: seq<City>, offices: seq<Office>, request: ManageOfficeCommand)
    requires CitiesResolve(cities, offices)
    ensures var vs := Violations(cities, offices, request);
      forall i, j | 0 <= i < j < |vs| :: Rank(vs[i]) < Rank(vs[j])
  {
    var a := if HasDuplicateNames(request.officeZones) then [DuplicateZoneNames] else [];
    var b := if HasEmptyName(request.officeZones) then [EmptyZoneName] else [];
    var c := if AddressIsTaken(cities, offices, request) then [AddressTaken(request.address)] else [];
    var d := if CityIndexByName(cities, request.city).None? then [CityNotFound(request.city)] else [];
    RanksIncrease(a, b, c, d);
  }

  lemma RanksIncrease(a: seq<Violation>, b: seq<Violation>, c: seq<Violation>, d: seq<Violation>)
    requires |a| <= 1 && |b| <= 1 && |c| <= 1 && |d| <= 1
    requires forall v | v in a :: Rank(v) == 0
    requires forall v | v in b :: Rank(v) == 1
    requires forall v | v in c :: Rank(v) == 2
    requires forall v | v in d :: Rank(v) == 3
    ensures forall i, j | 0 <= i < j < |a + b + c + d| :: Rank((a + b + c + d)[i]) < Rank((a + b + c + d)[j])
  {
    var vs := a + b + c + d;
    forall k | 0 <= k < |vs|
      ensures Rank(vs[k]) == if k < |a| then 0 else if k < |a| + |b| then 1 else if k < |a| + |b| + |c| then 2 else 3
    {
      if k < |a| {
        assert vs[k] == a[k];
      } else if k < |a| + |b| {
        assert vs[k] == b[k - |a|];
      } else if k < |a| + |b| + |c| {
        assert vs[k] == c[k - |a| - |b|];
      } else {
        assert vs[k] == d[k - |a| - |b| - |c|];
      }
    }
  }

  /** An address is reported taken exactly when the first office with that
      address is not the one being edited and lies in the requested city. */
  lemma AddressTakenMeaning(cities: seq<City>, offices: seq<Office>, request: ManageOfficeCommand)
    requires CitiesResolve(cities, offices)
    ensures AddressIsTaken(cities, offices, request) <==>
      exists i | 0 <= i < |offices| ::
        && offices[i].address == request.address
        && (forall k | 0 <= k < i :: offices[k].address != request.address)
        && (IsAdding(request) || offices[i].id != request.id)
        && CityOf(cities, offices[i]).name == request.city
  {
    var r := OfficeIndexByAddress(offices, request.address);
    if r.Some? {
      forall i | 0 <= i < |offices| && offices[i].address == request.address &&
        (forall k | 0 <= k < i :: offices[k].address != request.address)
        ensures i == r.value
      {
        assert !(i < r.value) && !(r.value < i);
      }
    }
  }

  /** An edit by anyone but the author is Forbidden, with exactly one error,
      before any validation, and leaves the store as it was; nothing else is Forbidden. */
  lemma ForbiddenIffNotAuthor(cities: seq<City>, offices: seq<Office>, request: ManageOfficeCommand, newOfficeId: Guid,
                              keys: ZoneKeys, saveFails: bool)
    requires HandleRequires(cities, offices, request, newOfficeId, keys)
    ensures var (response, after) := Outcome(cities, offices, request, newOfficeId, keys, saveFails);
      && (response.Returned? && response.result.codeResult == ResultCode.Forbidden <==>
            !IsAdding(request) && offices[EditIndex(offices, request)].authorEmail != request.authorEmail)
      && (response.Returned? && response.result.codeResult == ResultCode.Forbidden ==>
            && response.result.code == 403
            && response.result.errors == Some([NotAuthorMessage(request.authorEmail)])
            && after == offices)
  {
  }

  /** Any rejection leaves the `Offices` table unchanged; success happens
      exactly when the request passes the gate and validation, tracking the
      new office does not throw, the store does not throw, and the database
      takes the save. */
  lemma RejectionChangesNothing(cities: seq<City>, offices: seq<Office>, request: ManageOfficeCommand, newOfficeId: Guid,
                                keys: ZoneKeys, saveFails: bool)
    requires HandleRequires(cities, offices, request, newOfficeId, keys)
    ensures var (response, after) := Outcome(cities, offices, request, newOfficeId, keys, saveFails);
      && (response.Ok() <==>
            Accepted(cities, offices, request) && !AddThrows(cities, offices, request, newOfficeId, keys) &&
            !saveFails && StoreAccepts(cities, offices, request, newOfficeId, keys))
      && (!response.Ok() ==> after == offices && (response.Returned? ==> response.result.data == None))
      && (response.IdentityConflict? <==>
            Accepted(cities, offices, request) && AddThrows(cities, offices, request, newOfficeId, keys))
      && (!NotAuthor(offices, request) && Violations(cities, offices, request) != [] ==>
            && response.Returned? && response.result.codeResult == ResultCode.BadRequest && response.result.code == 400
            && response.result.errors == Some(ErrorList(Message, Violations(cities, offices, request))))
      && (Accepted(cities, offices, request) && !AddThrows(cities, offices, request, newOfficeId, keys) && !response.Ok() ==>
            response == Returned(BadRequestList([SaveFailedMessage])))
  {
  }

  /** Every requested zone the diff creates comes without an id, as clients
      send new zones; the database then generates all their keys. */
  predicate NewZonesUnkeyed(offices: seq<Office>, request: ManageOfficeCommand, newOfficeId: Guid)
    requires EditTargetExists(offices, request) && request.parkingZones.Some?
  {
    var target := Target(offices, request, newOfficeId);
    && (forall m | m in request.officeZones && m.name !in Names(target.officeZones) :: m.id == EmptyGuid)
    && (forall m | m in request.parkingZones.value && m.name !in Names(target.parkingZones) :: m.id == EmptyGuid)
  }

  /** With generated keys for every new zone, the save never trips over a
      zone key: an accepted request that the store does not reject succeeds,
      so a freshly created office can be edited straight away. */
  lemma GeneratedKeysSave(cities: seq<City>, offices: seq<Office>, request: ManageOfficeCommand, newOfficeId: Guid, keys: ZoneKeys)
    requires HandleRequires(cities, offices, request, newOfficeId, keys)
    requires ZoneKeysUnique(offices)
    requires Accepted(cities, offices, request)
    requires NewZonesUnkeyed(offices, request, newOfficeId)
    ensures Outcome(cities, offices, request, newOfficeId, keys, false).0.Ok()
  {
    if IsAdding(request) {
      CreateKeysUnique(cities, offices, request, newOfficeId, keys);
      AcceptedCreateDoesNotThrow(cities, offices, request, newOfficeId, keys);
    } else {
      var before := offices[EditIndex(offices, request)];
      UnkeyedFromTable(before.officeZones, request.officeZones, AllOfficeZones(offices));
      UnkeyedFromTable(before.parkingZones, request.parkingZones.value, AllParkingZones(offices));
      KeyedEditSaves(cities, offices, request, newOfficeId, keys);
    }
  }

  lemma CreateKeysUnique(cities: seq<City>, offices: seq<Office>, request: ManageOfficeCommand, newOfficeId: Guid, keys: ZoneKeys)
    requires HandleRequires(cities, offices, request, newOfficeId, keys)
    requires ZoneKeysUnique(offices)
    requires IsAdding(request) && Accepted(cities, offices, request)
    requires NewZonesUnkeyed(offices, request, newOfficeId)
    ensures StoreAccepts(cities, offices, request, newOfficeId, keys)
  {
    var o := Apply(NewOffice(newOfficeId), RequestedCity(cities, request), request, keys);
    assert SavedTable(cities, offices, request, newOfficeId, keys) == offices + [o];
    UnkeyedFromTable([], request.officeZones, AllOfficeZones(offices));
    UnkeyedFromTable([], request.parkingZones.value, AllParkingZones(offices));
    ReconciledKeys([], request.officeZones, keys.officeZones, AllOfficeZones(offices));
    ReconciledKeys([], request.parkingZones.value, keys.parkingZones, AllParkingZones(offices));
    ZoneKeysAfterAppend(offices, o);
  }

  /** A create the database takes has distinct keys on the new zones of each
      kind, so tracking the new office did not throw either. */
  lemma AcceptedCreateDoesNotThrow(cities: seq<City>, offices: seq<Office>, request: ManageOfficeCommand, newOfficeId: Guid, keys: ZoneKeys)
    requires HandleRequires(cities, offices, request, newOfficeId, keys)
    requires IsAdding(request) && Accepted(cities, offices, request)
    requires StoreAccepts(cities, offices, request, newOfficeId, keys)
    ensures !AddThrows(cities, offices, request, newOfficeId, keys)
  {
    var o := SavedOffice(cities, offices, request, newOfficeId, keys);
    var saved := SavedTable(cities, offices, request, newOfficeId, keys);
    assert saved == offices + [o] && saved[|offices|] == o;
    OfficeZoneKeysDistinct(saved, |offices|);
    CreatedZones(cities, offices, request, newOfficeId, keys);
  }

  /** A created office holds the requested zones, each under its key. */
  lemma CreatedZones(cities: seq<City>, offices: seq<Office>, request: ManageOfficeCommand, newOfficeId: Guid, keys: ZoneKeys)
    requires HandleRequires(cities, offices, request, newOfficeId, keys)
    requires IsAdding(request) && Accepted(cities, offices, request)
    ensures var o := SavedOffice(cities, offices, request, newOfficeId, keys);
      && o.officeZones == NewZones(request.officeZones, keys.officeZones)
      && o.parkingZones == NewZones(request.parkingZones.value, keys.parkingZones)
  {
    ReconcileFromEmpty(request.officeZones, keys.officeZones);
    ReconcileFromEmpty(request.parkingZones.value, keys.parkingZones);
  }

  /** A create whose office zones repeat a requested id hands the change
      tracker two new zones with one key: `AddAsync` throws, outside the
      save's `try`, and nothing is stored. */
  lemma RepeatedKeyThrows(cities: seq<City>, offices: seq<Office>, request: ManageOfficeCommand, newOfficeId: Guid,
                          keys: ZoneKeys, saveFails: bool, a: nat, b: nat)
    requires HandleRequires(cities, offices, request, newOfficeId, keys)
    requires IsAdding(request) && Accepted(cities, offices, request)
    requires a < b < |request.officeZones| && request.officeZones[a].id == request.officeZones[b].id != EmptyGuid
    ensures Outcome(cities, offices, request, newOfficeId, keys, saveFails) == (IdentityConflict, offices)
  {
    var zones := NewZones(request.officeZones, keys.officeZones);
    assert zones[a].id == zones[b].id;
  }

  /** An edit saves, when the store does not throw, if each new zone that
      carries a requested id carries the key of another office's zone, and no
      two new zones carry the same one: those zones move into the edited
      office. */
  lemma KeyedEditSaves(cities: seq<City>, offices: seq<Office>, request: ManageOfficeCommand, newOfficeId: Guid, keys: ZoneKeys)
    requires HandleRequires(cities, offices, request, newOfficeId, keys)
    requires ZoneKeysUnique(offices)
    requires !IsAdding(request) && Accepted(cities, offices, request)
    requires var before := offices[EditIndex(offices, request)];
      && KeyedFromTable(before.officeZones, request.officeZones, AllOfficeZones(offices))
      && KeyedFromTable(before.parkingZones, request.parkingZones.value, AllParkingZones(offices))
    ensures Outcome(cities, offices, request, newOfficeId, keys, false).0.Ok()
  {
    var i := EditIndex(offices, request);
    var before := offices[i];
    var rz, pz := request.officeZones, request.parkingZones.value;
    var o := Apply(before, RequestedCity(cities, request), request, keys);
    var movedOffice, movedParking := KeyedIds(before.officeZones, rz), KeyedIds(before.parkingZones, pz);
    EditSavedTable(cities, offices, request, newOfficeId, keys);
    OfficeZoneKeysDistinct(offices, i);
    OwnZonesInTables(offices, i);
    ReconciledKeys(before.officeZones, rz, keys.officeZones, AllOfficeZones(offices));
    ReconciledKeys(before.parkingZones, pz, keys.parkingZones, AllParkingZones(offices));
    KeyedIdsInTable(before.officeZones, rz, AllOfficeZones(offices));
    KeyedIdsInTable(before.parkingZones, pz, AllParkingZones(offices));
    ZoneKeysAfterMove(offices, i, o, movedOffice, movedParking);
    assert StoreAccepts(cities, offices, request, newOfficeId, keys);
  }

  /** The table an accepted edit writes, spelled out. */
  lemma EditSavedTable(cities: seq<City>, offices: seq<Office>, request: ManageOfficeCommand, newOfficeId: Guid, keys: ZoneKeys)
    requires HandleRequires(cities, offices, request, newOfficeId, keys)
    requires !IsAdding(request) && Accepted(cities, offices, request)
    ensures var i := EditIndex(offices, request);
      var before := offices[i];
      SavedTable(cities, offices, request, newOfficeId, keys) ==
        Released(offices, KeyedIds(before.officeZones, request.officeZones),
                          KeyedIds(before.parkingZones, request.parkingZones.value))
          [i := Apply(before, RequestedCity(cities, request), request, keys)]
  {
  }

  /** A created office is inserted with all its zones: a new office zone
      whose requested id is the key of a stored office zone makes the save
      fail, unless tracking the office already threw, and nothing changes. */
  lemma RequestedKeyClashFails(cities: seq<City>, offices: seq<Office>, request: ManageOfficeCommand, newOfficeId: Guid,
                               keys: ZoneKeys, saveFails: bool, k: nat, j: nat, z: Zone)
    requires HandleRequires(cities, offices, request, newOfficeId, keys)
    requires IsAdding(request) && Accepted(cities, offices, request)
    requires k < |request.officeZones| && request.officeZones[k].id != EmptyGuid
    requires j < |offices| && z in offices[j].officeZones && z.id == request.officeZones[k].id
    ensures var (response, after) := Outcome(cities, offices, request, newOfficeId, keys, saveFails);
      && after == offices
      && response == if AddThrows(cities, offices, request, newOfficeId, keys) then IdentityConflict
                     else Returned(BadRequestList([SaveFailedMessage]))
  {
    if !AddThrows(cities, offices, request, newOfficeId, keys) {
      var o := SavedOffice(cities, offices, request, newOfficeId, keys);
      CreatedMembers([], request.officeZones, keys.officeZones);
      var c := NewZone(request.officeZones[k], keys.officeZones[k]);
      assert c in Created([], request.officeZones, keys.officeZones);
      assert c in o.officeZones && c.id == z.id;
      var saved := SavedTable(cities, offices, request, newOfficeId, keys);
      assert saved[j] == offices[j] && saved[|offices|] == o;
      OfficeZoneKeyShared(saved, j, |offices|, z, c);
      assert !StoreAccepts(cities, offices, request, newOfficeId, keys);
    }
  }

  /** In an edit, a new office zone that carries the key of a stored office
      zone is saved as an update of that row: on success the zone, under that
      key and with the requested name and desks, belongs to the edited office
      and to no other. */
  lemma KeyedZoneMoves(cities: seq<City>, offices: seq<Office>, request: ManageOfficeCommand, newOfficeId: Guid,
                       keys: ZoneKeys, saveFails: bool, k: nat)
    requires HandleRequires(cities, offices, request, newOfficeId, keys)
    requires !IsAdding(request) && Accepted(cities, offices, request)
    requires k < |request.officeZones| && request.officeZones[k].id != EmptyGuid
    requires request.officeZones[k].name !in Names(offices[EditIndex(offices, request)].officeZones)
    ensures var (response, after) := Outcome(cities, offices, request, newOfficeId, keys, saveFails);
      var m, i := request.officeZones[k], EditIndex(offices, request);
      response.Ok() ==>
      && Zone(m.id, m.name, m.capacity) in after[i].officeZones
      && forall j, z | 0 <= j < |after| && j != i && z in after[j].officeZones :: z.id != m.id
  {
    var i := EditIndex(offices, request);
    var before := offices[i];
    var m := request.officeZones[k];
    var ids := KeyedIds(before.officeZones, request.officeZones);
    var o := Apply(before, RequestedCity(cities, request), request, keys);
    assert m in request.officeZones && m.id in ids;
    NewZoneReconciled(before.officeZones, request.officeZones, keys.officeZones, k);
    assert Zone(m.id, m.name, m.capacity) in o.officeZones;
    var (response, after) := Outcome(cities, offices, request, newOfficeId, keys, saveFails);
    if response.Ok() {
      EditSavedTable(cities, offices, request, newOfficeId, keys);
      assert after == Released(offices, ids, KeyedIds(before.parkingZones, request.parkingZones.value))[i := o];
      forall j, z | 0 <= j < |after| && j != i && z in after[j].officeZones ensures z.id != m.id {
        assert after[j].officeZones == WithoutKeys(offices[j].officeZones, ids);
        WithoutKeysMembers(offices[j].officeZones, ids);
      }
    }
  }

  /** In an edit, a new office zone whose requested id is the key of no
      stored office zone updates no row, so the save fails and nothing changes. */
  lemma UnknownKeyFails(cities: seq<City>, offices: seq<Office>, request: ManageOfficeCommand, newOfficeId: Guid,
                        keys: ZoneKeys, saveFails: bool, k: nat)
    requires HandleRequires(cities, offices, request, newOfficeId, keys)
    requires !IsAdding(request) && Accepted(cities, offices, request)
    requires k < |request.officeZones| && request.officeZones[k].id != EmptyGuid
    requires request.officeZones[k].name !in Names(offices[EditIndex(offices, request)].officeZones)
    requires request.officeZones[k].id !in ZoneIds(AllOfficeZones(offices))
    ensures Outcome(cities, offices, request, newOfficeId, keys, saveFails) == (Returned(BadRequestList([SaveFailedMessage])), offices)
  {
    var m := request.officeZones[k];
    assert m in request.officeZones && m.id in KeyedIds(offices[EditIndex(offices, request)].officeZones, request.officeZones);
  }

  /** In an edit, a new office zone that carries the key of a zone the office
      keeps puts two entities with one key in the office, so the save fails
      and nothing changes. */
  lemma OwnKeyReuseFails(cities: seq<City>, offices: seq<Office>, request: ManageOfficeCommand, newOfficeId: Guid,
                         keys: ZoneKeys, saveFails: bool, k: nat, z: Zone)
    requires HandleRequires(cities, offices, request, newOfficeId, keys)
    requires !IsAdding(request) && Accepted(cities, offices, request)
    requires k < |request.officeZones| && request.officeZones[k].id != EmptyGuid
    requires request.officeZones[k].name !in Names(offices[EditIndex(offices, request)].officeZones)
    requires z in offices[EditIndex(offices, request)].officeZones && z.id == request.officeZones[k].id
    requires z.name in RequestedNames(request.officeZones)
    ensures Outcome(cities, offices, request, newOfficeId, keys, saveFails) == (Returned(BadRequestList([SaveFailedMessage])), offices)
  {
    var i := EditIndex(offices, request);
    var before := offices[i];
    var o := SavedOffice(cities, offices, request, newOfficeId, keys);
    var m := request.officeZones[k];
    KeptZoneKeepsIdentity(before.officeZones, request.officeZones, keys.officeZones, z);
    var y :| y in o.officeZones && y.id == z.id && y.name == z.name;
    CreatedMembers(before.officeZones, request.officeZones, keys.officeZones);
    var c := NewZone(m, keys.officeZones[k]);
    assert c in o.officeZones && c.id == y.id;
    assert z.name in Names(before.officeZones);
    if DistinctZoneIds(o.officeZones) {
      SameIdSameZone(o.officeZones, y, c);
    }
    var saved := SavedTable(cities, offices, request, newOfficeId, keys);
    assert saved[i] == o;
    if ZoneKeysUnique(saved) {
      OfficeZoneKeysDistinct(saved, i);
    }
  }

  /** A successful edit takes from every other office exactly the zones
      whose keys the edit's new zones carry, and changes nothing else there;
      when every new zone comes without an id, no other office changes. */
  lemma EditMovesOnlyKeyedZones(cities: seq<City>, offices: seq<Office>, request: ManageOfficeCommand, newOfficeId: Guid,
                                keys: ZoneKeys, saveFails: bool)
    requires HandleRequires(cities, offices, request, newOfficeId, keys)
    requires !IsAdding(request) && Accepted(cities, offices, request)
    ensures var (response, after) := Outcome(cities, offices, request, newOfficeId, keys, saveFails);
      var i := EditIndex(offices, request);
      var movedOffice, movedParking := KeyedIds(offices[i].officeZones, request.officeZones),
                                       KeyedIds(offices[i].parkingZones, request.parkingZones.value);
      response.Ok() ==>
      && |after| == |offices|
      && (forall k | 0 <= k < |offices| && k != i ::
            after[k] == offices[k].(officeZones := WithoutKeys(offices[k].officeZones, movedOffice),
                                    parkingZones := WithoutKeys(offices[k].parkingZones, movedParking)))
      && (movedOffice == {} && movedParking == {} ==> forall k | 0 <= k < |offices| && k != i :: after[k] == offices[k])
  {
    EditOthersReleased(cities, offices, request, newOfficeId, keys);
  }

  lemma EditOthersReleased(cities: seq<City>, offices: seq<Office>, request: ManageOfficeCommand, newOfficeId: Guid, keys: ZoneKeys)
    requires HandleRequires(cities, offices, request, newOfficeId, keys)
    requires !IsAdding(request) && Accepted(cities, offices, request)
    ensures var after, i := SavedTable(cities, offices, request, newOfficeId, keys), EditIndex(offices, request);
      var movedOffice, movedParking := KeyedIds(offices[i].officeZones, request.officeZones),
                                       KeyedIds(offices[i].parkingZones, request.parkingZones.value);
      && |after| == |offices|
      && (forall k | 0 <= k < |offices| && k != i ::
            after[k] == offices[k].(officeZones := WithoutKeys(offices[k].officeZones, movedOffice),
                                    parkingZones := WithoutKeys(offices[k].parkingZones, movedParking)))
      && (movedOffice == {} && movedParking == {} ==> forall k | 0 <= k < |offices| && k != i :: after[k] == offices[k])
  {
    var before := offices[EditIndex(offices, request)];
    EditSavedTable(cities, offices, request, newOfficeId, keys);
    if KeyedIds(before.officeZones, request.officeZones) == {} && KeyedIds(before.parkingZones, request.parkingZones.value) == {} {
      ReleasedNothing(offices);
    }
  }

  /** A successful edit rewrites the edited office. Its zones are the diff of
      the stored zones: exactly the requested names, the kept zones first with
      their ids and the requested capacity, then the new ones. */
  lemma EditReconcilesOffice(cities: seq<City>, offices: seq<Office>, request: ManageOfficeCommand, newOfficeId: Guid, keys: ZoneKeys)
    requires HandleRequires(cities, offices, request, newOfficeId, keys)
    requires !IsAdding(request) && Accepted(cities, offices, request)
    ensures var (response, after) := Outcome(cities, offices, request, newOfficeId, keys, false);
      var i := EditIndex(offices, request);
      var before, o := offices[i], after[i];
      response.Ok() ==>
      && response.result.code == 200
      && o.id == request.id
      && o.officeZones == Reconciled(before.officeZones, request.officeZones, keys.officeZones)
      && o.parkingZones == Reconciled(before.parkingZones, request.parkingZones.value, keys.parkingZones)
      && Names(o.officeZones) == RequestedNames(request.officeZones)
      && Names(o.parkingZones) == RequestedNames(request.parkingZones.value)
      && (forall z | z in before.officeZones && z.name in RequestedNames(request.officeZones) ::
            exists y | y in o.officeZones ::
              y.id == z.id && y.name == z.name && y.capacity == FirstNamed(request.officeZones, z.name).value.capacity)
      && (forall z | z in before.parkingZones && z.name in RequestedNames(request.parkingZones.value) ::
            exists y | y in o.parkingZones ::
              y.id == z.id && y.name == z.name && y.capacity == FirstNamed(request.parkingZones.value, z.name).value.capacity)
  {
    var i := EditIndex(offices, request);
    var before := offices[i];
    forall z | z in before.officeZones && z.name in RequestedNames(request.officeZones)
      ensures exists y | y in Reconciled(before.officeZones, request.officeZones, keys.officeZones) ::
        y.id == z.id && y.name == z.name && y.capacity == FirstNamed(request.officeZones, z.name).value.capacity
    {
      KeptZoneKeepsIdentity(before.officeZones, request.officeZones, keys.officeZones, z);
    }
    forall z | z in before.parkingZones && z.name in RequestedNames(request.parkingZones.value)
      ensures exists y | y in Reconciled(before.parkingZones, request.parkingZones.value, keys.parkingZones) ::
        y.id == z.id && y.name == z.name && y.capacity == FirstNamed(request.parkingZones.value, z.name).value.capacity
    {
      KeptZoneKeepsIdentity(before.parkingZones, request.parkingZones.value, keys.parkingZones, z);
    }
  }

  /** A successful create adds exactly one office, under the generated key,
      whose zones are the requested ones in request order, each under its
      requested id or, when that is `Guid.Empty`, its generated key; the
      payload returns those zones with those keys. */
  lemma CreateAddsOneOffice(cities: seq<City>, offices: seq<Office>, request: ManageOfficeCommand, newOfficeId: Guid, keys: ZoneKeys)
    requires HandleRequires(cities, offices, request, newOfficeId, keys)
    requires IsAdding(request) && Accepted(cities, offices, request)
    ensures var (response, after) := Outcome(cities, offices, request, newOfficeId, keys, false);
      var rz, pz := request.officeZones, request.parkingZones.value;
      response.Ok() ==>
      var r := response.result;
      && r.code == 200 && r.errors == None
      && |after| == |offices| + 1 && after[..|offices|] == offices
      && after[|offices|].id == newOfficeId
      && after[|offices|].officeZones == NewZones(rz, keys.officeZones)
      && after[|offices|].parkingZones == NewZones(pz, keys.parkingZones)
      && r.data.Some? && |r.data.value.officeZones| == |rz| && |r.data.value.parkingZones| == |pz|
      && (forall k | 0 <= k < |rz| ::
            var v := r.data.value.officeZones[k];
            v.name == rz[k].name && v.capacity == rz[k].capacity &&
            v.id == if rz[k].id == EmptyGuid then keys.officeZones[k] else rz[k].id)
      && (forall k | 0 <= k < |pz| ::
            var v := r.data.value.parkingZones[k];
            v.name == pz[k].name && v.capacity == pz[k].capacity &&
            v.id == if pz[k].id == EmptyGuid then keys.parkingZones[k] else pz[k].id)
  {
    var (response, after) := Outcome(cities, offices, request, newOfficeId, keys, false);
    if response.Ok() {
      var r := response.result;
      var o := SavedOffice(cities, offices, request, newOfficeId, keys);
      ReconcileFromEmpty(request.officeZones, keys.officeZones);
      ReconcileFromEmpty(request.parkingZones.value, keys.parkingZones);
      assert after == offices + [o] && r.data == Some(ToViewModel(o, RequestedCity(cities, request)));
      assert after[..|offices|] == offices;
      assert o.officeZones == NewZones(request.officeZones, keys.officeZones);
      assert o.parkingZones == NewZones(request.parkingZones.value, keys.parkingZones);
      NewZonesPayload(request.officeZones, keys.officeZones, r.data.value.officeZones);
      NewZonesPayload(request.parkingZones.value, keys.parkingZones, r.data.value.parkingZones);
    }
  }

  /** The payload of new zones: each requested zone under its stored key. */
  lemma NewZonesPayload(ms: seq<ZoneModel>, keys: seq<Guid>, view: seq<ZoneModel>)
    requires |keys| == |ms| && view == ToZoneModels(NewZones(ms, keys))
    ensures |view| == |ms|
    ensures forall k | 0 <= k < |ms| ::
      view[k].name == ms[k].name && view[k].capacity == ms[k].capacity &&
      view[k].id == if ms[k].id == EmptyGuid then keys[k] else ms[k].id
  {
  }

  /** On success the stored office, and the payload, carry the resolved city
      and the request's address, post code, map URL and author. */
  lemma SuccessOverwritesFields(cities: seq<City>, offices: seq<Office>, request: ManageOfficeCommand, newOfficeId: Guid, keys: ZoneKeys)
    requires HandleRequires(cities, offices, request, newOfficeId, keys)
    requires Accepted(cities, offices, request)
    ensures var (response, after) := Outcome(cities, offices, request, newOfficeId, keys, false);
      response.Ok() ==>
      var r := response.result;
      var o := if IsAdding(request) then after[|offices|] else after[EditIndex(offices, request)];
      && (exists c | c in cities :: c.name == request.city && o.cityId == c.id)
      && o.address == request.address && o.postCode == request.postCode
      && o.officeMapUrl == request.officeMap && o.authorEmail == request.authorEmail
      && r.data.Some? && r.data.value.city.name == request.city && r.data.value.city.id == o.cityId
      && r.data.value.address == request.address && r.data.value.postCode == request.postCode
      && r.data.value.officeMapUrl == request.officeMap && r.data.value.id == o.id
  {
    assert RequestedCity(cities, request) in cities;
  }

  /** The validation block: appends one message per failed check, in order.
      `office` is the office being edited, or the new one with its fresh key. */
  method CollectErrors(cities: seq<City>, offices: seq<Office>, request: ManageOfficeCommand, office: Office)
    returns (errorMessages: seq<string>)
    requires CitiesResolve(cities, offices)
    requires IsAdding(request) ==> OfficeIndexById(offices, office.id).None?
    requires !IsAdding(request) ==> office.id == request.id
    ensures errorMessages == ErrorList(Message, Violations(cities, offices, request))
  {
    errorMessages := [];
    ghost var violations: seq<Violation> := [];
    errorMessages, violations :=
      AddErrorIf(HasDuplicateNames(request.officeZones), errorMessages, violations, Message, DuplicateZoneNames);
    errorMessages, violations :=
      AddErrorIf(HasEmptyName(request.officeZones), errorMessages, violations, Message, EmptyZoneName);
    var taken := CheckAddress(cities, offices, request, office);
    errorMessages, violations :=
      AddErrorIf(taken, errorMessages, violations, Message, AddressTaken(request.address));
    var city := CityIndexByName(cities, request.city);
    errorMessages, violations :=
      AddErrorIf(city.None?, errorMessages, violations, Message, CityNotFound(request.city));
  }

  /** The lookup of the office at the requested address and the check
      `officeByAddress != office`: the office being edited is the stored
      entity with the request's id, and a new office has a key no stored office has. */
  method CheckAddress(cities: seq<City>, offices: seq<Office>, request: ManageOfficeCommand, office: Office)
    returns (taken: bool)
    requires CitiesResolve(cities, offices)
    requires IsAdding(request) ==> OfficeIndexById(offices, office.id).None?
    requires !IsAdding(request) ==> office.id == request.id
    ensures taken == AddressIsTaken(cities, offices, request)
  {
    taken := false;
    var byAddress := OfficeIndexByAddress(offices, request.address);
    if byAddress.Some? {
      var other := offices[byAddress.value];
      taken := other.id != office.id && CityOf(cities, other).name == request.city;
    }
  }

  /** The zone diffs (or, for a new office, appending every requested zone)
      followed by the overwrite of the office's scalar fields. */
  method ReconcileOffice(office: Office, city: City, request: ManageOfficeCommand, keys: ZoneKeys) returns (updated: Office)
    requires request.parkingZones.Some?
    requires |keys.officeZones| == |request.officeZones| && |keys.parkingZones| == |request.parkingZones.value|
    requires DistinctZoneIds(office.officeZones) && DistinctZoneIds(office.parkingZones)
    requires IsAdding(request) ==> office.officeZones == [] && office.parkingZones == []
    ensures updated == Apply(office, city, request, keys)
  {
    var officeZones, parkingZones;
    if IsAdding(request) {
      officeZones := office.officeZones + NewZones(request.officeZones, keys.officeZones);
      parkingZones := office.parkingZones + NewZones(request.parkingZones.value, keys.parkingZones);
      ReconcileFromEmpty(request.officeZones, keys.officeZones);
      ReconcileFromEmpty(request.parkingZones.value, keys.parkingZones);
    } else {
      officeZones := ReconcileZones(office.officeZones, request.officeZones, keys.officeZones);
      parkingZones := ReconcileZones(office.parkingZones, request.parkingZones.value, keys.parkingZones);
    }
    updated := office.(
      cityId := city.id,
      address := request.address,
      postCode := request.postCode,
      officeMapUrl := request.officeMap,
      authorEmail := request.authorEmail,
      officeZones := officeZones,
      parkingZones := parkingZones);
  }

  method Handle(db: Database, request: ManageOfficeCommand, newOfficeId: Guid, keys: ZoneKeys, saveFails: bool)
    returns (response: Response)
    requires db.Valid()
    requires HandleRequires(db.cities, db.offices, request, newOfficeId, keys)
    modifies db
    ensures db.Valid()
    ensures (response, db.offices) == Outcome(old(db.cities), old(db.offices), request, newOfficeId, keys, saveFails)
    ensures db.cities == old(db.cities) && db.reservations == old(db.reservations)
  {
    var cities, offices := db.cities, db.offices;
    var isAdding := request.id == EmptyGuid;
    var office: Office;
    var index: nat := 0;
    if isAdding {
      office := NewOffice(newOfficeId);
    } else {
      index := OfficeIndexById(offices, request.id).value;
      office := offices[index];
      if office.authorEmail != request.authorEmail {
        return Returned(ForbiddenList([NotAuthorMessage(request.authorEmail)]));
      }
    }
    assert office == Target(offices, request, newOfficeId);
    assert !NotAuthor(offices, request);

    var errorMessages := CollectErrors(cities, offices, request, office);
    if |errorMessages| > 0 {
      return Returned(BadRequestList(errorMessages));
    }
    response := Save(db, request, newOfficeId, keys, saveFails, office, index);
  }

  /** The zone diff and the overwrite of an accepted request, then
      `AddAsync` for a new office, then the save. */
  method Save(db: Database, request: ManageOfficeCommand, newOfficeId: Guid, keys: ZoneKeys, saveFails: bool,
              office: Office, index: nat)
    returns (response: Response)
    requires db.Valid()
    requires HandleRequires(db.cities, db.offices, request, newOfficeId, keys)
    requires Accepted(db.cities, db.offices, request)
    requires office == Target(db.offices, request, newOfficeId)
    requires !IsAdding(request) ==> index == EditIndex(db.offices, request)
    modifies db
    ensures db.Valid()
    ensures (response, db.offices) == Outcome(old(db.cities), old(db.offices), request, newOfficeId, keys, saveFails)
    ensures db.cities == old(db.cities) && db.reservations == old(db.reservations)
  {
    var cities, offices := db.cities, db.offices;
    var isAdding := request.id == EmptyGuid;
    if !isAdding {
      OfficeZoneKeysDistinct(offices, index);
    }
    var city := cities[CityIndexByName(cities, request.city).value];
    var updated := ReconcileOffice(office, city, request, keys);
    assert updated == SavedOffice(cities, offices, request, newOfficeId, keys);
    if isAdding {
      CreatedZones(cities, offices, request, newOfficeId, keys);
      if !DistinctZoneIds(updated.officeZones) || !DistinctZoneIds(updated.parkingZones) {
        // AddAsync finds two new zones of one kind under one key
        return IdentityConflict;
      }
    }
    response := Commit(db, request, newOfficeId, keys, saveFails, office, index, city, updated);
  }

  /** The save of an accepted request whose new office, if any, is tracked:
      the updated rows, then `SaveChanges`. */
  method Commit(db: Database, request: ManageOfficeCommand, newOfficeId: Guid, keys: ZoneKeys, saveFails: bool,
                office: Office, index: nat, city: City, updated: Office)
    returns (response: Response)
    requires db.Valid()
    requires HandleRequires(db.cities, db.offices, request, newOfficeId, keys)
    requires Accepted(db.cities, db.offices, request)
    requires office == Target(db.offices, request, newOfficeId)
    requires !IsAdding(request) ==> index == EditIndex(db.offices, request)
    requires city == RequestedCity(db.cities, request)
    requires updated == SavedOffice(db.cities, db.offices, request, newOfficeId, keys)
    requires !AddThrows(db.cities, db.offices, request, newOfficeId, keys)
    modifies db
    ensures db.Valid()
    ensures (response, db.offices) == Outcome(old(db.cities), old(db.offices), request, newOfficeId, keys, saveFails)
    ensures db.cities == old(db.cities) && db.reservations == old(db.reservations)
  {
    var cities, offices := db.cities, db.offices;
    var isAdding := request.id == EmptyGuid;
    var movedOffice := KeyedIds(office.officeZones, request.officeZones);
    var movedParking := KeyedIds(office.parkingZones, request.parkingZones.value);
    var rowsFound := isAdding ||
      (movedOffice <= ZoneIds(AllOfficeZones(offices)) && movedParking <= ZoneIds(AllParkingZones(offices)));
    var saved := if isAdding then offices + [updated] else Released(offices, movedOffice, movedParking)[index := updated];
    assert saved == SavedTable(cities, offices, request, newOfficeId, keys);

    if saveFails || !rowsFound || !ZoneKeysUnique(saved) {
      return Returned(BadRequestList([SaveFailedMessage]));
    }
    assert CityIndexById(cities, updated.cityId).Some?;
    if isAdding {
      InvariantAfterAppend(cities, offices, db.reservations, updated);
    } else {
      InvariantAfterUpdate(cities, offices, db.reservations, index, updated, movedOffice, movedParking);
    }
    db.offices := saved;
    response := Returned(OkWith(ToViewModel(updated, city)));
  }
}
