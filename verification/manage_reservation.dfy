/** `MakeReservationCommandHandler.Handle`: create a reservation (empty
    request id) after a conflict check, or overwrite some fields of an
    existing one without any conflict check. */
module ManageReservation {
  import opened Wrappers
  import opened Results
  import opened Entities
  import opened OfficeModels
  import opened Store

  datatype ManageReservationCommand = ManageReservationCommand(
    id: Guid,
    officeId: Guid,
    officeZoneId: Guid,
    parkingZoneId: Option<Guid>,
    date: DateTime,
    officeDesk: string,
    parkingSpace: Option<string>,
    userEmail: string)

  datatype ReservationModel = ReservationModel(
    id: Guid,
    date: DateTime,
    office: OfficeModel,
    officeZone: ZoneModel,
    officeDesk: string,
    parkingZone: Option<ZoneModel>,
    parkingSpace: Option<string>)

  /** What the caller gets: the handler's `Result`, or the null dereference
      the payload projection hits after an update without a parking zone has
      already been saved. */
  datatype Response =
    | Returned(result: Result<ReservationModel>)
    | NullDereference

  /** A reference in the request that does not resolve. */
  datatype MissingReference =
    | MissingOffice(id: Guid)
    | MissingOfficeZone(id: Guid)
    | MissingParkingZone(id: Guid)

  function Message(e: MissingReference): string {
    match e
    case MissingOffice(id) => "Office with id: " + id + " does not exist."
    case MissingOfficeZone(id) => "OfficeZone with id: " + id + " does not exist."
    case MissingParkingZone(id) => "ParkingZone with id: " + id + " does not exist."
  }

  function Rank(e: MissingReference): nat {
    match e
    case MissingOffice(_) => 0
    case MissingOfficeZone(_) => 1
    case MissingParkingZone(_) => 2
  }

  const SeatTakenMessage: string := "This seat is already reserved."
  const AddFailedMessage: string := "Can't add new reservation."
  const EditFailedMessage: string := "Can't edit reservation."

  function ReservationMissingMessage(id: Guid): string {
    "Reservation with id: " + id + " does not exist."
  }

  predicate IsAdding(request: ManageReservationCommand) {
    request.id == EmptyGuid
  }

  /** `GetOfficeAsync`. */
  function ResolveOffice(offices: seq<Office>, id: Guid): (o: Option<Office>)
    ensures o.Some? ==> o.value in offices && o.value.id == id
    ensures o.None? <==> forall x | x in offices :: x.id != id
  {
    match OfficeIndexById(offices, id)
    case None => None
    case Some(i) => Some(offices[i])
  }

  /** `GetOfficeZoneAsync`: any office zone with that id, whatever its office. */
  function ResolveOfficeZone(offices: seq<Office>, id: Guid): Option<Zone> {
    ZoneById(AllOfficeZones(offices), id)
  }

  /** `GetParkingZoneAsync`, called only when the request names a parking zone. */
  function ResolveParkingZone(offices: seq<Office>, id: Option<Guid>): Option<Zone> {
    if id.None? then None else ZoneById(AllParkingZones(offices), id.value)
  }

  /** The reference errors, in the order the handler checks them. */
  function MissingReferences(offices: seq<Office>, request: ManageReservationCommand): seq<MissingReference> {
    (if ResolveOffice(offices, request.officeId).None? then [MissingOffice(request.officeId)] else [])
    + (if ResolveOfficeZone(offices, request.officeZoneId).None? then [MissingOfficeZone(request.officeZoneId)] else [])
    + (if request.parkingZoneId.Some? && ResolveParkingZone(offices, request.parkingZoneId).None?
       then [MissingParkingZone(request.parkingZoneId.value)] else [])
  }

  /** The conflict query, with the source's grouping: `&&` binds tighter than
      `||`, so an equal desk label alone is a conflict, on any day, in any office. */
  predicate Conflicts(existing: Reservation, candidate: Reservation)
    ensures existing.officeDesk == candidate.officeDesk ==> Conflicts(existing, candidate)
    ensures existing.officeDesk != candidate.officeDesk && existing.date.day != candidate.date.day ==>
      !Conflicts(existing, candidate)
  {
    (existing.date.day == candidate.date.day &&
     existing.officeId == candidate.officeId &&
     existing.officeZoneId == candidate.officeZoneId &&
     existing.parkingZoneId == candidate.parkingZoneId &&
     existing.parkingSpace == candidate.parkingSpace) ||
    existing.officeDesk == candidate.officeDesk
  }

  /** The reservation create mode builds, under the key the database generates. */
  function NewReservation(request: ManageReservationCommand, id: Guid): (r: Reservation)
    ensures r.id == id && r.date == request.date && r.userEmail == request.userEmail
    ensures r.officeId == request.officeId && r.officeZoneId == request.officeZoneId
    ensures r.parkingZoneId == request.parkingZoneId
    ensures r.officeDesk == request.officeDesk && r.parkingSpace == request.parkingSpace
  {
    Reservation(
      id,
      request.date,
      request.officeId,
      request.officeZoneId,
      request.officeDesk,
      if request.parkingZoneId.Some? then request.parkingZoneId else None,
      request.parkingSpace,
      request.userEmail)
  }

  /** Update mode's field copies; the parking zone id receives the requested office zone id. */
  function Overwrite(existing: Reservation, request: ManageReservationCommand): (r: Reservation)
    ensures r.id == existing.id && r.officeDesk == existing.officeDesk && r.parkingSpace == existing.parkingSpace
    ensures r.date == request.date && r.officeId == request.officeId && r.userEmail == request.userEmail
    ensures r.officeZoneId == request.officeZoneId && r.parkingZoneId == Some(request.officeZoneId)
  {
    existing.(
      date := request.date,
      officeId := request.officeId,
      officeZoneId := request.officeZoneId,
      parkingZoneId := Some(request.officeZoneId),
      userEmail := request.userEmail)
  }

  /** The row the update saves. The handler sets `ParkingZoneId` to the
      requested office zone id and the `ParkingZone` navigation to the
      looked-up parking zone, and the change tracker reconciles the two before
      the save. Without a parking zone no parking zone entity is tracked, the
      navigation stays null and the id is saved as set. With one,
      `navigationWins` says whether the tracker replaces the id by the
      navigation's key. */
  function Tracked(reservation: Reservation, parkingZone: Option<Zone>, navigationWins: bool): Reservation {
    if navigationWins && parkingZone.Some? then reservation.(parkingZoneId := Some(parkingZone.value.id))
    else reservation
  }

  /** The database's foreign key from `ParkingZoneId` to the `ParkingZones` table. */
  predicate ParkingZoneReferenced(offices: seq<Office>, reservation: Reservation) {
    reservation.parkingZoneId.None? || ResolveParkingZone(offices, reservation.parkingZoneId).Some?
  }

  /** The office as the payload sees it. The office lookup loads only its
      city and country, so its zone collections hold just the entities the
      request tracked that belong to it: the looked-up office zone and
      parking zone. */
  function Loaded(office: Office, officeZone: Zone, parkingZone: Option<Zone>): (o: Office)
    ensures o.id == office.id && o.cityId == office.cityId && o.address == office.address
    ensures o.postCode == office.postCode && o.officeMapUrl == office.officeMapUrl
    ensures forall z :: z in o.officeZones <==> z == officeZone && z in office.officeZones
    ensures forall z :: z in o.parkingZones <==> parkingZone == Some(z) && z in office.parkingZones
    ensures |o.officeZones| <= 1 && |o.parkingZones| <= 1
  {
    office.(
      officeZones := if officeZone in office.officeZones then [officeZone] else [],
      parkingZones := if parkingZone.Some? && parkingZone.value in office.parkingZones then [parkingZone.value] else [])
  }

  /** The `ReservationModel` built from the reservation and its navigations;
      the parking zone navigation is dereferenced whenever `ParkingZoneId` is set. */
  function ToReservationModel(reservation: Reservation, office: Office, city: City, officeZone: Zone, parkingZone: Option<Zone>)
    : (m: ReservationModel)
    requires city.id == office.cityId
    requires reservation.parkingZoneId.Some? ==> parkingZone.Some?
    ensures m.id == reservation.id && m.date == reservation.date
    ensures m.officeDesk == reservation.officeDesk && m.parkingSpace == reservation.parkingSpace
    ensures m.office.id == reservation.officeId && m.office.address == office.address && m.office.city.name == city.name
    ensures forall v :: v in m.office.officeZones <==> exists z | z in office.officeZones :: z == officeZone && v == ToZoneModel(z)
    ensures forall v :: v in m.office.parkingZones <==>
      exists z | z in office.parkingZones :: parkingZone == Some(z) && v == ToZoneModel(z)
    ensures m.officeZone.id == reservation.officeZoneId
    ensures m.officeZone.name == officeZone.name && m.officeZone.capacity == officeZone.capacity
    ensures m.parkingZone.Some? <==> reservation.parkingZoneId.Some?
    ensures m.parkingZone.Some? ==> m.parkingZone == Some(ToZoneModel(parkingZone.value))
  {
    var loaded := Loaded(office, officeZone, parkingZone);
    ReservationModel(
      reservation.id,
      reservation.date,
      ToViewModel(loaded, city).(id := reservation.officeId),
      ZoneModel(reservation.officeZoneId, officeZone.name, officeZone.capacity),
      reservation.officeDesk,
      if reservation.parkingZoneId.Some? then Some(ToZoneModel(parkingZone.value)) else None,
      reservation.parkingSpace)
  }

  /** What the handler relies on without checking it: every office's city
      is stored, and a created reservation gets a fresh, non-empty key. */
  predicate HandleRequires(cities: seq<City>, offices: seq<Office>, reservations: seq<Reservation>,
                           request: ManageReservationCommand, newReservationId: Guid) {
    && CitiesResolve(cities, offices)
    && (IsAdding(request) ==>
          newReservationId != EmptyGuid && ReservationIndexById(reservations, newReservationId).None?)
  }

  /** The handler's result and the `Reservations` table afterwards. */
  function Outcome(cities: seq<City>, offices: seq<Office>, reservations: seq<Reservation>,
                   request: ManageReservationCommand, newReservationId: Guid, saveFails: bool, navigationWins: bool)
    : (o: (Response, seq<Reservation>))
    requires HandleRequires(cities, offices, reservations, request, newReservationId)
    ensures o.0.Returned? ==>
      o.0.result.Consistent() && (o.0.result.codeResult == ResultCode.Ok || o.0.result.codeResult == ResultCode.BadRequest)
    ensures o.0.Returned? && o.0.result.codeResult != ResultCode.Ok ==> o.1 == reservations
    ensures IsAdding(request) ==>
      o.0.Returned? && (o.1 == reservations || o.1 == reservations + [NewReservation(request, newReservationId)])
    ensures !IsAdding(request) ==>
      |o.1| == |reservations| && forall k | 0 <= k < |reservations| && reservations[k].id != request.id :: o.1[k] == reservations[k]
  {
    var missing := MissingReferences(offices, request);
    if missing != [] then
      (Returned(BadRequestList(ErrorList(Message, missing))), reservations)
    else
      var office := ResolveOffice(offices, request.officeId).value;
      var city := CityOf(cities, office);
      var officeZone := ResolveOfficeZone(offices, request.officeZoneId).value;
      var parkingZone := ResolveParkingZone(offices, request.parkingZoneId);
      if IsAdding(request) then
        CreateOutcome(reservations, request, newReservationId, saveFails, office, city, officeZone, parkingZone)
      else
        UpdateOutcome(offices, reservations, request, saveFails, navigationWins, office, city, officeZone, parkingZone)
  }

  /** Create mode once the references resolve. */
  function CreateOutcome(reservations: seq<Reservation>, request: ManageReservationCommand, newReservationId: Guid,
                         saveFails: bool, office: Office, city: City, officeZone: Zone, parkingZone: Option<Zone>)
    : (o: (Response, seq<Reservation>))
    requires city.id == office.cityId
    requires request.parkingZoneId.Some? ==> parkingZone.Some?
    ensures o.0.Returned? && o.0.result.Consistent()
    ensures o.0.result.codeResult == ResultCode.Ok <==>
      !saveFails && forall r | r in reservations :: !Conflicts(r, NewReservation(request, newReservationId))
    ensures o.1 == if o.0.result.codeResult == ResultCode.Ok then reservations + [NewReservation(request, newReservationId)]
      else reservations
  {
    var candidate := NewReservation(request, newReservationId);
    if exists r | r in reservations :: Conflicts(r, candidate) then
      (Returned(BadRequestList([SeatTakenMessage])), reservations)
    else if saveFails then
      (Returned(BadRequestList([AddFailedMessage])), reservations)
    else
      (Returned(OkWith(ToReservationModel(candidate, office, city, officeZone, parkingZone))), reservations + [candidate])
  }

  /** Update mode once the references resolve. The database refuses a row
      whose parking zone id names no parking zone. The saved row always has a
      parking zone id, so without a requested parking zone the projection
      dereferences a null navigation after a save that went through. */
  function UpdateOutcome(offices: seq<Office>, reservations: seq<Reservation>, request: ManageReservationCommand,
                         saveFails: bool, navigationWins: bool,
                         office: Office, city: City, officeZone: Zone, parkingZone: Option<Zone>)
    : (o: (Response, seq<Reservation>))
    requires city.id == office.cityId
    ensures o.0.Returned? ==> o.0.result.Consistent()
    ensures o.0.Returned? && o.0.result.codeResult == ResultCode.Ok ==> parkingZone.Some?
    ensures o.0.NullDereference? ==> parkingZone.None? && !saveFails
    ensures ReservationIndexById(reservations, request.id).None? || saveFails ==>
      o.0.Returned? && o.0.result.codeResult == ResultCode.BadRequest && o.1 == reservations
    ensures ReservationIndexById(reservations, request.id).Some? && !saveFails ==>
      var i := ReservationIndexById(reservations, request.id).value;
      var updated := Tracked(Overwrite(reservations[i], request), parkingZone, navigationWins);
      o.1 == if ParkingZoneReferenced(offices, updated) then reservations[i := updated] else reservations
    ensures |o.1| == |reservations|
    ensures forall k | 0 <= k < |reservations| && reservations[k].id != request.id :: o.1[k] == reservations[k]
  {
    match ReservationIndexById(reservations, request.id)
    case None =>
      (Returned(BadRequestList([ReservationMissingMessage(request.id)])), reservations)
    case Some(i) =>
      var updated := Tracked(Overwrite(reservations[i], request), parkingZone, navigationWins);
      if saveFails || !ParkingZoneReferenced(offices, updated) then
        (Returned(BadRequestList([EditFailedMessage])), reservations)
      else if updated.parkingZoneId.Some? && parkingZone.None? then
        (NullDereference, reservations[i := updated])
      else
        (Returned(OkWith(ToReservationModel(updated, office, city, officeZone, parkingZone))), reservations[i := updated])
  }

  /** An office zone id resolves exactly when some office has a zone with that id. */
  lemma OfficeZoneResolves(offices: seq<Office>, id: Guid)
    ensures ResolveOfficeZone(offices, id).None? <==>
      forall o, z | o in offices && z in o.officeZones :: z.id != id
  {
    OfficeZoneTable(offices);
    if ResolveOfficeZone(offices, id).Some? {
      var z := ResolveOfficeZone(offices, id).value;
      var o :| o in offices && z in o.officeZones;
    }
  }

  /** A parking zone id resolves exactly when some office has a parking zone with that id. */
  lemma ParkingZoneResolves(offices: seq<Office>, id: Guid)
    ensures ResolveParkingZone(offices, Some(id)).None? <==>
      forall o, z | o in offices && z in o.parkingZones :: z.id != id
  {
    ParkingZoneTable(offices);
    if ResolveParkingZone(offices, Some(id)).Some? {
      var z := ResolveParkingZone(offices, Some(id)).value;
      var o :| o in offices && z in o.parkingZones;
    }
  }

  /** Each reference check adds its error exactly when the reference does
      not resolve, and the errors come in the order office, office zone,
      parking zone. */
  lemma MissingReferencesMeaning(offices: seq<Office>, request: ManageReservationCommand)
    ensures var m := MissingReferences(offices, request);
      && (MissingOffice(request.officeId) in m <==> forall o | o in offices :: o.id != request.officeId)
      && (MissingOfficeZone(request.officeZoneId) in m <==>
            forall o, z | o in offices && z in o.officeZones :: z.id != request.officeZoneId)
      && ((exists id :: MissingParkingZone(id) in m) <==>
            request.parkingZoneId.Some? &&
            forall o, z | o in offices && z in o.parkingZones :: z.id != request.parkingZoneId.value)
      && (forall i, j | 0 <= i < j < |m| :: Rank(m[i]) < Rank(m[j]))
  {
    OfficeZoneResolves(offices, request.officeZoneId);
    if request.parkingZoneId.Some? {
      ParkingZoneResolves(offices, request.parkingZoneId.value);
    }
    RanksIncrease(
      if ResolveOffice(offices, request.officeId).None? then [MissingOffice(request.officeId)] else [],
      if ResolveOfficeZone(offices, request.officeZoneId).None? then [MissingOfficeZone(request.officeZoneId)] else [],
      if request.parkingZoneId.Some? && ResolveParkingZone(offices, request.parkingZoneId).None?
      then [MissingParkingZone(request.parkingZoneId.value)] else []);
  }

  lemma RanksIncrease(a: seq<MissingReference>, b: seq<MissingReference>, c: seq<MissingReference>)
    requires |a| <= 1 && |b| <= 1 && |c| <= 1
    requires (forall e | e in a :: Rank(e) == 0) && (forall e | e in b :: Rank(e) == 1) && (forall e | e in c :: Rank(e) == 2)
    ensures forall i, j | 0 <= i < j < |a + b + c| :: Rank((a + b + c)[i]) < Rank((a + b + c)[j])
  {
    var m := a + b + c;
    forall k | 0 <= k < |m|
      ensures Rank(m[k]) == if k < |a| then 0 else if k < |a| + |b| then 1 else 2
    {
      if k < |a| {
        assert m[k] == a[k];
      } else if k < |a| + |b| {
        assert m[k] == b[k - |a|];
      } else {
        assert m[k] == c[k - |a| - |b|];
      }
    }
  }

  /** A returned result is Ok or BadRequest; a BadRequest leaves the
      `Reservations` table unchanged and carries no payload; unresolved
      references are reported before anything else. */
  lemma RejectionChangesNothing(cities: seq<City>, offices: seq<Office>, reservations: seq<Reservation>,
                                request: ManageReservationCommand, newReservationId: Guid, saveFails: bool, navigationWins: bool)
    requires HandleRequires(cities, offices, reservations, request, newReservationId)
    ensures var (response, after) := Outcome(cities, offices, reservations, request, newReservationId, saveFails, navigationWins);
      && (response.Returned? ==>
            var r := response.result;
            && (r.codeResult == ResultCode.Ok || r.codeResult == ResultCode.BadRequest)
            && (r.codeResult != ResultCode.Ok ==> after == reservations && r.data == None && r.code == 400)
            && (r.codeResult == ResultCode.Ok ==> !saveFails && MissingReferences(offices, request) == []))
      && (response.NullDereference? ==> !IsAdding(request) && !saveFails && MissingReferences(offices, request) == [])
      && (MissingReferences(offices, request) != [] ==>
            response == Returned(BadRequestList(ErrorList(Message, MissingReferences(offices, request)))))
  {
  }

  /** Create mode rejects a request that any stored reservation conflicts
      with, as the conflict query reads, and changes nothing. */
  lemma ConflictBlocksCreate(cities: seq<City>, offices: seq<Office>, reservations: seq<Reservation>,
                             request: ManageReservationCommand, newReservationId: Guid, saveFails: bool, navigationWins: bool, k: nat)
    requires HandleRequires(cities, offices, reservations, request, newReservationId)
    requires IsAdding(request) && MissingReferences(offices, request) == []
    requires k < |reservations| && Conflicts(reservations[k], NewReservation(request, newReservationId))
    ensures var (response, after) := Outcome(cities, offices, reservations, request, newReservationId, saveFails, navigationWins);
      response == Returned(BadRequestList([SeatTakenMessage])) && after == reservations
  {
    assert reservations[k] in reservations;
  }

  /** In particular, a stored reservation with the requested desk label
      blocks the create, on any day, in any office, in any zone. */
  lemma DeskLabelBlocksCreate(cities: seq<City>, offices: seq<Office>, reservations: seq<Reservation>,
                              request: ManageReservationCommand, newReservationId: Guid, saveFails: bool, navigationWins: bool, k: nat)
    requires HandleRequires(cities, offices, reservations, request, newReservationId)
    requires IsAdding(request) && MissingReferences(offices, request) == []
    requires k < |reservations| && reservations[k].officeDesk == request.officeDesk
    ensures var (response, after) := Outcome(cities, offices, reservations, request, newReservationId, saveFails, navigationWins);
      response == Returned(BadRequestList([SeatTakenMessage])) && after == reservations
  {
    ConflictBlocksCreate(cities, offices, reservations, request, newReservationId, saveFails, navigationWins, k);
  }

  /** Create mode succeeds exactly when the save succeeds and no stored
      reservation has the requested desk label or the requested day, office,
      office zone, parking zone and parking space all at once; it then
      appends one reservation carrying the request's fields and the new key,
      and returns it with its navigations. */
  lemma CreateIff(cities: seq<City>, offices: seq<Office>, reservations: seq<Reservation>,
                  request: ManageReservationCommand, newReservationId: Guid, saveFails: bool, navigationWins: bool)
    requires HandleRequires(cities, offices, reservations, request, newReservationId)
    requires IsAdding(request) && MissingReferences(offices, request) == []
    ensures var (response, after) := Outcome(cities, offices, reservations, request, newReservationId, saveFails, navigationWins);
      var r := response.result;
      && response.Returned?
      && (r.codeResult == ResultCode.Ok <==>
            !saveFails &&
            forall x | x in reservations ::
              x.officeDesk != request.officeDesk &&
              !(x.date.day == request.date.day && x.officeId == request.officeId &&
                x.officeZoneId == request.officeZoneId && x.parkingZoneId == request.parkingZoneId &&
                x.parkingSpace == request.parkingSpace))
      && (r.codeResult == ResultCode.Ok ==>
            && |after| == |reservations| + 1
            && after[..|reservations|] == reservations
            && var added := after[|reservations|];
            && added.id == newReservationId && added.date == request.date
            && added.officeId == request.officeId && added.officeZoneId == request.officeZoneId
            && added.officeDesk == request.officeDesk && added.parkingZoneId == request.parkingZoneId
            && added.parkingSpace == request.parkingSpace && added.userEmail == request.userEmail
            && r.data.Some? && r.data.value.id == newReservationId && r.data.value.date == request.date
            && r.data.value.office.id == request.officeId
            && r.data.value.officeZone.id == request.officeZoneId
            && r.data.value.officeDesk == request.officeDesk
            && r.data.value.parkingSpace == request.parkingSpace
            && (r.data.value.parkingZone.Some? <==> request.parkingZoneId.Some?)
            && (r.data.value.parkingZone.Some? ==> r.data.value.parkingZone.value.id == request.parkingZoneId.value))
  {
    var office := ResolveOffice(offices, request.officeId).value;
    var parkingZone := ResolveParkingZone(offices, request.parkingZoneId);
    var candidate := NewReservation(request, newReservationId);
    assert candidate.parkingZoneId == request.parkingZoneId;
    var (response, after) := Outcome(cities, offices, reservations, request, newReservationId, saveFails, navigationWins);
    if response.result.codeResult == ResultCode.Ok {
      assert after == reservations + [candidate];
    }
  }

  /** Update mode without a stored reservation of that id is a BadRequest
      naming it, and changes nothing. */
  lemma UpdateOfMissingReservation(cities: seq<City>, offices: seq<Office>, reservations: seq<Reservation>,
                                   request: ManageReservationCommand, saveFails: bool, navigationWins: bool)
    requires HandleRequires(cities, offices, reservations, request, EmptyGuid)
    requires !IsAdding(request) && MissingReferences(offices, request) == []
    requires forall x | x in reservations :: x.id != request.id
    ensures var (response, after) := Outcome(cities, offices, reservations, request, EmptyGuid, saveFails, navigationWins);
      response == Returned(BadRequestList([ReservationMissingMessage(request.id)])) && after == reservations
  {
    forall k | 0 <= k < |reservations| ensures reservations[k].id != request.id {
      assert reservations[k] in reservations;
    }
  }

  /** An update with a parking zone changes at most the reservation with
      that id. The saved parking zone id is the looked-up zone's key when the
      navigation wins, and the requested office zone id otherwise. The update
      succeeds exactly when that id names a parking zone, as the foreign key
      demands, so always when the navigation wins. On success the day,
      office, office zone and user come from the request, and the key, desk
      and parking space stay as stored; otherwise the save is refused with
      "Can't edit reservation." and nothing changes. */
  lemma UpdateRewritesOne(cities: seq<City>, offices: seq<Office>, reservations: seq<Reservation>,
                          request: ManageReservationCommand, navigationWins: bool, i: nat)
    requires HandleRequires(cities, offices, reservations, request, EmptyGuid)
    requires DistinctReservationIds(reservations)
    requires !IsAdding(request) && MissingReferences(offices, request) == []
    requires i < |reservations| && reservations[i].id == request.id
    requires request.parkingZoneId.Some?
    ensures var (response, after) := Outcome(cities, offices, reservations, request, EmptyGuid, false, navigationWins);
      var written := if navigationWins then request.parkingZoneId.value else request.officeZoneId;
      response.Returned? &&
      var r := response.result;
      && (r.codeResult == ResultCode.Ok <==> ResolveParkingZone(offices, Some(written)).Some?)
      && (navigationWins ==> r.codeResult == ResultCode.Ok)
      && (r.codeResult != ResultCode.Ok ==> r == BadRequestList([EditFailedMessage]) && after == reservations)
      && (r.codeResult == ResultCode.Ok ==>
        && |after| == |reservations|
        && (forall k | 0 <= k < |after| && k != i :: after[k] == reservations[k])
        && after[i].id == reservations[i].id
        && after[i].date == request.date
        && after[i].officeId == request.officeId
        && after[i].officeZoneId == request.officeZoneId
        && after[i].parkingZoneId == Some(written)
        && after[i].userEmail == request.userEmail
        && after[i].officeDesk == reservations[i].officeDesk
        && after[i].parkingSpace == reservations[i].parkingSpace
        && r.data.Some? && r.data.value.id == request.id && r.data.value.date == request.date
        && r.data.value.officeDesk == reservations[i].officeDesk
        && r.data.value.parkingSpace == reservations[i].parkingSpace
        && r.data.value.officeZone.id == request.officeZoneId
        && r.data.value.parkingZone.Some? && r.data.value.parkingZone.value.id == request.parkingZoneId.value)
  {
    var j := ReservationIndexById(reservations, request.id).value;
    assert !(j < i) && !(i < j);
  }

  /** An update without a parking zone saves the requested office zone id as
      its parking zone id. Normally no parking zone has that key, so the
      database refuses the row and the handler answers "Can't edit
      reservation." with nothing changed. Should a parking zone have that
      key, the row is saved and the projection then dereferences the null
      parking zone navigation instead of returning a result. */
  lemma UpdateWithoutParkingZoneFails(cities: seq<City>, offices: seq<Office>, reservations: seq<Reservation>,
                                      request: ManageReservationCommand, navigationWins: bool, i: nat)
    requires HandleRequires(cities, offices, reservations, request, EmptyGuid)
    requires DistinctReservationIds(reservations)
    requires !IsAdding(request) && MissingReferences(offices, request) == []
    requires i < |reservations| && reservations[i].id == request.id
    requires request.parkingZoneId.None?
    ensures var (response, after) := Outcome(cities, offices, reservations, request, EmptyGuid, false, navigationWins);
      && (ResolveParkingZone(offices, Some(request.officeZoneId)).None? ==>
            response == Returned(BadRequestList([EditFailedMessage])) && after == reservations)
      && (ResolveParkingZone(offices, Some(request.officeZoneId)).Some? ==>
            && response == NullDereference
            && after == reservations[i := Overwrite(reservations[i], request)]
            && after[i].parkingZoneId == Some(request.officeZoneId))
  {
    var j := ReservationIndexById(reservations, request.id).value;
    assert !(j < i) && !(i < j);
  }

  /** No two stored reservations share a desk label. */
  predicate DistinctDesks(reservations: seq<Reservation>) {
    forall i, j | 0 <= i < j < |reservations| :: reservations[i].officeDesk != reservations[j].officeDesk
  }

  /** Desk labels stay unique across the store: create refuses a taken label
      and update never changes a desk. */
  lemma DesksStayDistinct(cities: seq<City>, offices: seq<Office>, reservations: seq<Reservation>,
                          request: ManageReservationCommand, newReservationId: Guid, saveFails: bool, navigationWins: bool)
    requires HandleRequires(cities, offices, reservations, request, newReservationId)
    requires DistinctDesks(reservations)
    ensures DistinctDesks(Outcome(cities, offices, reservations, request, newReservationId, saveFails, navigationWins).1)
  {
    var (response, after) := Outcome(cities, offices, reservations, request, newReservationId, saveFails, navigationWins);
    if after != reservations {
      if IsAdding(request) {
        var candidate := NewReservation(request, newReservationId);
        assert after == reservations + [candidate];
        forall i, j | 0 <= i < j < |after| ensures after[i].officeDesk != after[j].officeDesk {
          if j == |reservations| {
            assert !Conflicts(reservations[i], candidate);
          }
        }
      } else {
        var i := ReservationIndexById(reservations, request.id).value;
        var parkingZone := ResolveParkingZone(offices, request.parkingZoneId);
        assert after == reservations[i := Tracked(Overwrite(reservations[i], request), parkingZone, navigationWins)];
        forall a, b | 0 <= a < b < |after| ensures after[a].officeDesk != after[b].officeDesk {
          assert after[a].officeDesk == reservations[a].officeDesk;
          assert after[b].officeDesk == reservations[b].officeDesk;
        }
      }
    }
  }

  /** Update mode does not run the conflict query: an update can move a
      reservation onto a day, office, zone and parking slot already held,
      leaving two stored reservations that the query flags. Here the change
      tracker saves the parking zone navigation's key. */
  lemma UpdateSkipsConflictCheck()
    ensures
      var city := City("c", "Gdansk", Country("pl", "Poland", "PL"));
      var office := Office("o", "Grunwaldzka 1", "80-001", None, "c", "admin@example.com",
                           [Zone("z", "Open space", 10)], [Zone("p", "Garage", 5)]);
      var first := Reservation("r1", DateTime(1, 0), "o", "z", "D1", Some("p"), None, "a@example.com");
      var second := Reservation("r2", DateTime(2, 0), "o", "z", "D2", Some("z"), None, "b@example.com");
      var request := ManageReservationCommand("r2", "o", "z", Some("p"), DateTime(1, 0), "D2", None, "b@example.com");
      && HandleRequires([city], [office], [first, second], request, EmptyGuid)
      && var (response, after) := Outcome([city], [office], [first, second], request, EmptyGuid, false, true);
      && response.Returned? && response.result.codeResult == ResultCode.Ok
      && |after| == 2
      && Conflicts(after[0], after[1])
  {
    var city := City("c", "Gdansk", Country("pl", "Poland", "PL"));
    var office := Office("o", "Grunwaldzka 1", "80-001", None, "c", "admin@example.com",
                         [Zone("z", "Open space", 10)], [Zone("p", "Garage", 5)]);
    var first := Reservation("r1", DateTime(1, 0), "o", "z", "D1", Some("p"), None, "a@example.com");
    var second := Reservation("r2", DateTime(2, 0), "o", "z", "D2", Some("z"), None, "b@example.com");
    var request := ManageReservationCommand("r2", "o", "z", Some("p"), DateTime(1, 0), "D2", None, "b@example.com");
    assert "r2" != EmptyGuid by { assert |"r2"| != |EmptyGuid|; }
    assert "r1" != "r2" by { assert "r1"[1] != "r2"[1]; }
    assert CityIndexById([city], "c") == Some(0);
    assert ResolveOffice([office], "o") == Some(office);
    assert AllOfficeZones([office]) == [Zone("z", "Open space", 10)];
    assert AllParkingZones([office]) == [Zone("p", "Garage", 5)];
    assert MissingReferences([office], request) == [];
    var stored := [first, second];
    assert stored[1].id == "r2" && stored[0].id != "r2";
    assert ReservationIndexById(stored, "r2") == Some(1);
  }

  /** The reference checks: one message per unresolved reference, in order. */
  method CollectErrors(offices: seq<Office>, request: ManageReservationCommand) returns (errorMessages: seq<string>)
    ensures errorMessages == ErrorList(Message, MissingReferences(offices, request))
  {
    var office := ResolveOffice(offices, request.officeId);
    var officeZone := ResolveOfficeZone(offices, request.officeZoneId);
    var parkingZone: Option<Zone> := None;
    if request.parkingZoneId.Some? {
      parkingZone := ResolveParkingZone(offices, request.parkingZoneId);
    }
    errorMessages := [];
    ghost var missing: seq<MissingReference> := [];
    errorMessages, missing :=
      AddErrorIf(office.None?, errorMessages, missing, Message, MissingOffice(request.officeId));
    errorMessages, missing :=
      AddErrorIf(officeZone.None?, errorMessages, missing, Message, MissingOfficeZone(request.officeZoneId));
    if request.parkingZoneId.Some? {
      errorMessages, missing :=
        AddErrorIf(parkingZone.None?, errorMessages, missing, Message, MissingParkingZone(request.parkingZoneId.value));
    }
  }

  method Handle(db: Database, request: ManageReservationCommand, newReservationId: Guid, saveFails: bool, navigationWins: bool)
    returns (response: Response)
    requires db.Valid()
    requires HandleRequires(db.cities, db.offices, db.reservations, request, newReservationId)
    modifies db
    ensures db.Valid()
    ensures (response, db.reservations) == Outcome(old(db.cities), old(db.offices), old(db.reservations), request, newReservationId, saveFails, navigationWins)
    ensures db.cities == old(db.cities) && db.offices == old(db.offices)
  {
    var isAdding := request.id == EmptyGuid;
    var errorMessages := CollectErrors(db.offices, request);
    if |errorMessages| > 0 {
      return Returned(BadRequestList(errorMessages));
    }
    var office := ResolveOffice(db.offices, request.officeId).value;
    var city := CityOf(db.cities, office);
    var officeZone := ResolveOfficeZone(db.offices, request.officeZoneId).value;
    var parkingZone := ResolveParkingZone(db.offices, request.parkingZoneId);
    if isAdding {
      response := Create(db, request, newReservationId, saveFails, office, city, officeZone, parkingZone);
    } else {
      response := Update(db, request, saveFails, navigationWins, office, city, officeZone, parkingZone);
    }
  }

  method Create(db: Database, request: ManageReservationCommand, newReservationId: Guid, saveFails: bool,
                office: Office, city: City, officeZone: Zone, parkingZone: Option<Zone>)
    returns (response: Response)
    requires db.Valid()
    requires newReservationId != EmptyGuid && ReservationIndexById(db.reservations, newReservationId).None?
    requires city.id == office.cityId
    requires request.parkingZoneId.Some? ==> parkingZone.Some?
    modifies db
    ensures db.Valid()
    ensures (response, db.reservations) == CreateOutcome(old(db.reservations), request, newReservationId, saveFails, office, city, officeZone, parkingZone)
    ensures db.cities == old(db.cities) && db.offices == old(db.offices)
  {
    var reservation := Reservation(newReservationId, request.date, request.officeId, request.officeZoneId,
                                   request.officeDesk, None, request.parkingSpace, request.userEmail);
    if request.parkingZoneId.Some? {
      reservation := reservation.(parkingZoneId := request.parkingZoneId);
    }
    assert reservation == NewReservation(request, newReservationId);
    if exists r | r in db.reservations :: Conflicts(r, reservation) {
      return Returned(BadRequestList([SeatTakenMessage]));
    }
    if saveFails {
      return Returned(BadRequestList([AddFailedMessage]));
    }
    InvariantAfterReservationAppend(db.cities, db.offices, db.reservations, reservation);
    db.reservations := db.reservations + [reservation];
    response := Returned(OkWith(ToReservationModel(reservation, office, city, officeZone, parkingZone)));
  }

  method Update(db: Database, request: ManageReservationCommand, saveFails: bool, navigationWins: bool,
                office: Office, city: City, officeZone: Zone, parkingZone: Option<Zone>)
    returns (response: Response)
    requires db.Valid()
    requires city.id == office.cityId
    modifies db
    ensures db.Valid()
    ensures (response, db.reservations) == UpdateOutcome(old(db.offices), old(db.reservations), request, saveFails, navigationWins,
                                                          office, city, officeZone, parkingZone)
    ensures db.cities == old(db.cities) && db.offices == old(db.offices)
  {
    var found := ReservationIndexById(db.reservations, request.id);
    if found.None? {
      return Returned(BadRequestList([ReservationMissingMessage(request.id)]));
    }
    var i := found.value;
    var reservation := db.reservations[i];
    reservation := reservation.(date := request.date);
    reservation := reservation.(officeId := request.officeId);
    reservation := reservation.(officeZoneId := request.officeZoneId);
    reservation := reservation.(parkingZoneId := Some(request.officeZoneId));
    reservation := reservation.(userEmail := request.userEmail);
    assert reservation == Overwrite(db.reservations[i], request);
    if navigationWins && parkingZone.Some? {
      // the change tracker takes the key of the parking zone navigation
      reservation := reservation.(parkingZoneId := Some(parkingZone.value.id));
    }
    if saveFails || !ParkingZoneReferenced(db.offices, reservation) {
      return Returned(BadRequestList([EditFailedMessage]));
    }
    InvariantAfterReservationUpdate(db.cities, db.offices, db.reservations, i, reservation);
    db.reservations := db.reservations[i := reservation];
    if reservation.parkingZoneId.Some? && parkingZone.None? {
      // the projection reads the parking zone navigation, which is null here
      return NullDereference;
    }
    response := Returned(OkWith(ToReservationModel(reservation, office, city, officeZone, parkingZone)));
  }
}
