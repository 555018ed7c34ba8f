/** `DeleteReservationCommandHandler.Handle`: remove a reservation by id.
    The command carries no user, so there is no ownership check. */
module DeleteReservation {
  import opened Wrappers
  import opened Results
  import opened Entities
  import opened Store

  datatype DeleteReservationCommand = DeleteReservationCommand(id: Guid)

  const DeleteFailedMessage: string := "Error while deleting reservation."

  /** The handler's result and the `Reservations` table afterwards. */
  function Outcome(reservations: seq<Reservation>, request: DeleteReservationCommand, saveFails: bool)
    : (o: (Result<()>, seq<Reservation>))
    ensures o.0.Consistent() && o.0.data == None
    ensures o.0.codeResult == ResultCode.Ok <==> !saveFails && ReservationIndexById(reservations, request.id).Some?
    ensures o.0.codeResult == ResultCode.Ok ==> |o.1| == |reservations| - 1
    ensures o.0.codeResult != ResultCode.Ok ==> o.1 == reservations
  {
    match ReservationIndexById(reservations, request.id)
    case None => (NotFoundId(request.id), reservations)
    case Some(i) =>
      if saveFails then (BadRequestMessage(DeleteFailedMessage), reservations)
      else (OkResult(), RemoveAt(reservations, i))
  }

  /** With distinct keys, the delete succeeds exactly when a reservation has
      the id and the save succeeds, and then removes exactly that one; it is
      NotFound exactly when none has the id; a rejection changes nothing. */
  lemma DeletesExactlyOne(reservations: seq<Reservation>, request: DeleteReservationCommand, saveFails: bool)
    requires DistinctReservationIds(reservations)
    ensures var (r, after) := Outcome(reservations, request, saveFails);
      && (r.codeResult == ResultCode.NotFound <==> forall x | x in reservations :: x.id != request.id)
      && (r.codeResult == ResultCode.NotFound ==> r.errors == Some([NoObjectMessage(request.id)]))
      && (r.codeResult == ResultCode.Ok <==> !saveFails && exists x | x in reservations :: x.id == request.id)
      && (r.codeResult == ResultCode.Ok ==>
            && r == OkResult()
            && |after| == |reservations| - 1
            && (forall x :: x in after <==> x in reservations && x.id != request.id))
      && (r.codeResult != ResultCode.Ok ==> after == reservations && r.data == None)
  {
    var found := ReservationIndexById(reservations, request.id);
    if found.Some? {
      var i := found.value;
      assert reservations[i] in reservations;
      RemovedExactlyOne(reservations, (x: Reservation) => x.id, i);
    } else {
      forall x | x in reservations ensures x.id != request.id {
        var k :| 0 <= k < |reservations| && reservations[k] == x;
      }
    }
  }

  method Handle(db: Database, request: DeleteReservationCommand, saveFails: bool) returns (result: Result<()>)
    requires db.Valid()
    modifies db
    ensures db.Valid()
    ensures (result, db.reservations) == Outcome(old(db.reservations), request, saveFails)
    ensures db.cities == old(db.cities) && db.offices == old(db.offices)
  {
    var found := ReservationIndexById(db.reservations, request.id);
    if found.None? {
      return NotFoundId(request.id);
    }
    if saveFails {
      return BadRequestMessage(DeleteFailedMessage);
    }
    InvariantAfterReservationRemoval(db.cities, db.offices, db.reservations, found.value);
    db.reservations := RemoveAt(db.reservations, found.value);
    result := OkResult();
  }
}
