/** `DeleteOfficeCommandHandler.Handle`: the office's author may remove it. */
module DeleteOffice {
  import opened Wrappers
  import opened Results
  import opened Entities
  import opened Store

  /** The command's own `AuthorEmail` property is never read; only `UserEmail` is. */
  datatype DeleteOfficeCommand = DeleteOfficeCommand(id: Guid, userEmail: string)

  /** The handler's result and the `Offices` table afterwards. A caller who
      is not the author gets a BadRequest with an empty error list. */
  function Outcome(offices: seq<Office>, request: DeleteOfficeCommand, saveFails: bool): (o: (Result<()>, seq<Office>))
    ensures o.0.Consistent() && o.0.data == None
    ensures o.0.codeResult == ResultCode.Ok ==> |o.1| == |offices| - 1 && !saveFails
    ensures o.0.codeResult != ResultCode.Ok ==> o.1 == offices
    ensures o.0.codeResult == ResultCode.NotFound <==> OfficeIndexById(offices, request.id).None?
  {
    match OfficeIndexById(offices, request.id)
    case None => (NotFoundId(request.id), offices)
    case Some(i) =>
      if offices[i].authorEmail == request.userEmail then
        if saveFails then (BadRequestList([SaveFailedMessage]), offices)
        else (OkResult(), RemoveAt(offices, i))
      else
        (BadRequestList([]), offices)
  }

  /** With distinct keys: the result is NotFound exactly when no office has
      the id, a BadRequest without errors exactly when the caller is not the
      office's author, and any rejection leaves the table unchanged. */
  lemma RejectionsIff(offices: seq<Office>, request: DeleteOfficeCommand, saveFails: bool)
    requires DistinctOfficeIds(offices)
    ensures var (r, after) := Outcome(offices, request, saveFails);
      && (r.codeResult == ResultCode.NotFound <==> forall o | o in offices :: o.id != request.id)
      && (r.codeResult == ResultCode.NotFound ==> r.errors == Some([NoObjectMessage(request.id)]))
      && (r.errors == Some([]) <==>
            exists o | o in offices :: o.id == request.id && o.authorEmail != request.userEmail)
      && (r.codeResult != ResultCode.Ok ==> after == offices && r.data == None)
  {
    var found := OfficeIndexById(offices, request.id);
    if found.Some? {
      var i := found.value;
      assert offices[i] in offices;
      forall o | o in offices && o.id == request.id ensures o == offices[i] {
        var k :| 0 <= k < |offices| && offices[k] == o;
        assert !(i < k) && !(k < i);
      }
    } else {
      forall o | o in offices ensures o.id != request.id {
        var k :| 0 <= k < |offices| && offices[k] == o;
      }
    }
  }

  /** With distinct keys, a delete by the author that saves removes exactly
      the office with that id and keeps the others in order; nothing else
      succeeds. */
  lemma AuthorDeletesExactlyOne(offices: seq<Office>, request: DeleteOfficeCommand, saveFails: bool)
    requires DistinctOfficeIds(offices)
    ensures var (r, after) := Outcome(offices, request, saveFails);
      && (r.codeResult == ResultCode.Ok <==>
            !saveFails && exists o | o in offices :: o.id == request.id && o.authorEmail == request.userEmail)
      && (r.codeResult == ResultCode.Ok ==>
            && r == OkResult()
            && |after| == |offices| - 1
            && (forall o :: o in after <==> o in offices && o.id != request.id))
  {
    var (r, after) := Outcome(offices, request, saveFails);
    var found := OfficeIndexById(offices, request.id);
    if found.Some? {
      var i := found.value;
      assert offices[i] in offices;
      forall o | o in offices && o.id == request.id ensures o == offices[i] {
        var k :| 0 <= k < |offices| && offices[k] == o;
        assert !(i < k) && !(k < i);
      }
      RemovedExactlyOne(offices, (o: Office) => o.id, i);
    }
  }

  method Handle(db: Database, request: DeleteOfficeCommand, saveFails: bool) returns (result: Result<()>)
    requires db.Valid()
    modifies db
    ensures db.Valid()
    ensures (result, db.offices) == Outcome(old(db.offices), request, saveFails)
    ensures db.cities == old(db.cities) && db.reservations == old(db.reservations)
  {
    var found := OfficeIndexById(db.offices, request.id);
    if found.None? {
      return NotFoundId(request.id);
    }
    var office := db.offices[found.value];
    var errorMessages: seq<string> := [];
    if office.authorEmail == request.userEmail {
      if saveFails {
        return BadRequestList([SaveFailedMessage]);
      }
      InvariantAfterOfficeRemoval(db.cities, db.offices, db.reservations, found.value);
      db.offices := RemoveAt(db.offices, found.value);
    } else {
      return BadRequestList(errorMessages);
    }
    result := OkResult();
  }
}
