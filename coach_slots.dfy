/**
  /coach/slots: the older slot-creation route. It builds the start from a date and
  a time, adds two hours, and stores the slot for whatever user id it is given;
  every failure inside it is answered with 400.
 */
module CoachSlotsRoute {
  import opened Wrappers
  import opened Js
  import opened Db
  import opened Http
  import SlotsApi

  /**
    A request to /coach/slots. `startMillis` is the time value of
    `new Date(`${date}T${time}`)`, None when that is an invalid date; how JavaScript
    parses the text is not part of this model.
   */
  datatype Request = Request(httpMethod: string, startMillis: Option<int>, coachId: JsValue)

  /**
    The body of the `try` block. Prisma refuses an invalid `Date` for either time,
    a `coachId` that is not an integer, and a `connect` to a user that does not
    exist; each refusal lands in the `catch`, which answers 400.
   */
  function CreateSlot(t: Tables, startMillis: Option<int>, coachId: JsValue): (o: Outcome)
    ensures o.response.Response? && o.response.status in {201, 400}
    ensures o.response.status != 201 ==> o.tables == t
    ensures o.response.status == 201 ==>
      o.response.body.SlotCreated? && o.response.body.id == t.nextSlotId && o.tables == AddSlot(t, o.response.body.slot)
  {
    if startMillis.None? || !ValidTime(startMillis.value + TwoHoursMs) then Fail(t, 400, FailedToCreateSlot)
    else if !coachId.Num? || coachId.n !in t.users then Fail(t, 400, FailedToCreateSlot)
    else
      var slot := Slot(startMillis.value, startMillis.value + TwoHoursMs, false, coachId.n);
      Outcome(AddSlot(t, slot), Response(201, [], SlotCreated(t.nextSlotId, slot)))
  }

  /** The route's `handler`: only POST is served. */
  function Route(t: Tables, req: Request): (o: Outcome)
    ensures req.httpMethod != "POST" ==> o.tables == t && o.response.Response? && o.response.status == 405
  {
    if req.httpMethod == "POST" then CreateSlot(t, req.startMillis, req.coachId)
    else Outcome(t, MethodNotAllowed(req.httpMethod, ["POST"]))
  }

  method Handler(db: Store, req: Request) returns (resp: Response)
    requires db.Valid() && SlotsApi.DateDecoded(req.startMillis)
    modifies db
    ensures db.Valid()
    ensures Outcome(db.Snapshot(), resp) == Route(old(db.Snapshot()), req)
  {
    if req.httpMethod != "POST" {
      return MethodNotAllowed(req.httpMethod, ["POST"]);
    }
    if req.startMillis.None? {
      return Response(400, [], ErrorBody(FailedToCreateSlot));
    }
    var startTime := req.startMillis.value;
    var endTime := startTime + TwoHoursMs;
    if !ValidTime(endTime) || !req.coachId.Num? || req.coachId.n !in db.users {
      return Response(400, [], ErrorBody(FailedToCreateSlot));
    }
    var slot := Slot(startTime, endTime, false, req.coachId.n);
    AddSlotKeepsConsistent(db.Snapshot(), slot);
    var id := db.InsertSlot(slot);
    resp := Response(201, [], SlotCreated(id, slot));
  }

  // ---------------------------------------------------------------- properties

  /** Anything but POST gets 405 with `Allow: POST` and changes nothing. */
  lemma OnlyPostIsServed(t: Tables, req: Request)
    requires req.httpMethod != "POST"
    ensures Route(t, req) == Outcome(t, Response(405, ["POST"], NotAllowedText("Method " + req.httpMethod + " Not Allowed")))
  {
  }

  /**
    POST succeeds exactly when the start is a valid date whose end is too and the
    coachId is the integer id of an existing user; the new slot then ends two hours
    after it starts, is unbooked, belongs to that user, and comes back with 201.
    Any failure is 400 and leaves the database as it was.
   */
  lemma CreateSlotSucceedsIff(t: Tables, startMillis: Option<int>, coachId: JsValue)
    requires SlotsApi.DateDecoded(startMillis)
    ensures var o := CreateSlot(t, startMillis, coachId);
      o.response.status == 201 <==>
        startMillis.Some? && startMillis.value + 7_200_000 <= MaxTimeMs && coachId.Num? && coachId.n in t.users
    ensures var o := CreateSlot(t, startMillis, coachId);
      o.response.status == 201 ==>
        var slot := Slot(startMillis.value, startMillis.value + 7_200_000, false, coachId.n);
        && o.tables.slots == t.slots[t.nextSlotId := slot]
        && o.tables.users == t.users && o.tables.bookings == t.bookings && o.tables.calls == t.calls
        && o.response.body == SlotCreated(t.nextSlotId, slot)
    ensures var o := CreateSlot(t, startMillis, coachId);
      o.response.status != 201 ==> o == Fail(t, 400, FailedToCreateSlot)
  {
  }

  /**
    Unlike /api/slots, this route does not check the role: for a user who is not a
    coach, /api/slots answers 404 while this route stores a slot owned by that user.
   */
  lemma SkipsCoachCheck(t: Tables, start: int, userId: int)
    requires ValidTime(start) && ValidTime(start + TwoHoursMs)
    requires userId != 0 && userId in t.users && !t.users[userId].isCoach
    requires -ExponentFrom < userId < ExponentFrom
    ensures SlotsApi.CreateSlot(t, Num(userId), Some(start), Num(userId)).response.status == 404
    ensures var o := Route(t, Request("POST", Some(start), Num(userId)));
      o.response.status == 201 && o.tables.slots[t.nextSlotId].coachId == userId
  {
    ParseIntOfNumber(userId);
  }

  /** The route keeps the database consistent; in particular every slot still lasts two hours. */
  lemma RouteKeepsConsistent(t: Tables, req: Request)
    requires Consistent(t) && SlotsApi.DateDecoded(req.startMillis)
    ensures Consistent(Route(t, req).tables)
  {
    if req.httpMethod == "POST" && CreateSlot(t, req.startMillis, req.coachId).response.status == 201 {
      var start := req.startMillis.value;
      AddSlotKeepsConsistent(t, Slot(start, start + TwoHoursMs, false, req.coachId.n));
    }
  }
}
