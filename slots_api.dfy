/**
  /api/slots: GET lists slots filtered by coach and booked state; POST publishes a
  two-hour slot for a coach.
 */
module SlotsApi {
  import opened Wrappers
  import opened Js
  import opened Db
  import opened Http

  /**
    A request to /api/slots. `startMillis` is `new Date(startTime).getTime()` with
    None for NaN: how JavaScript parses date strings is not part of this model.
   */
  datatype Request = Request(
    httpMethod: string,
    queryCoachId: Query,
    queryIsBooked: Query,
    startTime: JsValue,
    startMillis: Option<int>,
    coachId: JsValue)

  /** The time value of a `Date` object always lies within the `Date` range. */
  predicate DateDecoded(startMillis: Option<int>)
  {
    startMillis.Some? ==> ValidTime(startMillis.value)
  }

  // ---------------------------------------------------------------- GET

  /** The `where` clause of the listing query; None leaves that column unfiltered. */
  datatype SlotFilter = SlotFilter(coachId: Option<int>, isBooked: Option<bool>)

  /**
    Decodes the query: a present, non-empty coachId must parse as an integer (else
    None, answered with 400); any present isBooked means true exactly when it is "true".
   */
  function DecodeFilter(coachQ: Query, isBookedQ: Query): Option<SlotFilter>
  {
    var coachId := QueryValue(coachQ);
    var isBooked := QueryValue(isBookedQ);
    if Truthy(coachId) && ParseInt(coachId).None? then None
    else Some(SlotFilter(
      if Truthy(coachId) then ParseInt(coachId) else None,
      if isBooked.Undefined? then None else Some(isBooked == Str("true"))))
  }

  predicate Matches(s: Slot, f: SlotFilter)
  {
    && (f.coachId.Some? ==> s.coachId == f.coachId.value)
    && (f.isBooked.Some? ==> s.isBooked == f.isBooked.value)
  }

  /** `prisma.slot.findMany({ where })`. */
  function FindSlots(t: Tables, f: SlotFilter): map<int, Slot>
  {
    map id | id in t.slots && Matches(t.slots[id], f) :: t.slots[id]
  }

  /** handleGetSlots. */
  function GetSlots(t: Tables, coachQ: Query, isBookedQ: Query): (r: Response)
    ensures r.Response? && r.allow == []
    ensures r.status == 200 || r == Response(400, [], ErrorBody(InvalidCoachId))
    ensures r.status == 200 ==> r.body.SlotList? && r.body.slots.Keys <= t.slots.Keys
  {
    match DecodeFilter(coachQ, isBookedQ)
    case None => Response(400, [], ErrorBody(InvalidCoachId))
    case Some(f) => Response(200, [], SlotList(FindSlots(t, f)))
  }

  // ---------------------------------------------------------------- POST

  /** handleCreateSlot, as a function of the database before the request. */
  function CreateSlot(t: Tables, startTime: JsValue, startMillis: Option<int>, coachId: JsValue): (o: Outcome)
    ensures o.response.Response? && o.response.status in {201, 400, 404, 500}
    ensures o.response.status != 201 ==> o.tables == t
    ensures o.response.status == 201 ==>
      o.response.body.SlotCreated? && o.response.body.id == t.nextSlotId && o.tables == AddSlot(t, o.response.body.slot)
  {
    if !Truthy(startTime) then Fail(t, 400, StartTimeRequired)
    else if !Truthy(coachId) then Fail(t, 400, CoachIdRequired)
    else if startMillis.None? then Fail(t, 400, InvalidStartTimeFormat)
    else if ParseInt(coachId).None? then Fail(t, 400, InvalidCoachId)
    else
      var coach := ParseInt(coachId).value;
      if coach !in t.users || !t.users[coach].isCoach then Fail(t, 404, CoachNotFound)
      else
        var start := startMillis.value;
        var end := start + TwoHoursMs;
        // an end beyond the Date range is an invalid Date, which Prisma refuses to store
        if !ValidTime(end) then Fail(t, 500, ErrorCreatingSlot)
        else
          var slot := Slot(start, end, false, coach);
          Outcome(AddSlot(t, slot), Response(201, [], SlotCreated(t.nextSlotId, slot)))
  }

  /** The route's `handler`: dispatch on the HTTP method. */
  function Route(t: Tables, req: Request): (o: Outcome)
    ensures req.httpMethod != "POST" ==> o.tables == t
  {
    if req.httpMethod == "GET" then Outcome(t, GetSlots(t, req.queryCoachId, req.queryIsBooked))
    else if req.httpMethod == "POST" then CreateSlot(t, req.startTime, req.startMillis, req.coachId)
    else Outcome(t, MethodNotAllowed(req.httpMethod, ["GET", "POST"]))
  }

  // ---------------------------------------------------------------- the handlers

  method HandleCreateSlot(db: Store, startTime: JsValue, startMillis: Option<int>, coachId: JsValue)
    returns (resp: Response)
    requires DateDecoded(startMillis)
    modifies db
    ensures Outcome(db.Snapshot(), resp) == CreateSlot(old(db.Snapshot()), startTime, startMillis, coachId)
  {
    if !Truthy(startTime) {
      return Response(400, [], ErrorBody(StartTimeRequired));
    }
    if !Truthy(coachId) {
      return Response(400, [], ErrorBody(CoachIdRequired));
    }
    if startMillis.None? {
      return Response(400, [], ErrorBody(InvalidStartTimeFormat));
    }
    var coachIdNumber := ParseInt(coachId);
    if coachIdNumber.None? {
      return Response(400, [], ErrorBody(InvalidCoachId));
    }
    var coach := coachIdNumber.value;
    if coach !in db.users || !db.users[coach].isCoach {
      return Response(404, [], ErrorBody(CoachNotFound));
    }
    var start := startMillis.value;
    var end := start + TwoHoursMs;
    if !ValidTime(end) {
      return Response(500, [], ErrorBody(ErrorCreatingSlot));
    }
    var slot := Slot(start, end, false, coach);
    var id := db.InsertSlot(slot);
    resp := Response(201, [], SlotCreated(id, slot));
  }

  method Handler(db: Store, req: Request) returns (resp: Response)
    requires db.Valid() && DateDecoded(req.startMillis)
    modifies db
    ensures db.Valid()
    ensures Outcome(db.Snapshot(), resp) == Route(old(db.Snapshot()), req)
  {
    ghost var before := db.Snapshot();
    if req.httpMethod == "GET" {
      resp := GetSlots(db.Snapshot(), req.queryCoachId, req.queryIsBooked);
    } else if req.httpMethod == "POST" {
      resp := HandleCreateSlot(db, req.startTime, req.startMillis, req.coachId);
    } else {
      resp := MethodNotAllowed(req.httpMethod, ["GET", "POST"]);
    }
    RouteKeepsConsistent(before, req);
  }

  // ---------------------------------------------------------------- properties

  /** A coachId that is present but not a number is refused with 400. */
  lemma GetSlotsRejectsNonNumericCoach(t: Tables, coachQ: Query, isBookedQ: Query)
    requires Truthy(QueryValue(coachQ)) && ParseInt(QueryValue(coachQ)).None?
    ensures GetSlots(t, coachQ, isBookedQ) == Response(400, [], ErrorBody(InvalidCoachId))
  {
  }

  /**
    Otherwise GET answers 200 with exactly the slots of the given coach (when a
    coachId is given) whose booked flag is `isBooked == "true"` (when isBooked is given).
   */
  lemma GetSlotsReturnsExactlyMatching(t: Tables, coachQ: Query, isBookedQ: Query)
    requires !(Truthy(QueryValue(coachQ)) && ParseInt(QueryValue(coachQ)).None?)
    ensures var r := GetSlots(t, coachQ, isBookedQ);
      var coachId := QueryValue(coachQ);
      var isBooked := QueryValue(isBookedQ);
      && r.Response? && r.status == 200 && r.body.SlotList?
      && (forall id :: id in r.body.slots <==>
            && id in t.slots
            && (Truthy(coachId) ==> ParseInt(coachId) == Some(t.slots[id].coachId))
            && (isBooked.Str? ==> (t.slots[id].isBooked <==> isBooked.s == "true")))
      && (forall id :: id in r.body.slots ==> r.body.slots[id] == t.slots[id])
  {
  }

  /**
    For one coach query, the "true" listing and any other isBooked listing split the
    unfiltered listing between them.
   */
  lemma BookedListingsPartition(t: Tables, coachQ: Query, other: string)
    requires other != "true"
    requires GetSlots(t, coachQ, Absent).status == 200
    ensures var all := GetSlots(t, coachQ, Absent).body.slots;
      var booked := GetSlots(t, coachQ, Single("true")).body.slots;
      var free := GetSlots(t, coachQ, Single(other)).body.slots;
      && booked.Keys !! free.Keys
      && booked.Keys + free.Keys == all.Keys
      && booked + free == all
  {
    var f := DecodeFilter(coachQ, Absent).value;
    var all := FindSlots(t, f);
    var booked := FindSlots(t, f.(isBooked := Some(true)));
    var free := FindSlots(t, f.(isBooked := Some(false)));
    assert DecodeFilter(coachQ, Single("true")) == Some(f.(isBooked := Some(true)));
    assert Str(other) != Str("true");
    assert DecodeFilter(coachQ, Single(other)) == Some(f.(isBooked := Some(false)));
    assert f.isBooked == None;
    forall id | id in booked ensures id !in free {
      assert t.slots[id].isBooked;
    }
    forall id | id in all ensures id in booked || id in free {
      if t.slots[id].isBooked { assert id in booked; } else { assert id in free; }
    }
    forall id | id in booked + free ensures id in all && (booked + free)[id] == all[id] {
      assert id in t.slots && Matches(t.slots[id], f);
    }
    assert (booked + free).Keys == all.Keys;
    assert booked + free == all;
    assert GetSlots(t, coachQ, Absent).body.slots == all;
    assert GetSlots(t, coachQ, Single("true")).body.slots == booked;
    assert GetSlots(t, coachQ, Single(other)).body.slots == free;
  }

  /** In a consistent database, every slot listed as booked has exactly one booking. */
  lemma BookedListingHasOneBooking(t: Tables, coachQ: Query)
    requires Consistent(t)
    requires GetSlots(t, coachQ, Single("true")).status == 200
    ensures var booked := GetSlots(t, coachQ, Single("true")).body.slots;
      forall id :: id in booked ==> id in t.slots && |BookingsOf(t, id)| == 1
  {
    var booked := GetSlots(t, coachQ, Single("true")).body.slots;
    forall id | id in booked ensures id in t.slots && |BookingsOf(t, id)| == 1 {
      BookedIffExactlyOneBooking(t, id);
    }
  }

  /**
    POST validates in a fixed order -- startTime present, coachId present, startTime
    a date, coachId a number -- before it reads the database, and answers the first
    failure with 400.
   */
  lemma CreateSlotValidationOrder(t: Tables, startTime: JsValue, startMillis: Option<int>, coachId: JsValue)
    ensures var o := CreateSlot(t, startTime, startMillis, coachId);
      && (!Truthy(startTime) ==> o == Fail(t, 400, StartTimeRequired))
      && (Truthy(startTime) && !Truthy(coachId) ==> o == Fail(t, 400, CoachIdRequired))
      && (Truthy(startTime) && Truthy(coachId) && startMillis.None? ==>
            o == Fail(t, 400, InvalidStartTimeFormat))
      && (Truthy(startTime) && Truthy(coachId) && startMillis.Some? && ParseInt(coachId).None? ==>
            o == Fail(t, 400, InvalidCoachId))
  {
  }

  /** A coachId naming no user, or a user who is not a coach, gets 404 and creates nothing. */
  lemma CreateSlotNeedsCoach(t: Tables, startTime: JsValue, startMillis: Option<int>, coachId: JsValue)
    requires Truthy(startTime) && Truthy(coachId) && startMillis.Some? && ParseInt(coachId).Some?
    requires var c := ParseInt(coachId).value; c !in t.users || !t.users[c].isCoach
    ensures CreateSlot(t, startTime, startMillis, coachId) == Fail(t, 404, CoachNotFound)
  {
  }

  /**
    POST succeeds exactly when the input is valid and names a coach, and then adds one
    unbooked slot owned by that coach that ends exactly two hours after it starts,
    returns it with 201, and changes nothing else.
   */
  lemma CreateSlotSucceedsIff(t: Tables, startTime: JsValue, startMillis: Option<int>, coachId: JsValue)
    requires DateDecoded(startMillis)
    ensures var o := CreateSlot(t, startTime, startMillis, coachId);
      o.response.status == 201 <==>
        && Truthy(startTime) && Truthy(coachId) && startMillis.Some? && ParseInt(coachId).Some?
        && ParseInt(coachId).value in t.users && t.users[ParseInt(coachId).value].isCoach
        && startMillis.value + 7_200_000 <= MaxTimeMs
    ensures var o := CreateSlot(t, startTime, startMillis, coachId);
      o.response.status == 201 ==>
        var slot := Slot(startMillis.value, startMillis.value + 7_200_000, false, ParseInt(coachId).value);
        && o.tables.slots == t.slots[t.nextSlotId := slot]
        && o.tables.users == t.users && o.tables.bookings == t.bookings && o.tables.calls == t.calls
        && o.response.body == SlotCreated(t.nextSlotId, slot)
  {
  }

  /** There is no overlap check: whether POST succeeds does not depend on the slots already stored. */
  lemma CreateSlotIgnoresExistingSlots(t1: Tables, t2: Tables, startTime: JsValue, startMillis: Option<int>, coachId: JsValue)
    requires t1.users == t2.users
    ensures CreateSlot(t1, startTime, startMillis, coachId).response.status
         == CreateSlot(t2, startTime, startMillis, coachId).response.status
  {
  }

  /** Every request either publishes a slot with 201 or leaves the database as it was. */
  lemma RouteChangesOnlyOnCreate(t: Tables, req: Request)
    ensures var o := Route(t, req);
      o.tables != t ==> req.httpMethod == "POST" && o.response.status == 201
    ensures req.httpMethod != "GET" && req.httpMethod != "POST" ==>
      Route(t, req) == Outcome(t, Response(405, ["GET", "POST"], NotAllowedText("Method " + req.httpMethod + " Not Allowed")))
  {
  }

  /** Publishing a slot keeps the database consistent; in particular every slot still lasts two hours. */
  lemma RouteKeepsConsistent(t: Tables, req: Request)
    requires Consistent(t) && DateDecoded(req.startMillis)
    ensures Consistent(Route(t, req).tables)
    ensures forall id :: id in Route(t, req).tables.slots ==>
      Route(t, req).tables.slots[id].endTime - Route(t, req).tables.slots[id].startTime == 7_200_000
  {
    var o := CreateSlot(t, req.startTime, req.startMillis, req.coachId);
    if req.httpMethod == "POST" && o.response.status == 201 {
      var slot := Slot(req.startMillis.value, req.startMillis.value + TwoHoursMs, false, ParseInt(req.coachId).value);
      AddSlotKeepsConsistent(t, slot);
    }
  }
}
