/**
  /api/bookings: a student books a published slot. The checks run in a fixed
  order, and a single transaction then inserts the booking and flags its slot.
 */
module BookingsApi {
  import opened Wrappers
  import opened Js
  import opened Db
  import opened Http

  /** `req.method` and the two fields of `req.body` the handler reads. */
  datatype Request = Request(httpMethod: string, slotId: JsValue, studentId: JsValue)

  /** `handleCreateBooking`: both ids must be present and readable by `parseInt`. */
  function CreateBooking(t: Tables, slotId: JsValue, studentId: JsValue): (o: Outcome)
    ensures o.response.Response? && o.response.status in {201, 400, 404, 500}
    ensures o.response.status != 201 ==> o.tables == t
    ensures o.response.status == 201 ==> o.response.body.BookingCreated? && o.response.body.booking.id == t.nextBookingId
  {
    if !Truthy(slotId) || !Truthy(studentId) then Fail(t, 400, SlotIdAndStudentIdRequired)
    else
      var slotNumber, studentNumber := ParseInt(slotId), ParseInt(studentId);
      if slotNumber.None? || studentNumber.None? then Fail(t, 400, InvalidSlotIdOrStudentId)
      else BookSlot(t, slotNumber.value, studentNumber.value)
  }

  /**
    The rest of `handleCreateBooking`, once the ids are numbers. The slot is read
    together with its coach; a slot whose coach row is missing makes that read fail
    with 500 (a consistent database has none). The student is looked up only once
    the slot is known to be free, and may be any user, coach or not.
   */
  function BookSlot(t: Tables, s: int, u: int): (o: Outcome)
    ensures o.response.Response? && o.response.status in {201, 400, 404, 500}
    ensures o.response.status != 201 ==> o.tables == t
    ensures o.response.status == 201 ==>
      && o.response.body.BookingCreated? && o.response.body.booking.id == t.nextBookingId
      && s in t.slots && o.tables == Book(t, s, u)
  {
    if s !in t.slots then Fail(t, 404, SlotNotFound)
    else if t.slots[s].coachId !in t.users then Fail(t, 500, ErrorCreatingBooking)
    else if t.slots[s].isBooked then Fail(t, 400, SlotAlreadyBooked)
    else if u !in t.users then Fail(t, 404, StudentNotFound)
    else
      var slot, coach, student := t.slots[s], t.users[t.slots[s].coachId], t.users[u];
      var view := BookingView(t.nextBookingId, coach.name, coach.phone, student.name, student.phone,
                              s, slot.startTime, slot.endTime);
      Outcome(Book(t, s, u), Response(201, [], BookingCreated(view)))
  }

  /** The route's `handler`. GET goes to `handleGetBookings`, whose body is empty: it never answers. */
  function Route(t: Tables, req: Request): (o: Outcome)
    ensures req.httpMethod != "POST" ==> o.tables == t
  {
    if req.httpMethod == "GET" then Outcome(t, NoResponse)
    else if req.httpMethod == "POST" then CreateBooking(t, req.slotId, req.studentId)
    else Outcome(t, MethodNotAllowed(req.httpMethod, ["GET", "POST"]))
  }

  method HandleCreateBooking(db: Store, slotId: JsValue, studentId: JsValue) returns (resp: Response)
    modifies db
    ensures Outcome(db.Snapshot(), resp) == CreateBooking(old(db.Snapshot()), slotId, studentId)
  {
    if !Truthy(slotId) || !Truthy(studentId) {
      return Response(400, [], ErrorBody(SlotIdAndStudentIdRequired));
    }
    var slotNumber := ParseInt(slotId);
    var studentNumber := ParseInt(studentId);
    if slotNumber.None? || studentNumber.None? {
      return Response(400, [], ErrorBody(InvalidSlotIdOrStudentId));
    }
    var s, u := slotNumber.value, studentNumber.value;
    if s !in db.slots {
      return Response(404, [], ErrorBody(SlotNotFound));
    }
    var slot := db.slots[s];
    if slot.coachId !in db.users {
      return Response(500, [], ErrorBody(ErrorCreatingBooking));
    }
    if slot.isBooked {
      return Response(400, [], ErrorBody(SlotAlreadyBooked));
    }
    if u !in db.users {
      return Response(404, [], ErrorBody(StudentNotFound));
    }
    var coach, student := db.users[slot.coachId], db.users[u];
    // the transaction: both writes happen, in this order
    var id := db.InsertBooking(Booking(s, u));
    db.SetBooked(s);
    resp := Response(201, [], BookingCreated(BookingView(id, coach.name, coach.phone, student.name, student.phone,
                                                         s, slot.startTime, slot.endTime)));
  }

  method Handler(db: Store, req: Request) returns (resp: Response)
    requires db.Valid()
    modifies db
    ensures db.Valid()
    ensures Outcome(db.Snapshot(), resp) == Route(old(db.Snapshot()), req)
  {
    ghost var before := db.Snapshot();
    if req.httpMethod == "GET" {
      resp := NoResponse;
    } else if req.httpMethod == "POST" {
      resp := HandleCreateBooking(db, req.slotId, req.studentId);
    } else {
      resp := MethodNotAllowed(req.httpMethod, ["GET", "POST"]);
    }
    RouteKeepsConsistent(before, req);
  }

  // ---------------------------------------------------------------- properties

  /**
    A missing slotId or studentId is 400, and so is one `parseInt` cannot read;
    neither looks at the database or changes it. Readable ids go on to the lookups.
   */
  lemma CreateBookingValidation(t: Tables, slotId: JsValue, studentId: JsValue)
    ensures !Truthy(slotId) || !Truthy(studentId) ==>
      CreateBooking(t, slotId, studentId) == Fail(t, 400, SlotIdAndStudentIdRequired)
    ensures Truthy(slotId) && Truthy(studentId) && (ParseInt(slotId).None? || ParseInt(studentId).None?) ==>
      CreateBooking(t, slotId, studentId) == Fail(t, 400, InvalidSlotIdOrStudentId)
    ensures Truthy(slotId) && Truthy(studentId) && ParseInt(slotId).Some? && ParseInt(studentId).Some? ==>
      CreateBooking(t, slotId, studentId) == BookSlot(t, ParseInt(slotId).value, ParseInt(studentId).value)
  {
  }

  /**
    Ids sent as JSON numbers below 10^21 in magnitude are read as those numbers
    (0 counts as missing); larger ones are covered by LargeSlotIdReadAsLeadingDigit.
   */
  lemma NumericIdsAreRead(t: Tables, slot: int, student: int)
    requires slot != 0 && student != 0
    requires -ExponentFrom < slot < ExponentFrom && -ExponentFrom < student < ExponentFrom
    ensures CreateBooking(t, Num(slot), Num(student)) == BookSlot(t, slot, student)
  {
    ParseIntOfNumber(slot);
    ParseIntOfNumber(student);
    CreateBookingValidation(t, Num(slot), Num(student));
  }

  /**
    A slot id sent as a JSON number of 10^21 or more is written in exponent
    notation before `parseInt` reads it, so only its leading digit is used:
    `{ slotId: 1e21 }` books slot 1.
   */
  lemma LargeSlotIdReadAsLeadingDigit(t: Tables, slot: int, student: int)
    requires slot >= ExponentFrom
    requires student != 0 && -ExponentFrom < student < ExponentFrom
    ensures CreateBooking(t, Num(slot), Num(student)) == BookSlot(t, LeadingDigit(slot), student)
  {
    ParseIntOfLargeNumber(slot);
    ParseIntOfNumber(student);
    CreateBookingValidation(t, Num(slot), Num(student));
  }

  /** `{ slotId: 1e21 }` books slot 1, as does every larger power of ten. */
  lemma PowerOfTenBooksSlotOne(t: Tables, k: nat, student: int)
    requires k >= 21
    requires student != 0 && -ExponentFrom < student < ExponentFrom
    ensures CreateBooking(t, Num(Pow10(k)), Num(student)) == BookSlot(t, 1, student)
  {
    Pow10Grows(k);
    LeadingDigitOfPow10(k);
    LargeSlotIdReadAsLeadingDigit(t, Pow10(k), student);
  }

  /** Text that starts with the digits of an id is read as that id: "12abc" books slot 12. */
  lemma LeadingDigitsAreRead(t: Tables, slot: nat, rest: string, student: int)
    requires student != 0 && -ExponentFrom < student < ExponentFrom
    requires rest == [] || !IsDigit(rest[0])
    ensures CreateBooking(t, Str(Digits(slot) + rest), Num(student)) == BookSlot(t, slot, student)
  {
    ParseIntOfNumber(student);
    DigitsRoundTrip(slot);
    ParseIntStopsAtNonDigit(Digits(slot), rest);
    assert ParseInt(Str(Digits(slot) + rest)) == Some(slot);
    CreateBookingValidation(t, Str(Digits(slot) + rest), Num(student));
  }

  /**
    The lookups run in order: a missing slot is 404 whatever the student; a booked
    slot is 400 even when the student does not exist; only a free slot gets the
    student looked up, and then any existing user may book it, coach or not.
   */
  lemma BookSlotLookupOrder(t: Tables, s: int, u: int)
    requires SlotsWellFormed(t)
    ensures s !in t.slots ==> BookSlot(t, s, u) == Fail(t, 404, SlotNotFound)
    ensures s in t.slots && t.slots[s].isBooked ==> BookSlot(t, s, u) == Fail(t, 400, SlotAlreadyBooked)
    ensures s in t.slots && !t.slots[s].isBooked && u !in t.users ==> BookSlot(t, s, u) == Fail(t, 404, StudentNotFound)
    ensures s in t.slots && !t.slots[s].isBooked && u in t.users ==> BookSlot(t, s, u).response.status == 201
  {
    if s in t.slots {
      assert SlotWellFormed(t.slots[s], t.users);
    }
  }

  /**
    In a consistent database booking slot `s` for user `u` succeeds exactly when
    the slot exists and is free and the user exists. It then adds exactly one
    booking, for that slot and that user, under a fresh booking id, and flags that
    slot booked; nothing else changes. Every other outcome leaves the database as
    it was.
   */
  lemma BookSlotSucceedsIff(t: Tables, s: int, u: int)
    requires Consistent(t)
    ensures BookSlot(t, s, u).response.status == 201 <==> s in t.slots && !t.slots[s].isBooked && u in t.users
    ensures BookSlot(t, s, u).response.status == 201 ==>
        var t' := BookSlot(t, s, u).tables;
        && t'.bookings == t.bookings[t.nextBookingId := Booking(s, u)]
        && t.nextBookingId !in t.bookings
        && t'.slots == t.slots[s := t.slots[s].(isBooked := true)]
        && t'.users == t.users && t'.calls == t.calls
        && t'.nextSlotId == t.nextSlotId && t'.nextCallId == t.nextCallId
    ensures BookSlot(t, s, u).response.status != 201 ==> BookSlot(t, s, u).tables == t
  {
    if s in t.slots {
      assert SlotWellFormed(t.slots[s], t.users);
    }
  }

  /** The 201 body names the booked slot's coach, the student and the slot itself. */
  lemma CreatedViewDescribesBooking(t: Tables, s: int, u: int)
    requires BookSlot(t, s, u).response.status == 201
    ensures var o := BookSlot(t, s, u);
      && s in t.slots && u in t.users && t.slots[s].coachId in t.users
      && o.response.body.BookingCreated?
      && var v := o.response.body.booking;
      && v.id in o.tables.bookings && o.tables.bookings[v.id] == Booking(s, u)
      && v.slotId == s && v.startTime == t.slots[s].startTime && v.endTime == t.slots[s].endTime
      && v.coachName == t.users[t.slots[s].coachId].name && v.coachPhone == t.users[t.slots[s].coachId].phone
      && v.studentName == t.users[u].name && v.studentPhone == t.users[u].phone
  {
  }

  /** After a booking succeeds, its slot has exactly one booking in a consistent database. */
  lemma BookedSlotHasOneBooking(t: Tables, s: int, u: int)
    requires Consistent(t)
    requires BookSlot(t, s, u).response.status == 201
    ensures var t' := BookSlot(t, s, u).tables;
      s in t'.slots && t'.slots[s].isBooked && |BookingsOf(t', s)| == 1
  {
    BookKeepsConsistent(t, s, u);
    BookedIffExactlyOneBooking(Book(t, s, u), s);
  }

  /**
    Two successive bookings of the same slot cannot both succeed: the second one,
    by any user, is refused with 400 and changes nothing.
   */
  lemma NoDoubleBooking(t: Tables, s: int, u: int, u2: int)
    requires BookSlot(t, s, u).response.status == 201
    ensures var t1 := BookSlot(t, s, u).tables;
      BookSlot(t1, s, u2) == Fail(t1, 400, SlotAlreadyBooked)
  {
    var t1 := Book(t, s, u);
    assert t1.slots[s].isBooked && t1.slots[s].coachId == t.slots[s].coachId;
  }

  /** Every request keeps the database consistent; GET and unknown methods leave it untouched. */
  lemma RouteKeepsConsistent(t: Tables, req: Request)
    requires Consistent(t)
    ensures Consistent(Route(t, req).tables)
    ensures req.httpMethod != "POST" ==> Route(t, req).tables == t
    ensures req.httpMethod !in {"GET", "POST"} ==>
      Route(t, req).response == Response(405, ["GET", "POST"], NotAllowedText("Method " + req.httpMethod + " Not Allowed"))
  {
    if req.httpMethod == "POST" {
      CreateBookingValidation(t, req.slotId, req.studentId);
      if Truthy(req.slotId) && Truthy(req.studentId) && ParseInt(req.slotId).Some? && ParseInt(req.studentId).Some? {
        var s, u := ParseInt(req.slotId).value, ParseInt(req.studentId).value;
        if BookSlot(t, s, u).response.status == 201 {
          BookKeepsConsistent(t, s, u);
        }
      }
    }
  }
}
