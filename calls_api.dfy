/**
  /api/calls: a coach records feedback on a booking (POST), and lists the
  feedback they have recorded, newest first (GET).
 */
module CallsApi {
  import opened Wrappers
  import opened Js
  import opened Db
  import opened Http

  /** `req.method`, `req.query.coachId`, and the four fields of `req.body` the POST reads. */
  datatype Request = Request(
    httpMethod: string,
    queryCoachId: Query,
    bookingId: JsValue,
    coachId: JsValue,
    satisfaction: JsValue,
    notes: JsValue)

  // ---------------------------------------------------------------- GET: listing

  /** The ids of the calls recorded by `coach`, among the ids `lo` up to but not including `hi`, in increasing order. */
  function CoachCallIds(calls: map<int, Call>, coach: int, lo: int, hi: int): (r: seq<int>)
    ensures forall i :: 0 <= i < |r| ==> lo <= r[i] < hi && r[i] in calls && calls[r[i]].coachId == coach
    ensures forall id :: lo <= id < hi && id in calls && calls[id].coachId == coach ==> id in r
    ensures forall x :: multiset(r)[x] <= 1
    decreases hi - lo
  {
    if lo >= hi then []
    else
      var rest := CoachCallIds(calls, coach, lo + 1, hi);
      if lo in calls && calls[lo].coachId == coach then
        assert lo !in rest;
        [lo] + rest
      else rest
  }

  /** Newest `createdAt` first. */
  predicate NewestFirst(calls: map<int, Call>, ids: seq<int>)
  {
    forall i, j :: 0 <= i < j < |ids| && ids[i] in calls && ids[j] in calls ==>
      calls[ids[i]].createdAt >= calls[ids[j]].createdAt
  }

  predicate AllIn(calls: map<int, Call>, ids: seq<int>)
  {
    forall i :: 0 <= i < |ids| ==> ids[i] in calls
  }

  /** Puts `id` in front of the first call of `sorted` that is not newer than it. */
  function InsertNewest(calls: map<int, Call>, id: int, sorted: seq<int>): (r: seq<int>)
    requires id in calls && AllIn(calls, sorted)
    ensures multiset(r) == multiset(sorted) + multiset{id}
    ensures forall x :: x in r ==> x == id || x in sorted
    ensures AllIn(calls, r)
  {
    if sorted == [] || calls[sorted[0]].createdAt <= calls[id].createdAt then
      [id] + sorted
    else
      assert sorted == [sorted[0]] + sorted[1..];
      [sorted[0]] + InsertNewest(calls, id, sorted[1..])
  }

  /** Inserting into a newest-first list keeps it newest first. */
  lemma {:induction false} InsertKeepsNewestFirst(calls: map<int, Call>, id: int, sorted: seq<int>)
    requires id in calls && AllIn(calls, sorted) && NewestFirst(calls, sorted)
    ensures NewestFirst(calls, InsertNewest(calls, id, sorted))
  {
    if sorted != [] && calls[sorted[0]].createdAt > calls[id].createdAt {
      var first, rest := sorted[0], InsertNewest(calls, id, sorted[1..]);
      assert sorted == [first] + sorted[1..];
      InsertKeepsNewestFirst(calls, id, sorted[1..]);
      forall j | 0 <= j < |rest| ensures calls[first].createdAt >= calls[rest[j]].createdAt {
        assert rest[j] in rest;
        if rest[j] != id {
          var k :| 0 <= k < |sorted[1..]| && sorted[1..][k] == rest[j];
          assert sorted[k + 1] == rest[j];
        }
      }
      assert InsertNewest(calls, id, sorted) == [first] + rest;
    }
  }

  /** `orderBy: { createdAt: "desc" }`: the same ids, newest first. */
  function SortNewestFirst(calls: map<int, Call>, ids: seq<int>): (r: seq<int>)
    requires AllIn(calls, ids)
    ensures multiset(r) == multiset(ids)
    ensures AllIn(calls, r)
    ensures NewestFirst(calls, r)
  {
    if ids == [] then []
    else
      assert ids == [ids[0]] + ids[1..];
      var rest := SortNewestFirst(calls, ids[1..]);
      InsertKeepsNewestFirst(calls, ids[0], rest);
      InsertNewest(calls, ids[0], rest)
  }

  /** `findMany({ where: { coachId }, orderBy: { createdAt: "desc" } })`, scanning the call ids handed out so far. */
  function CoachCallsNewestFirst(t: Tables, coach: int): seq<int>
  {
    SortNewestFirst(t.calls, CoachCallIds(t.calls, coach, 1, t.nextCallId))
  }

  /**
    The entry the listing shows for call `id`: the call's own fields, its
    booking's student name and phone, and its booking's slot times. None when a
    row the query joins is missing, which a consistent database rules out.
   */
  function ViewOf(t: Tables, id: int): Option<CallView>
  {
    if id !in t.calls || t.calls[id].bookingId !in t.bookings then None
    else
      var call := t.calls[id];
      var booking := t.bookings[call.bookingId];
      if booking.studentId !in t.users || booking.slotId !in t.slots then None
      else
        var student, slot := t.users[booking.studentId], t.slots[booking.slotId];
        Some(CallView(id, call.satisfaction, call.notes, call.createdAt, student.name, student.phone,
                      slot.startTime, slot.endTime))
  }

  /** `calls.map(...)`, None when some entry cannot be built. */
  function Views(t: Tables, ids: seq<int>): (r: Option<seq<CallView>>)
    ensures r.Some? <==> forall i :: 0 <= i < |ids| ==> ViewOf(t, ids[i]).Some?
    ensures r.Some? ==> |r.value| == |ids| && forall i :: 0 <= i < |ids| ==> Some(r.value[i]) == ViewOf(t, ids[i])
  {
    if ids == [] then Some([])
    else
      match (ViewOf(t, ids[0]), Views(t, ids[1..]))
      case (Some(v), Some(vs)) => Some([v] + vs)
      case _ => None
  }

  /** The User columns a query may select. */
  const UserColumns: set<string> := {"id", "name", "email", "phone", "isCoach"}

  /** The student columns the listing selects as the code is written. */
  const StudentSelectAsWritten: set<string> := {"id", "name", "phoneNumber"}

  /** The student columns the listing needs: the ones the bookings handler selects. */
  const StudentSelect: set<string> := {"id", "name", "phone"}

  /**
    The query of `handleGetCalls` for coach `coach`, selecting the student columns
    `select`. Prisma refuses a select that names a column the model does not have,
    and that lands in the `catch`: 500.
   */
  function ListCallsSelecting(t: Tables, coach: int, select: set<string>): (o: Outcome)
    ensures o.tables == t && o.response.Response? && o.response.status in {200, 500}
    ensures !(select <= UserColumns) ==> o.response.status == 500
  {
    if !(select <= UserColumns) then Fail(t, 500, ErrorFetchingCalls)
    else
      match Views(t, CoachCallsNewestFirst(t, coach))
      case None => Fail(t, 500, ErrorFetchingCalls)
      case Some(vs) => Outcome(t, Response(200, [], CallList(vs)))
  }

  /** The query with the student's `phone` column selected. */
  function ListCalls(t: Tables, coach: int): (o: Outcome)
    ensures o.tables == t && o.response.Response? && o.response.status in {200, 500}
    ensures o.response.status == 200 ==> o.response.body.CallList?
  {
    ListCallsSelecting(t, coach, StudentSelect)
  }

  /** The query as written, selecting `phoneNumber`. */
  function ListCallsAsWritten(t: Tables, coach: int): (o: Outcome)
    ensures o == Fail(t, 500, ErrorFetchingCalls)
  {
    ListCallsSelecting(t, coach, StudentSelectAsWritten)
  }

  /** `handleGetCalls` with the query passed in: the first `coachId` must be present and readable by `parseInt`. */
  function GetCallsWith(t: Tables, coachQ: Query, select: set<string>): (o: Outcome)
    ensures o.tables == t && o.response.Response? && o.response.status in {200, 400, 500}
  {
    var coachId := QueryValue(coachQ);
    if !Truthy(coachId) then Fail(t, 400, CoachIdRequired)
    else if ParseInt(coachId).None? then Fail(t, 400, InvalidCoachId)
    else ListCallsSelecting(t, ParseInt(coachId).value, select)
  }

  /** `handleGetCalls`, selecting the student's `phone`. */
  function GetCalls(t: Tables, coachQ: Query): (o: Outcome)
    ensures o.tables == t && o.response.Response? && o.response.status in {200, 400, 500}
  {
    GetCallsWith(t, coachQ, StudentSelect)
  }

  // ---------------------------------------------------------------- POST: recording

  /** `handleCreateCall`: all four fields present, and the three numbers readable by `parseInt`. */
  function CreateCall(t: Tables, bookingId: JsValue, coachId: JsValue, satisfaction: JsValue, notes: JsValue, now: int): (o: Outcome)
    ensures o.response.Response? && o.response.status in {201, 400, 403, 404, 500}
    ensures o.response.status != 201 ==> o.tables == t
    ensures o.response.status == 201 ==>
      o.response.body.CallCreated? && o.response.body.id == t.nextCallId && o.tables == AddCall(t, o.response.body.call)
  {
    if !Truthy(bookingId) || !Truthy(coachId) || satisfaction.Undefined? || !Truthy(notes) then
      Fail(t, 400, CallFieldsRequired)
    else
      var b, c, s := ParseInt(bookingId), ParseInt(coachId), ParseInt(satisfaction);
      if b.None? || c.None? || s.None? then Fail(t, 400, InvalidCallNumbers)
      else RecordCall(t, b.value, c.value, s.value, notes, now)
  }

  /**
    The rest of `handleCreateCall`, once the numbers are read. The range check
    comes first, then the lookups, all before any write: an existing call for the
    booking, the booking, the owner of its slot. Prisma refuses `notes` that are
    not text and a `connect` to a missing coach, and a booking whose slot row is
    missing cannot be read with it; those land in the `catch`: 500. `now` is the
    database's clock.
   */
  function RecordCall(t: Tables, b: int, c: int, s: int, notes: JsValue, now: int): (o: Outcome)
    ensures o.response.Response? && o.response.status in {201, 400, 403, 404, 500}
    ensures o.response.status != 201 ==> o.tables == t
    ensures o.response.status == 201 ==>
      && o.response.body.CallCreated? && o.response.body.id == t.nextCallId && notes.Str?
      && o.response.body.call == Call(b, c, s, notes.s, now) && o.tables == AddCall(t, o.response.body.call)
  {
    if s < 1 || s > 5 then Fail(t, 400, SatisfactionOutOfRange)
    else if b in CalledBookingIds(t.calls) then Fail(t, 400, FeedbackAlreadyRecorded)
    else if b !in t.bookings then Fail(t, 404, BookingNotFound)
    else if t.bookings[b].slotId !in t.slots then Fail(t, 500, ErrorRecordingCall)
    else if t.slots[t.bookings[b].slotId].coachId != c then
      Fail(t, 403, NotAuthorizedForCall)
    else if c !in t.users || !notes.Str? then Fail(t, 500, ErrorRecordingCall)
    else
      var call := Call(b, c, s, notes.s, now);
      Outcome(AddCall(t, call), Response(201, [], CallCreated(t.nextCallId, call)))
  }

  /** The route's `handler`. */
  function Route(t: Tables, req: Request, now: int): (o: Outcome)
    ensures req.httpMethod != "POST" ==> o.tables == t
  {
    if req.httpMethod == "GET" then GetCalls(t, req.queryCoachId)
    else if req.httpMethod == "POST" then CreateCall(t, req.bookingId, req.coachId, req.satisfaction, req.notes, now)
    else Outcome(t, MethodNotAllowed(req.httpMethod, ["GET", "POST"]))
  }

  method HandleCreateCall(db: Store, bookingId: JsValue, coachId: JsValue, satisfaction: JsValue, notes: JsValue, now: int)
    returns (resp: Response)
    modifies db
    ensures Outcome(db.Snapshot(), resp) == CreateCall(old(db.Snapshot()), bookingId, coachId, satisfaction, notes, now)
  {
    if !Truthy(bookingId) || !Truthy(coachId) || satisfaction.Undefined? || !Truthy(notes) {
      return Response(400, [], ErrorBody(CallFieldsRequired));
    }
    var bookingIdNumber := ParseInt(bookingId);
    var coachIdNumber := ParseInt(coachId);
    var satisfactionNumber := ParseInt(satisfaction);
    if bookingIdNumber.None? || coachIdNumber.None? || satisfactionNumber.None? {
      return Response(400, [], ErrorBody(InvalidCallNumbers));
    }
    resp := HandleRecordCall(db, bookingIdNumber.value, coachIdNumber.value, satisfactionNumber.value, notes, now);
  }

  method HandleRecordCall(db: Store, b: int, c: int, s: int, notes: JsValue, now: int) returns (resp: Response)
    modifies db
    ensures Outcome(db.Snapshot(), resp) == RecordCall(old(db.Snapshot()), b, c, s, notes, now)
  {
    if s < 1 || s > 5 {
      return Response(400, [], ErrorBody(SatisfactionOutOfRange));
    }
    if b in CalledBookingIds(db.calls) {
      return Response(400, [], ErrorBody(FeedbackAlreadyRecorded));
    }
    if b !in db.bookings {
      return Response(404, [], ErrorBody(BookingNotFound));
    }
    var slotId := db.bookings[b].slotId;
    if slotId !in db.slots {
      return Response(500, [], ErrorBody(ErrorRecordingCall));
    }
    if db.slots[slotId].coachId != c {
      return Response(403, [], ErrorBody(NotAuthorizedForCall));
    }
    if c !in db.users || !notes.Str? {
      return Response(500, [], ErrorBody(ErrorRecordingCall));
    }
    var call := Call(b, c, s, notes.s, now);
    var id := db.InsertCall(call);
    resp := Response(201, [], CallCreated(id, call));
  }

  method Handler(db: Store, req: Request, now: int) returns (resp: Response)
    requires db.Valid()
    modifies db
    ensures db.Valid()
    ensures Outcome(db.Snapshot(), resp) == Route(old(db.Snapshot()), req, now)
  {
    ghost var before := db.Snapshot();
    if req.httpMethod == "GET" {
      resp := GetCalls(db.Snapshot(), req.queryCoachId).response;
    } else if req.httpMethod == "POST" {
      resp := HandleCreateCall(db, req.bookingId, req.coachId, req.satisfaction, req.notes, now);
    } else {
      resp := MethodNotAllowed(req.httpMethod, ["GET", "POST"]);
    }
    RouteKeepsConsistent(before, req, now);
  }

  // ---------------------------------------------------------------- properties: POST

  /**
    A falsy bookingId, coachId or notes, or a missing satisfaction, is 400; so is
    a number `parseInt` cannot read. Neither reaches the database or changes it.
   */
  lemma CreateCallValidation(t: Tables, bookingId: JsValue, coachId: JsValue, satisfaction: JsValue, notes: JsValue, now: int)
    ensures !Truthy(bookingId) || !Truthy(coachId) || satisfaction.Undefined? || !Truthy(notes) ==>
      CreateCall(t, bookingId, coachId, satisfaction, notes, now) == Fail(t, 400, CallFieldsRequired)
    ensures Truthy(bookingId) && Truthy(coachId) && !satisfaction.Undefined? && Truthy(notes) ==>
      (ParseInt(bookingId).None? || ParseInt(coachId).None? || ParseInt(satisfaction).None? ==>
        CreateCall(t, bookingId, coachId, satisfaction, notes, now) == Fail(t, 400, InvalidCallNumbers))
    ensures Truthy(bookingId) && Truthy(coachId) && !satisfaction.Undefined? && Truthy(notes) ==>
      (ParseInt(bookingId).Some? && ParseInt(coachId).Some? && ParseInt(satisfaction).Some? ==>
        CreateCall(t, bookingId, coachId, satisfaction, notes, now) ==
        RecordCall(t, ParseInt(bookingId).value, ParseInt(coachId).value, ParseInt(satisfaction).value, notes, now))
  {
  }

  /** Numbers sent as JSON numbers below 10^21 in magnitude are read as themselves (0 for bookingId or coachId counts as missing). */
  lemma NumericFieldsAreRead(t: Tables, b: int, c: int, s: int, notes: JsValue, now: int)
    requires b != 0 && c != 0 && Truthy(notes)
    requires -ExponentFrom < b < ExponentFrom && -ExponentFrom < c < ExponentFrom && -ExponentFrom < s < ExponentFrom
    ensures CreateCall(t, Num(b), Num(c), Num(s), notes, now) == RecordCall(t, b, c, s, notes, now)
  {
    ParseIntOfNumber(b);
    ParseIntOfNumber(c);
    ParseIntOfNumber(s);
    CreateCallValidation(t, Num(b), Num(c), Num(s), notes, now);
  }

  /** A satisfaction of 0 is present -- only `undefined` counts as missing -- and is then refused by the range check, like 6. */
  lemma OutOfRangeSatisfactionRejected(t: Tables, b: int, c: int, notes: JsValue, now: int)
    requires b != 0 && c != 0 && Truthy(notes)
    requires -ExponentFrom < b < ExponentFrom && -ExponentFrom < c < ExponentFrom
    ensures CreateCall(t, Num(b), Num(c), Num(0), notes, now) == Fail(t, 400, SatisfactionOutOfRange)
    ensures CreateCall(t, Num(b), Num(c), Num(6), notes, now) == Fail(t, 400, SatisfactionOutOfRange)
  {
    NumericFieldsAreRead(t, b, c, 0, notes, now);
    NumericFieldsAreRead(t, b, c, 6, notes, now);
  }

  /**
    An empty or blank satisfaction is present -- it is not `undefined` -- but
    `parseInt` reads no digits from it (NaN): the request is refused with 400
    before the range check. /api/submit-feedback refuses the same text, by
    another route: `Number` reads it as 0, below the range.
   */
  lemma BlankSatisfactionRejected(t: Tables, bookingId: JsValue, coachId: JsValue, s: string, notes: JsValue, now: int)
    requires Truthy(bookingId) && Truthy(coachId) && Truthy(notes)
    requires forall i :: 0 <= i < |s| ==> IsSpace(s[i])
    ensures CreateCall(t, bookingId, coachId, Str(s), notes, now) == Fail(t, 400, InvalidCallNumbers)
  {
    BlankTextConversions(s);
  }

  /** 1 and 5 pass the range check: a consistent database records either when the booking has no call and the coach owns it. */
  lemma SatisfactionInRange(t: Tables, b: int, c: int, notes: JsValue, now: int)
    requires Consistent(t)
    requires b != 0 && c != 0 && notes.Str? && notes.s != ""
    requires -ExponentFrom < b < ExponentFrom && -ExponentFrom < c < ExponentFrom
    requires b !in CalledBookingIds(t.calls) && BookingCoach(t, b) == Some(c)
    ensures CreateCall(t, Num(b), Num(c), Num(1), notes, now).response.status == 201
    ensures CreateCall(t, Num(b), Num(c), Num(5), notes, now).response.status == 201
  {
    NumericFieldsAreRead(t, b, c, 1, notes, now);
    NumericFieldsAreRead(t, b, c, 5, notes, now);
    RecordCallSucceedsIff(t, b, c, 1, notes, now);
    RecordCallSucceedsIff(t, b, c, 5, notes, now);
  }

  /**
    The checks run in order. Out of range is 400 before anything is looked up. A
    booking that already has a call is 400 before the booking is looked up, so it
    wins over 404 and 403. Then a missing booking is 404, and a coach who does not
    own the booking's slot is 403.
   */
  lemma RecordCallCheckOrder(t: Tables, b: int, c: int, s: int, notes: JsValue, now: int)
    ensures s < 1 || s > 5 ==> RecordCall(t, b, c, s, notes, now) == Fail(t, 400, SatisfactionOutOfRange)
    ensures 1 <= s <= 5 && b in CalledBookingIds(t.calls) ==>
      RecordCall(t, b, c, s, notes, now) == Fail(t, 400, FeedbackAlreadyRecorded)
    ensures 1 <= s <= 5 && b !in CalledBookingIds(t.calls) && b !in t.bookings ==>
      RecordCall(t, b, c, s, notes, now) == Fail(t, 404, BookingNotFound)
    ensures 1 <= s <= 5 && b !in CalledBookingIds(t.calls) && BookingCoach(t, b).Some? && BookingCoach(t, b) != Some(c) ==>
      RecordCall(t, b, c, s, notes, now) == Fail(t, 403, NotAuthorizedForCall)
  {
  }

  /**
    In a consistent database recording succeeds exactly when the satisfaction is
    1 to 5, the booking has no call yet, the booking exists and its slot belongs to
    the coach, and the notes are text. It then adds exactly one call, with those
    values and the database's time, under a fresh id; nothing else changes. Every
    other outcome leaves the database as it was.
   */
  lemma RecordCallSucceedsIff(t: Tables, b: int, c: int, s: int, notes: JsValue, now: int)
    requires IdsAllocated(t) && BookingsWellFormed(t) && SlotsWellFormed(t)
    ensures RecordCall(t, b, c, s, notes, now).response.status == 201 <==>
      1 <= s <= 5 && b !in CalledBookingIds(t.calls) && b in t.bookings && BookingCoach(t, b) == Some(c) && notes.Str?
    ensures RecordCall(t, b, c, s, notes, now).response.status == 201 ==>
      var t' := RecordCall(t, b, c, s, notes, now).tables;
      && t.nextCallId !in t.calls
      && t'.calls == t.calls[t.nextCallId := Call(b, c, s, notes.s, now)]
      && t'.users == t.users && t'.slots == t.slots && t'.bookings == t.bookings
      && RecordCall(t, b, c, s, notes, now).response.body == CallCreated(t.nextCallId, Call(b, c, s, notes.s, now))
    ensures RecordCall(t, b, c, s, notes, now).response.status != 201 ==> RecordCall(t, b, c, s, notes, now).tables == t
  {
    if b in t.bookings {
      assert t.bookings[b].slotId in t.slots;
      assert SlotWellFormed(t.slots[t.bookings[b].slotId], t.users);
    }
  }

  /**
    Feedback is recorded once per booking: after a call is recorded for a booking,
    a second one for it, with any coach, rating, notes and time, is refused with 400
    and changes nothing.
   */
  lemma SecondCallRejected(t: Tables, b: int, c: int, s: int, notes: JsValue, now: int,
                           c2: int, s2: int, notes2: JsValue, now2: int)
    requires RecordCall(t, b, c, s, notes, now).response.status == 201
    requires 1 <= s2 <= 5
    ensures var t1 := RecordCall(t, b, c, s, notes, now).tables;
      RecordCall(t1, b, c2, s2, notes2, now2) == Fail(t1, 400, FeedbackAlreadyRecorded)
  {
    var t1 := RecordCall(t, b, c, s, notes, now).tables;
    assert t1.calls[t.nextCallId].bookingId == b;
    assert b in CalledBookingIds(t1.calls);
  }

  // ---------------------------------------------------------------- properties: GET

  /** A missing coachId is 400, and so is one `parseInt` cannot read; the database is not read. */
  lemma GetCallsValidation(t: Tables, coachQ: Query)
    ensures !Truthy(QueryValue(coachQ)) ==> GetCalls(t, coachQ) == Fail(t, 400, CoachIdRequired)
    ensures Truthy(QueryValue(coachQ)) && ParseInt(QueryValue(coachQ)).None? ==>
      GetCalls(t, coachQ) == Fail(t, 400, InvalidCoachId)
    ensures Truthy(QueryValue(coachQ)) && ParseInt(QueryValue(coachQ)).Some? ==>
      GetCalls(t, coachQ) == ListCalls(t, ParseInt(QueryValue(coachQ)).value)
    ensures GetCalls(t, coachQ).tables == t
  {
  }

  /** Every call of a consistent database can be shown. */
  lemma ViewOfConsistent(t: Tables, id: int)
    requires Consistent(t) && id in t.calls
    ensures ViewOf(t, id).Some?
  {
    var b := t.calls[id].bookingId;
    assert CallWellFormed(t, t.calls[id]);
    assert t.bookings[b].slotId in t.slots && t.bookings[b].studentId in t.users;
  }

  /** The ids a listing shows, in order. */
  function ListedIds(vs: seq<CallView>): (r: seq<int>)
    ensures |r| == |vs| && forall i :: 0 <= i < |vs| ==> r[i] == vs[i].id
  {
    if vs == [] then [] else [vs[0].id] + ListedIds(vs[1..])
  }

  /** In a database whose ids were handed out by its counters, the query finds each call of `coach` exactly once, and no other call. */
  lemma CoachCallsFoundOnce(t: Tables, coach: int)
    requires IdsAllocated(t)
    ensures forall id ::
              multiset(CoachCallsNewestFirst(t, coach))[id] == if id in t.calls && t.calls[id].coachId == coach then 1 else 0
  {
    var found := CoachCallIds(t.calls, coach, 1, t.nextCallId);
    forall id ensures multiset(found)[id] == if id in t.calls && t.calls[id].coachId == coach then 1 else 0 {
      if id in t.calls && t.calls[id].coachId == coach {
        assert id in found;
      } else {
        forall i | 0 <= i < |found| ensures found[i] != id {
        }
        assert id !in found;
      }
    }
  }

  /** In a consistent database the listing answers 200 with one entry per call the query finds, in its order. */
  lemma ListCallsAnswers(t: Tables, coach: int)
    requires Consistent(t)
    ensures var o := ListCalls(t, coach);
      && o.tables == t
      && o.response.status == 200 && o.response.body.CallList?
      && ListedIds(o.response.body.calls) == CoachCallsNewestFirst(t, coach)
      && (forall i :: 0 <= i < |o.response.body.calls| ==> ViewOf(t, o.response.body.calls[i].id) == Some(o.response.body.calls[i]))
  {
    var ids := CoachCallsNewestFirst(t, coach);
    forall i | 0 <= i < |ids| ensures ViewOf(t, ids[i]).Some? {
      ViewOfConsistent(t, ids[i]);
    }
    var vs := Views(t, ids).value;
    assert ListCalls(t, coach) == Outcome(t, Response(200, [], CallList(vs)));
    forall i | 0 <= i < |vs| ensures vs[i].id == ids[i] {
      assert Some(vs[i]) == ViewOf(t, ids[i]);
    }
  }

  /**
    In a consistent database the listing for coach `coach` answers 200, shows
    each call that coach recorded exactly once and no other call, newest first,
    each entry with that call's rating, notes and time, its booking's student and
    its slot's times.
   */
  lemma ListCallsShowsCoachCallsNewestFirst(t: Tables, coach: int)
    requires Consistent(t)
    ensures var o := ListCalls(t, coach);
      && o.tables == t
      && o.response.status == 200 && o.response.body.CallList?
      && var vs := o.response.body.calls;
      && (forall id :: multiset(ListedIds(vs))[id] == if id in t.calls && t.calls[id].coachId == coach then 1 else 0)
      && (forall i, j :: 0 <= i < j < |vs| ==> vs[i].createdAt >= vs[j].createdAt)
      && (forall i :: 0 <= i < |vs| ==> ViewOf(t, vs[i].id) == Some(vs[i]))
  {
    ListCallsAnswers(t, coach);
    CoachCallsFoundOnce(t, coach);
    var ids := CoachCallsNewestFirst(t, coach);
    var vs := ListCalls(t, coach).response.body.calls;
    forall i, j | 0 <= i < j < |vs| ensures vs[i].createdAt >= vs[j].createdAt {
      assert vs[i].id == ids[i] && vs[j].id == ids[j];
      assert t.calls[ids[i]].createdAt >= t.calls[ids[j]].createdAt;
    }
  }

  /**
    The query as written selects the student's `phoneNumber`, a column User does
    not have, so Prisma refuses it: every listing fails with 500, for every coach
    and every database, while the query selecting `phone` answers 200 on any
    consistent database.
   */
  lemma ListingAsWrittenAlwaysFails(t: Tables, coach: int)
    ensures ListCallsAsWritten(t, coach) == Fail(t, 500, ErrorFetchingCalls)
    ensures Consistent(t) ==> ListCalls(t, coach).response.status == 200
  {
    assert "phoneNumber" in StudentSelectAsWritten && "phoneNumber" !in UserColumns;
    if Consistent(t) {
      ListCallsAnswers(t, coach);
    }
  }

  /** The listing of a single call is that call's entry. */
  lemma ViewsOfOne(t: Tables, id: int)
    requires ViewOf(t, id).Some?
    ensures Views(t, [id]) == Some([ViewOf(t, id).value])
  {
    assert [id][0] == id && [id][1..] == [];
    assert Views(t, []) == Some([]);
    assert [ViewOf(t, id).value] + [] == [ViewOf(t, id).value];
  }

  /**
    A coach (user 1) whose one booked slot (slot 1, booked by student 2) has one
    recorded call asks for their calls with `?coachId=1`: as written the answer is
    500, while the corrected query lists that call.
   */
  lemma ListingCounterexample()
    ensures var t := Tables(
              map[1 := User(true, "Coach", "555-0100"), 2 := User(false, "Student", "555-0200")],
              map[1 := Slot(0, TwoHoursMs, true, 1)],
              map[1 := Booking(1, 2)],
              map[1 := Call(1, 1, 5, "good", 10)],
              2, 2, 2);
      && GetCallsWith(t, Single("1"), StudentSelectAsWritten) == Fail(t, 500, ErrorFetchingCalls)
      && GetCalls(t, Single("1")).response
         == Response(200, [], CallList([CallView(1, 5, "good", 10, "Student", "555-0200", 0, TwoHoursMs)]))
  {
    var t := Tables(
      map[1 := User(true, "Coach", "555-0100"), 2 := User(false, "Student", "555-0200")],
      map[1 := Slot(0, TwoHoursMs, true, 1)],
      map[1 := Booking(1, 2)],
      map[1 := Call(1, 1, 5, "good", 10)],
      2, 2, 2);
    assert ParseInt(Str("1")) == Some(1) by {
      ParseIntStopsAtNonDigit("1", []);
      assert "1" + [] == "1";
    }
    var found := CoachCallIds(t.calls, 1, 1, 2);
    assert found == [1] by {
      assert CoachCallIds(t.calls, 1, 2, 2) == [];
    }
    var sorted := SortNewestFirst(t.calls, found);
    assert sorted == [1] by {
      assert multiset(sorted) == multiset{1};
      assert |sorted| == 1;
      assert sorted[0] in multiset(sorted);
    }
    var view := CallView(1, 5, "good", 10, "Student", "555-0200", 0, TwoHoursMs);
    assert ViewOf(t, 1) == Some(view);
    ViewsOfOne(t, 1);
    ListingAsWrittenAlwaysFails(t, 1);
  }

  // ---------------------------------------------------------------- properties: the route

  /** Recording a call with the non-empty notes `handleCreateCall` insists on keeps the database consistent. */
  lemma RecordCallKeepsConsistent(t: Tables, b: int, c: int, s: int, notes: JsValue, now: int)
    requires Consistent(t) && Truthy(notes)
    ensures Consistent(RecordCall(t, b, c, s, notes, now).tables)
  {
    RecordCallSucceedsIff(t, b, c, s, notes, now);
    if RecordCall(t, b, c, s, notes, now).response.status == 201 {
      AddCallKeepsConsistent(t, Call(b, c, s, notes.s, now));
    }
  }

  /** Creating a call keeps the database consistent. */
  lemma CreateCallKeepsConsistent(t: Tables, bookingId: JsValue, coachId: JsValue, satisfaction: JsValue, notes: JsValue, now: int)
    requires Consistent(t)
    ensures Consistent(CreateCall(t, bookingId, coachId, satisfaction, notes, now).tables)
  {
    CreateCallValidation(t, bookingId, coachId, satisfaction, notes, now);
    if Truthy(bookingId) && Truthy(coachId) && !satisfaction.Undefined? && Truthy(notes) {
      var b, c, s := ParseInt(bookingId), ParseInt(coachId), ParseInt(satisfaction);
      if b.Some? && c.Some? && s.Some? {
        RecordCallKeepsConsistent(t, b.value, c.value, s.value, notes, now);
      }
    }
  }

  /**
    Every request keeps the database consistent, so each booking still has at
    most one call and each call's coach owns its booking's slot. Only a POST can
    change it; any method but GET and POST gets 405 with `Allow: GET, POST`.
   */
  lemma RouteKeepsConsistent(t: Tables, req: Request, now: int)
    requires Consistent(t)
    ensures Consistent(Route(t, req, now).tables)
    ensures req.httpMethod != "POST" ==> Route(t, req, now).tables == t
    ensures req.httpMethod !in {"GET", "POST"} ==>
      Route(t, req, now).response == Response(405, ["GET", "POST"], NotAllowedText("Method " + req.httpMethod + " Not Allowed"))
  {
    if req.httpMethod == "GET" {
      GetCallsValidation(t, req.queryCoachId);
    } else if req.httpMethod == "POST" {
      CreateCallKeepsConsistent(t, req.bookingId, req.coachId, req.satisfaction, req.notes, now);
    }
  }
}
