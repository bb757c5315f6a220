/**
  /api/submit-feedback: a signed-in coach overwrites the rating and notes of a
  call they recorded earlier. The session is checked before the body, and the
  call's owner before anything is written.
 */
module SubmitFeedbackApi {
  import opened Wrappers
  import opened Js
  import opened Db
  import opened Http

  /** The `user` of the session `getSession` returns: its `id` and `isCoach`, as the session carries them. */
  datatype SessionUser = SessionUser(id: JsValue, isCoach: JsValue)

  /**
    `req.method`, the session of the request (None when there is none), and the
    three fields of `req.body` the handler reads.
   */
  datatype Request = Request(
    httpMethod: string,
    session: Option<SessionUser>,
    callId: JsValue,
    satisfaction: JsValue,
    notes: JsValue)

  /** `!session || !session.user.isCoach` is false. */
  predicate CoachSession(session: Option<SessionUser>)
  {
    session.Some? && Truthy(session.value.isCoach)
  }

  /**
    The body passes the input check: a truthy callId and notes, and a truthy
    satisfaction that compares as neither below 1 nor above 5. A satisfaction that
    `Number` cannot read (NaN) passes both comparisons.
   */
  predicate InputAccepted(callId: JsValue, satisfaction: JsValue, notes: JsValue)
  {
    Truthy(callId) && Truthy(satisfaction) && !LessThan(satisfaction, 1) && !GreaterThan(satisfaction, 5) && Truthy(notes)
  }

  /** The handler, given the session. */
  function Submit(t: Tables, req: Request): (o: Outcome)
    ensures o.response.Response? && o.response.status in {200, 400, 403, 405, 500}
    ensures o.response.status != 200 ==> o.tables == t
  {
    if req.httpMethod != "POST" then Fail(t, 405, MethodNotAllowedError)
    else if !CoachSession(req.session) then Fail(t, 403, Unauthorized)
    else if !InputAccepted(req.callId, req.satisfaction, req.notes) then Fail(t, 400, InvalidInputData)
    else UpdateCall(t, req.session.value.id, req.callId, req.satisfaction, req.notes)
  }

  /**
    The `try` block, for the session user id `coachId`. Prisma refuses a callId
    that is not an integer in the lookup, and a satisfaction that is not an
    integer or notes that are not text in the update; each lands in the `catch`:
    500. A missing call and a call of another coach are both 403, compared with
    `!==`, so a session id that is text never owns a call.
   */
  function UpdateCall(t: Tables, coachId: JsValue, callId: JsValue, satisfaction: JsValue, notes: JsValue): (o: Outcome)
    ensures o.response.Response? && o.response.status in {200, 403, 500}
    ensures o.response.status != 200 ==> o.tables == t
    ensures o.response.status == 200 ==>
      && callId.Num? && callId.n in t.calls && coachId == Num(t.calls[callId.n].coachId)
      && satisfaction.Num? && notes.Str?
      && o.tables == SetFeedback(t, callId.n, satisfaction.n, notes.s)
  {
    if !callId.Num? then Fail(t, 500, ErrorSubmittingFeedback)
    else if callId.n !in t.calls || coachId != Num(t.calls[callId.n].coachId) then Fail(t, 403, Unauthorized)
    else if !satisfaction.Num? || !notes.Str? then Fail(t, 500, ErrorSubmittingFeedback)
    else Outcome(SetFeedback(t, callId.n, satisfaction.n, notes.s), Response(200, [], MessageBody("Feedback submitted successfully")))
  }

  method HandleUpdateCall(db: Store, coachId: JsValue, callId: JsValue, satisfaction: JsValue, notes: JsValue)
    returns (resp: Response)
    modifies db
    ensures Outcome(db.Snapshot(), resp) == UpdateCall(old(db.Snapshot()), coachId, callId, satisfaction, notes)
  {
    if !callId.Num? {
      return Response(500, [], ErrorBody(ErrorSubmittingFeedback));
    }
    var id := callId.n;
    if id !in db.calls || coachId != Num(db.calls[id].coachId) {
      return Response(403, [], ErrorBody(Unauthorized));
    }
    if !satisfaction.Num? || !notes.Str? {
      return Response(500, [], ErrorBody(ErrorSubmittingFeedback));
    }
    db.UpdateFeedback(id, satisfaction.n, notes.s);
    resp := Response(200, [], MessageBody("Feedback submitted successfully"));
  }

  method Handler(db: Store, req: Request) returns (resp: Response)
    requires db.Valid()
    modifies db
    ensures db.Valid()
    ensures Outcome(db.Snapshot(), resp) == Submit(old(db.Snapshot()), req)
  {
    ghost var before := db.Snapshot();
    if req.httpMethod != "POST" {
      resp := Response(405, [], ErrorBody(MethodNotAllowedError));
    } else if !CoachSession(req.session) {
      resp := Response(403, [], ErrorBody(Unauthorized));
    } else if !InputAccepted(req.callId, req.satisfaction, req.notes) {
      resp := Response(400, [], ErrorBody(InvalidInputData));
    } else {
      resp := HandleUpdateCall(db, req.session.value.id, req.callId, req.satisfaction, req.notes);
    }
    SubmitKeepsConsistent(before, req);
  }

  // ---------------------------------------------------------------- properties

  /**
    The checks run in order: any method but POST is 405 with no `Allow` header;
    then a request without a coach session is 403 whatever its body; then a body
    that fails the input check is 400. None of them changes the database.
   */
  lemma SubmitCheckOrder(t: Tables, req: Request)
    ensures req.httpMethod != "POST" ==> Submit(t, req) == Fail(t, 405, MethodNotAllowedError)
    ensures req.httpMethod == "POST" && !CoachSession(req.session) ==> Submit(t, req) == Fail(t, 403, Unauthorized)
    ensures req.httpMethod == "POST" && CoachSession(req.session) && !InputAccepted(req.callId, req.satisfaction, req.notes) ==>
      Submit(t, req) == Fail(t, 400, InvalidInputData)
    ensures req.httpMethod == "POST" && CoachSession(req.session) && InputAccepted(req.callId, req.satisfaction, req.notes) ==>
      Submit(t, req) == UpdateCall(t, req.session.value.id, req.callId, req.satisfaction, req.notes)
  {
  }

  /** A satisfaction sent as a number passes the input check exactly when it is 1 to 5. */
  lemma NumericSatisfactionRange(callId: JsValue, s: int, notes: JsValue)
    requires Truthy(callId) && Truthy(notes)
    ensures InputAccepted(callId, Num(s), notes) <==> 1 <= s <= 5
  {
  }

  /**
    A text satisfaction that `Number` cannot read, such as "x", passes the input
    check -- every comparison with NaN is false -- and is then refused by the
    update with 500.
   */
  lemma UnreadableSatisfactionReachesUpdate(t: Tables, coach: int, id: int, notes: string)
    requires id != 0 && notes != ""
    requires id in t.calls && t.calls[id].coachId == coach
    ensures InputAccepted(Num(id), Str("x"), Str(notes))
    ensures UpdateCall(t, Num(coach), Num(id), Str("x"), Str(notes)) == Fail(t, 500, ErrorSubmittingFeedback)
  {
    assert TrimStart("x") == "x" && TrimEnd("x") == "x";
    assert TextToNumber("x") == None;
  }

  /**
    A satisfaction sent as decimal text, such as "3", passes the input check
    exactly when the number it spells is 1 to 5, since `Number` reads it back;
    the update then refuses the text with 500, so it is never stored.
   */
  lemma DecimalTextSatisfaction(t: Tables, coach: int, id: int, s: int, notes: string)
    requires id != 0 && notes != ""
    ensures InputAccepted(Num(id), Str(ToDecimal(s)), Str(notes)) <==> 1 <= s <= 5
    ensures UpdateCall(t, Num(coach), Num(id), Str(ToDecimal(s)), Str(notes)).response.status != 200
  {
    NumberOfDecimal(s);
  }

  /**
    A satisfaction of blank text, such as " ", is truthy but `Number` reads it as
    0, which is below 1: the request is refused with 400.
   */
  lemma BlankSatisfactionRejected(callId: JsValue, s: string, notes: JsValue)
    requires s != [] && forall i :: 0 <= i < |s| ==> IsSpace(s[i])
    ensures !InputAccepted(callId, Str(s), notes)
  {
    BlankTextConversions(s);
  }

  /**
    The update succeeds exactly when the callId is the integer id of an existing
    call, the session user id is that call's coach id as a number, the
    satisfaction is a number and the notes are text. It then overwrites that call's
    satisfaction and notes and nothing else: the call keeps its booking, coach and
    time, every other call and table is unchanged. Every other outcome leaves the
    database as it was.
   */
  lemma UpdateCallSucceedsIff(t: Tables, coachId: JsValue, callId: JsValue, satisfaction: JsValue, notes: JsValue)
    ensures var o := UpdateCall(t, coachId, callId, satisfaction, notes);
      o.response.status == 200 <==>
        callId.Num? && callId.n in t.calls && coachId == Num(t.calls[callId.n].coachId) && satisfaction.Num? && notes.Str?
    ensures var o := UpdateCall(t, coachId, callId, satisfaction, notes);
      o.response.status == 200 ==>
        var id := callId.n;
        && o.tables.calls.Keys == t.calls.Keys
        && o.tables.calls[id].satisfaction == satisfaction.n && o.tables.calls[id].notes == notes.s
        && o.tables.calls[id].bookingId == t.calls[id].bookingId && o.tables.calls[id].coachId == t.calls[id].coachId
        && o.tables.calls[id].createdAt == t.calls[id].createdAt
        && (forall other :: other in t.calls && other != id ==> o.tables.calls[other] == t.calls[other])
        && o.tables.users == t.users && o.tables.slots == t.slots && o.tables.bookings == t.bookings
        && o.tables.nextSlotId == t.nextSlotId && o.tables.nextBookingId == t.nextBookingId
        && o.tables.nextCallId == t.nextCallId
        && o.response.body == MessageBody("Feedback submitted successfully")
    ensures var o := UpdateCall(t, coachId, callId, satisfaction, notes);
      o.response.status != 200 ==> o.tables == t
  {
  }

  /**
    A call that does not exist and a call recorded by another coach get the same
    answer, 403 and not 404, and nothing changes.
   */
  lemma MissingAndForeignCallsLookAlike(t: Tables, coach: int, id: int, satisfaction: JsValue, notes: JsValue)
    requires id !in t.calls || t.calls[id].coachId != coach
    ensures UpdateCall(t, Num(coach), Num(id), satisfaction, notes) == Fail(t, 403, Unauthorized)
  {
  }

  /**
    Submitting the same feedback twice is the same as submitting it once: the
    second submission also answers 200 and leaves the database as the first left it.
   */
  lemma SubmitIdempotent(t: Tables, req: Request)
    requires Submit(t, req).response.status == 200
    ensures var t1 := Submit(t, req).tables;
      Submit(t1, req) == Outcome(t1, Submit(t, req).response)
  {
    var id := req.callId.n;
    var t1 := Submit(t, req).tables;
    var updated := t.calls[id].(satisfaction := req.satisfaction.n, notes := req.notes.s);
    assert t1.calls[id] == updated;
    assert t1.calls[id := updated] == t1.calls;
  }

  /**
    Every request keeps the database consistent: the input check only lets
    through a rating of 1 to 5 and notes that are not empty.
   */
  lemma SubmitKeepsConsistent(t: Tables, req: Request)
    requires Consistent(t)
    ensures Consistent(Submit(t, req).tables)
  {
    if Submit(t, req).response.status == 200 {
      var s := req.satisfaction.n;
      assert !LessThan(Num(s), 1) && !GreaterThan(Num(s), 5);
      SetFeedbackKeepsConsistent(t, req.callId.n, s, req.notes.s);
    }
  }
}
