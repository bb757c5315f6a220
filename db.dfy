/**
  The application's database: four tables keyed by auto-incremented integer ids
  (User, Slot, Booking, Call), the consistency the API handlers keep between them,
  the row-level changes the handlers make, and the `Store` object that holds the
  tables and is updated in place.
 */
module Db {
  import opened Wrappers

  /** Every slot lasts `2 * 60 * 60 * 1000` milliseconds. */
  const TwoHoursMs: int := 2 * 60 * 60 * 1000

  /** A JavaScript `Date` holds a time value within 8.64e15 ms of the epoch; beyond it the date is invalid. */
  const MaxTimeMs: int := 8_640_000_000_000_000

  predicate ValidTime(ms: int) { -MaxTimeMs <= ms <= MaxTimeMs }

  datatype User = User(isCoach: bool, name: string, phone: string)

  /** Times are milliseconds since the epoch. */
  datatype Slot = Slot(startTime: int, endTime: int, isBooked: bool, coachId: int)

  datatype Booking = Booking(slotId: int, studentId: int)

  /** A coach's feedback on one booking; `createdAt` is the database's insertion time. */
  datatype Call = Call(bookingId: int, coachId: int, satisfaction: int, notes: string, createdAt: int)

  /** The contents of the database, with the next id each auto-increment column hands out. */
  datatype Tables = Tables(
    users: map<int, User>,
    slots: map<int, Slot>,
    bookings: map<int, Booking>,
    calls: map<int, Call>,
    nextSlotId: int,
    nextBookingId: int,
    nextCallId: int)

  // ---------------------------------------------------------------- consistency

  /** Every row id was handed out by its table's counter, which starts at 1. */
  predicate IdsAllocated(t: Tables)
  {
    && 0 < t.nextSlotId && 0 < t.nextBookingId && 0 < t.nextCallId
    && (forall id :: id in t.slots ==> 0 < id < t.nextSlotId)
    && (forall id :: id in t.bookings ==> 0 < id < t.nextBookingId)
    && (forall id :: id in t.calls ==> 0 < id < t.nextCallId)
  }

  /** A slot belongs to an existing user, lies within the `Date` range and lasts exactly two hours. */
  predicate SlotWellFormed(s: Slot, users: map<int, User>)
  {
    && s.coachId in users
    && ValidTime(s.startTime)
    && ValidTime(s.endTime)
    && s.endTime == s.startTime + TwoHoursMs
  }

  predicate SlotsWellFormed(t: Tables)
  {
    forall id :: id in t.slots ==> SlotWellFormed(t.slots[id], t.users)
  }

  /** Every booking refers to an existing slot and an existing user. */
  predicate BookingsWellFormed(t: Tables)
  {
    forall id :: id in t.bookings ==> t.bookings[id].slotId in t.slots && t.bookings[id].studentId in t.users
  }

  /** The slots some booking refers to. */
  function BookedSlotIds(bookings: map<int, Booking>): set<int>
  {
    set id | id in bookings :: bookings[id].slotId
  }

  /** The bookings that refer to slot `slotId`. */
  function BookingsOf(t: Tables, slotId: int): set<int>
  {
    set id | id in t.bookings && t.bookings[id].slotId == slotId
  }

  predicate OneBookingPerSlot(t: Tables)
  {
    forall b1, b2 :: b1 in t.bookings && b2 in t.bookings && t.bookings[b1].slotId == t.bookings[b2].slotId ==> b1 == b2
  }

  /** A slot's `isBooked` flag says whether a booking refers to it. */
  predicate BookedFlagsAccurate(t: Tables)
  {
    forall id :: id in t.slots ==> (t.slots[id].isBooked <==> id in BookedSlotIds(t.bookings))
  }

  /** The coach of the slot that booking `bookingId` is for, when both rows exist. */
  function BookingCoach(t: Tables, bookingId: int): Option<int>
  {
    if bookingId in t.bookings && t.bookings[bookingId].slotId in t.slots
    then Some(t.slots[t.bookings[bookingId].slotId].coachId)
    else None
  }

  /**
    A call refers to an existing booking, was recorded by the coach who owns that
    booking's slot, rates it from 1 to 5 and carries notes.
   */
  predicate CallWellFormed(t: Tables, c: Call)
  {
    && c.bookingId in t.bookings
    && BookingCoach(t, c.bookingId) == Some(c.coachId)
    && 1 <= c.satisfaction <= 5
    && c.notes != ""
  }

  predicate CallsWellFormed(t: Tables)
  {
    forall id :: id in t.calls ==> CallWellFormed(t, t.calls[id])
  }

  /** The bookings that already have a call. */
  function CalledBookingIds(calls: map<int, Call>): set<int>
  {
    set id | id in calls :: calls[id].bookingId
  }

  predicate OneCallPerBooking(t: Tables)
  {
    forall c1, c2 :: c1 in t.calls && c2 in t.calls && t.calls[c1].bookingId == t.calls[c2].bookingId ==> c1 == c2
  }

  /** Everything the handlers keep true of the database. */
  predicate Consistent(t: Tables)
    ensures Consistent(t) ==> forall id :: id in t.calls ==>
      && 1 <= t.calls[id].satisfaction <= 5 && t.calls[id].notes != ""
      && BookingCoach(t, t.calls[id].bookingId) == Some(t.calls[id].coachId)
    ensures Consistent(t) ==> forall id :: id in t.bookings ==> t.bookings[id].slotId in t.slots && t.slots[t.bookings[id].slotId].isBooked
  {
    && IdsAllocated(t)
    && SlotsWellFormed(t)
    && BookingsWellFormed(t)
    && OneBookingPerSlot(t)
    && BookedFlagsAccurate(t)
    && CallsWellFormed(t)
    && OneCallPerBooking(t)
  }

  // ---------------------------------------------------------------- row changes

  /** `prisma.slot.create`: the new row gets the next slot id. */
  function AddSlot(t: Tables, s: Slot): Tables
  {
    t.(slots := t.slots[t.nextSlotId := s], nextSlotId := t.nextSlotId + 1)
  }

  /** `prisma.booking.create`. */
  function AddBooking(t: Tables, b: Booking): Tables
  {
    t.(bookings := t.bookings[t.nextBookingId := b], nextBookingId := t.nextBookingId + 1)
  }

  /** `prisma.slot.update({ data: { isBooked: true } })`. */
  function MarkBooked(t: Tables, slotId: int): Tables
    requires slotId in t.slots
  {
    t.(slots := t.slots[slotId := t.slots[slotId].(isBooked := true)])
  }

  /** The booking transaction: insert the booking, then flag its slot. */
  function Book(t: Tables, slotId: int, studentId: int): Tables
    requires slotId in t.slots
  {
    MarkBooked(AddBooking(t, Booking(slotId, studentId)), slotId)
  }

  /** `prisma.call.create`. */
  function AddCall(t: Tables, c: Call): Tables
  {
    t.(calls := t.calls[t.nextCallId := c], nextCallId := t.nextCallId + 1)
  }

  /** `prisma.call.update({ data: { satisfaction, notes } })`. */
  function SetFeedback(t: Tables, callId: int, satisfaction: int, notes: string): Tables
    requires callId in t.calls
  {
    t.(calls := t.calls[callId := t.calls[callId].(satisfaction := satisfaction, notes := notes)])
  }

  // ---------------------------------------------------------------- lemmas

  /** A slot is booked exactly when one booking -- no more, no fewer -- refers to it. */
  lemma BookedIffExactlyOneBooking(t: Tables, slotId: int)
    requires Consistent(t) && slotId in t.slots
    ensures t.slots[slotId].isBooked <==> |BookingsOf(t, slotId)| == 1
  {
    var bs := BookingsOf(t, slotId);
    if t.slots[slotId].isBooked {
      var b :| b in t.bookings && t.bookings[b].slotId == slotId;
      forall x | x in bs ensures x == b {
        assert t.bookings[x].slotId == t.bookings[b].slotId;
      }
      assert bs == {b};
    } else {
      forall x | x in t.bookings ensures t.bookings[x].slotId in BookedSlotIds(t.bookings) {
      }
      assert bs == {};
    }
  }

  /** Publishing a well-formed, unbooked slot keeps the database consistent. */
  lemma AddSlotKeepsConsistent(t: Tables, s: Slot)
    requires Consistent(t)
    requires SlotWellFormed(s, t.users) && !s.isBooked
    ensures Consistent(AddSlot(t, s))
  {
    var t' := AddSlot(t, s);
    assert t.nextSlotId !in t.slots;
    assert t.nextSlotId !in BookedSlotIds(t.bookings) by {
      forall b | b in t.bookings ensures t.bookings[b].slotId != t.nextSlotId {
        assert t.bookings[b].slotId in t.slots;
      }
    }
    forall id | id in t'.calls ensures CallWellFormed(t', t'.calls[id]) {
      assert BookingCoach(t', t.calls[id].bookingId) == BookingCoach(t, t.calls[id].bookingId);
    }
    assert IdsAllocated(t');
    assert SlotsWellFormed(t');
    assert BookingsWellFormed(t');
    assert OneBookingPerSlot(t');
    assert BookedFlagsAccurate(t');
    assert CallsWellFormed(t');
    assert OneCallPerBooking(t');
  }

  /** Booking a free slot for an existing user keeps the database consistent. */
  lemma BookKeepsConsistent(t: Tables, slotId: int, studentId: int)
    requires Consistent(t)
    requires slotId in t.slots && !t.slots[slotId].isBooked && studentId in t.users
    ensures Consistent(Book(t, slotId, studentId))
  {
    var t' := Book(t, slotId, studentId);
    var n := t.nextBookingId;
    assert n !in t.bookings;
    assert slotId !in BookedSlotIds(t.bookings);
    assert BookedSlotIds(t'.bookings) == BookedSlotIds(t.bookings) + {slotId} by {
      forall x | x in BookedSlotIds(t'.bookings) ensures x in BookedSlotIds(t.bookings) + {slotId} {
        var b :| b in t'.bookings && t'.bookings[b].slotId == x;
        if b != n { assert b in t.bookings; }
      }
      forall x | x in BookedSlotIds(t.bookings) ensures x in BookedSlotIds(t'.bookings) {
        var b :| b in t.bookings && t.bookings[b].slotId == x;
        assert b in t'.bookings;
      }
      assert t'.bookings[n].slotId == slotId;
    }
    forall b | b in t.bookings ensures t.bookings[b].slotId != slotId {
      assert t.bookings[b].slotId in BookedSlotIds(t.bookings);
    }
    forall id | id in t'.calls ensures CallWellFormed(t', t'.calls[id]) {
      var c := t.calls[id];
      assert BookingCoach(t', c.bookingId) == BookingCoach(t, c.bookingId);
    }
  }

  /** Recording a well-formed call for a booking that has none keeps the database consistent. */
  lemma AddCallKeepsConsistent(t: Tables, c: Call)
    requires Consistent(t)
    requires CallWellFormed(t, c) && c.bookingId !in CalledBookingIds(t.calls)
    ensures Consistent(AddCall(t, c))
  {
    var t' := AddCall(t, c);
    var n := t.nextCallId;
    assert n !in t.calls;
    forall id | id in t.calls ensures t.calls[id].bookingId != c.bookingId {
      assert t.calls[id].bookingId in CalledBookingIds(t.calls);
    }
    forall id | id in t'.calls ensures CallWellFormed(t', t'.calls[id]) {
      assert BookingCoach(t', t'.calls[id].bookingId) == BookingCoach(t, t'.calls[id].bookingId);
    }
  }

  /** Overwriting a call's rating and notes with valid ones keeps the database consistent. */
  lemma SetFeedbackKeepsConsistent(t: Tables, callId: int, satisfaction: int, notes: string)
    requires Consistent(t) && callId in t.calls
    requires 1 <= satisfaction <= 5 && notes != ""
    ensures Consistent(SetFeedback(t, callId, satisfaction, notes))
  {
    var t' := SetFeedback(t, callId, satisfaction, notes);
    forall id | id in t'.calls ensures CallWellFormed(t', t'.calls[id]) {
      assert BookingCoach(t', t'.calls[id].bookingId) == BookingCoach(t, t.calls[id].bookingId);
    }
    forall c1, c2 | c1 in t'.calls && c2 in t'.calls && t'.calls[c1].bookingId == t'.calls[c2].bookingId
      ensures c1 == c2
    {
      assert t.calls[c1].bookingId == t.calls[c2].bookingId;
    }
  }

  // ---------------------------------------------------------------- the store

  /** The database connection: the four tables, updated in place by the handlers. */
  class Store {
    var users: map<int, User>
    var slots: map<int, Slot>
    var bookings: map<int, Booking>
    var calls: map<int, Call>
    var nextSlotId: int
    var nextBookingId: int
    var nextCallId: int

    /** The current contents of the database. */
    function Snapshot(): Tables
      reads this
    {
      Tables(users, slots, bookings, calls, nextSlotId, nextBookingId, nextCallId)
    }

    predicate Valid()
      reads this
    {
      Consistent(Snapshot())
    }

    /** A database holding the given users and nothing else. */
    constructor (users: map<int, User>)
      ensures Valid()
      ensures Snapshot() == Tables(users, map[], map[], map[], 1, 1, 1)
    {
      this.users := users;
      slots, bookings, calls := map[], map[], map[];
      nextSlotId, nextBookingId, nextCallId := 1, 1, 1;
    }

    method InsertSlot(s: Slot) returns (id: int)
      modifies this
      ensures id == old(nextSlotId)
      ensures Snapshot() == AddSlot(old(Snapshot()), s)
    {
      id := nextSlotId;
      slots := slots[id := s];
      nextSlotId := nextSlotId + 1;
    }

    method InsertBooking(b: Booking) returns (id: int)
      modifies this
      ensures id == old(nextBookingId)
      ensures Snapshot() == AddBooking(old(Snapshot()), b)
    {
      id := nextBookingId;
      bookings := bookings[id := b];
      nextBookingId := nextBookingId + 1;
    }

    method SetBooked(slotId: int)
      requires slotId in slots
      modifies this
      ensures Snapshot() == MarkBooked(old(Snapshot()), slotId)
    {
      slots := slots[slotId := slots[slotId].(isBooked := true)];
    }

    method InsertCall(c: Call) returns (id: int)
      modifies this
      ensures id == old(nextCallId)
      ensures Snapshot() == AddCall(old(Snapshot()), c)
    {
      id := nextCallId;
      calls := calls[id := c];
      nextCallId := nextCallId + 1;
    }

    method UpdateFeedback(callId: int, satisfaction: int, notes: string)
      requires callId in calls
      modifies this
      ensures Snapshot() == SetFeedback(old(Snapshot()), callId, satisfaction, notes)
    {
      calls := calls[callId := calls[callId].(satisfaction := satisfaction, notes := notes)];
    }
  }
}
