/** The booking handlers: create, cancel, look up, and the free time slots
    of a day. */
module Bookings {
  import opened JsValues
  import opened Enums
  import opened Schema
  import opened Store
  import opened Messages
  import Validation
  import Text

  // =====================================================================
  // createBooking

  /** `vehicle.findFirst({ where: { id, userId, isActive: true } })` */
  predicate OwnsActiveVehicle(vehicles: map<Id, Vehicle>, caller: Id, id: Id) {
    id in vehicles && vehicles[id].userId == caller && vehicles[id].isActive
  }

  predicate ServiceActive(services: map<Id, Service>, id: Id) {
    id in services && services[id].isActive
  }

  /** The booking createBooking stores under a new id. */
  function NewBooking(caller: Id, serviceId: Id, vehicleId: Option<Id>, date: int, timeSlot: string,
                      location: string, notes: Option<string>, now: int): (b: Booking)
    ensures b.status == Pending && b.userId == caller && b.date == date && b.timeSlot == timeSlot
    ensures b.notes.Some? <==> Present(notes)
  {
    Booking(caller, serviceId, vehicleId, date, timeSlot, location, OrNull(notes), Pending, now)
  }

  /** createBooking as a step on the database. `vehicleId` is None when the
      body has no truthy vehicle id; `now` is the creation time. The last
      guard is the foreign key on the caller: a token for a user who is not
      in the table makes the insert fail, which the error handler reports
      as 400 InvalidInputData. */
  function CreateBookingStep(s: State, caller: Id, serviceId: Id, vehicleId: Option<Id>, date: int,
                             timeSlot: string, location: string, notes: Option<string>, now: int): Reply
  {
    if !ServiceActive(s.services, serviceId) then Reply(404, ServiceNotFoundOrInactive, s)
    else if vehicleId.Some? && !OwnsActiveVehicle(s.vehicles, caller, vehicleId.value) then
      Reply(404, VehicleNotOwned, s)
    else if SlotTaken(s.bookings, date, timeSlot) then Reply(400, SlotAlreadyBooked, s)
    else if caller !in s.users then Reply(400, InvalidInputData, s)
    else
      var b := NewBooking(caller, serviceId, vehicleId, date, timeSlot, location, notes, now);
      Reply(201, BookingCreated, Log(AddBooking(s, b), HistoryRow(s.nextId, Pending, "Booking created")))
  }

  /** The database with `b` stored under the next id. */
  function AddBooking(s: State, b: Booking): State {
    s.(bookings := s.bookings[s.nextId := b], nextId := s.nextId + 1)
  }

  method CreateBooking(db: Db, caller: Id, serviceId: Id, vehicleId: Option<Id>, date: int,
                       timeSlot: string, location: string, notes: Option<string>, now: int)
    returns (code: nat, message: Msg)
    modifies db
    ensures Reply(code, message, db.Snapshot())
         == CreateBookingStep(old(db.Snapshot()), caller, serviceId, vehicleId, date, timeSlot, location, notes, now)
  {
    if !(serviceId in db.services && db.services[serviceId].isActive) {
      return 404, ServiceNotFoundOrInactive;
    }
    if vehicleId.Some? {
      var v := vehicleId.value;
      if !(v in db.vehicles && db.vehicles[v].userId == caller && db.vehicles[v].isActive) {
        return 404, VehicleNotOwned;
      }
    }
    if exists k :: k in db.bookings && db.bookings[k].date == date && db.bookings[k].timeSlot == timeSlot
                   && (db.bookings[k].status == Pending || db.bookings[k].status == Processing) {
      return 400, SlotAlreadyBooked;
    }
    if caller !in db.users {
      return 400, InvalidInputData;
    }
    var id := db.NewId();
    db.bookings := db.bookings[id := NewBooking(caller, serviceId, vehicleId, date, timeSlot, location, notes, now)];
    db.history := db.history + [HistoryRow(id, Pending, "Booking created")];
    return 201, BookingCreated;
  }

  /** Which request createBooking accepts, and what a rejection leaves. */
  lemma CreateBookingOutcome(s: State, caller: Id, serviceId: Id, vehicleId: Option<Id>, date: int,
                             timeSlot: string, location: string, notes: Option<string>, now: int)
    ensures var r := CreateBookingStep(s, caller, serviceId, vehicleId, date, timeSlot, location, notes, now);
      && (r.code == 404 <==> !ServiceActive(s.services, serviceId)
                             || (vehicleId.Some? && !OwnsActiveVehicle(s.vehicles, caller, vehicleId.value)))
      && (r.message == SlotAlreadyBooked <==>
            r.code != 404 && SlotTaken(s.bookings, date, timeSlot))
      && (r.code == 201 <==> ServiceActive(s.services, serviceId)
                             && (vehicleId.Some? ==> OwnsActiveVehicle(s.vehicles, caller, vehicleId.value))
                             && !SlotTaken(s.bookings, date, timeSlot) && caller in s.users)
      && (r.code != 201 ==> r.state == s)
  {
  }

  /** A successful createBooking adds exactly one booking, under a fresh
      id, in status pending, and exactly one history row recording it. */
  lemma CreateBookingAddsOne(s: State, caller: Id, serviceId: Id, vehicleId: Option<Id>, date: int,
                             timeSlot: string, location: string, notes: Option<string>, now: int)
    requires Valid(s)
    ensures var r := CreateBookingStep(s, caller, serviceId, vehicleId, date, timeSlot, location, notes, now);
      r.code == 201 ==>
        && r.state.bookings.Keys == s.bookings.Keys + {s.nextId} && s.nextId !in s.bookings
        && (forall k :: k in s.bookings ==> r.state.bookings[k] == s.bookings[k])
        && r.state.bookings[s.nextId].status == Pending
        && r.state.bookings[s.nextId].userId == caller
        && r.state.bookings[s.nextId].vehicleId == vehicleId
        && (r.state.bookings[s.nextId].notes == None <==> !Present(notes))
        && |r.state.history| == |s.history| + 1
        && r.state.history[..|s.history|] == s.history
        && r.state.history[|s.history|] == HistoryRow(s.nextId, Pending, "Booking created")
        && r.state.transactions == s.transactions && r.state.reviews == s.reviews
  {
    var r := CreateBookingStep(s, caller, serviceId, vehicleId, date, timeSlot, location, notes, now);
    if r.code == 201 {
      assert r.state.history[..|s.history|] == s.history;
    }
  }

  lemma CreateBookingKeepsValid(s: State, caller: Id, serviceId: Id, vehicleId: Option<Id>, date: int,
                                timeSlot: string, location: string, notes: Option<string>, now: int)
    requires Valid(s)
    ensures Valid(CreateBookingStep(s, caller, serviceId, vehicleId, date, timeSlot, location, notes, now).state)
  {
    var r := CreateBookingStep(s, caller, serviceId, vehicleId, date, timeSlot, location, notes, now);
    if r.code == 201 {
      var b := NewBooking(caller, serviceId, vehicleId, date, timeSlot, location, notes, now);
      AddBookingKeepsValid(s, b);
      LogKeepsValid(AddBooking(s, b), HistoryRow(s.nextId, Pending, "Booking created"));
    }
  }

  /** Adding a booking under a fresh id keeps the constraints when its
      user, service and vehicle exist. */
  lemma AddBookingKeepsValid(s: State, b: Booking)
    requires Valid(s)
    requires b.userId in s.users && b.serviceId in s.services
    requires b.vehicleId.Some? ==> b.vehicleId.value in s.vehicles
    ensures Valid(AddBooking(s, b))
  {
    AddBookingKeepsIds(s, b);
    AddBookingKeepsRefs(s, b);
  }

  lemma AddBookingKeepsIds(s: State, b: Booking)
    requires IdsBelowNext(s)
    ensures IdsBelowNext(AddBooking(s, b))
  {
  }

  lemma AddBookingKeepsRefs(s: State, b: Booking)
    requires RefsResolve(s)
    requires b.userId in s.users && b.serviceId in s.services
    requires b.vehicleId.Some? ==> b.vehicleId.value in s.vehicles
    ensures RefsResolve(AddBooking(s, b))
  {
  }

  /** The slot check keeps the slot rule: a new booking never shares its
      date and time slot with a pending or processing one. */
  lemma {:induction false} CreateBookingKeepsSlotRule(s: State, caller: Id, serviceId: Id, vehicleId: Option<Id>,
                                  date: int, timeSlot: string, location: string, notes: Option<string>, now: int)
    requires Valid(s) && SlotRule(s)
    ensures SlotRule(CreateBookingStep(s, caller, serviceId, vehicleId, date, timeSlot, location, notes, now).state)
  {
    var r := CreateBookingStep(s, caller, serviceId, vehicleId, date, timeSlot, location, notes, now);
    if r.code == 201 {
      var t := r.state;
      var id := s.nextId;
      forall a, b | a in t.bookings && b in t.bookings && a != b &&
                    Occupies(t.bookings[a].status) && Occupies(t.bookings[b].status) &&
                    t.bookings[a].date == t.bookings[b].date
        ensures t.bookings[a].timeSlot != t.bookings[b].timeSlot
      {
        if a == id {
          assert b in s.bookings && t.bookings[b] == s.bookings[b];
        } else if b == id {
          assert a in s.bookings && t.bookings[a] == s.bookings[a];
        }
      }
    }
  }

  // =====================================================================
  // cancelBooking

  /** The booking's transactions after a cancel: a paid one is refunded,
      every other one is left as it is. */
  function RefundPaid(transactions: map<Id, Transaction>, bookingId: Id): (r: map<Id, Transaction>)
    ensures r.Keys == transactions.Keys
    ensures forall k :: k in transactions ==>
      if transactions[k].bookingId == bookingId && transactions[k].status == Paid
      then r[k] == transactions[k].(status := Refunded)
      else r[k] == transactions[k]
  {
    map k | k in transactions ::
      if transactions[k].bookingId == bookingId && transactions[k].status == Paid
      then transactions[k].(status := Refunded) else transactions[k]
  }

  function CancelBookingStep(s: State, caller: Id, id: Id, reason: Option<string>): Reply {
    if !OwnsBooking(s, caller, id) then Reply(404, BookingNotFound, s)
    else if s.bookings[id].status == Cancelled then Reply(400, BookingAlreadyCancelled, s)
    else if s.bookings[id].status == Done then Reply(400, CannotCancelCompleted, s)
    else
      var s1 := Log(SetBookingStatus(s, id, Cancelled), HistoryRow(id, Cancelled, OrElse(reason, "Cancelled by user")));
      Reply(200, BookingCancelled, s1.(transactions := RefundPaid(s1.transactions, id)))
  }

  /** The booking's transaction is one-to-one with it in the schema, so
      updating the row whose booking is `id` is a comprehension over the
      table. */
  method CancelBooking(db: Db, caller: Id, id: Id, reason: Option<string>) returns (code: nat, message: Msg)
    modifies db
    ensures Reply(code, message, db.Snapshot()) == CancelBookingStep(old(db.Snapshot()), caller, id, reason)
  {
    if !(id in db.bookings && db.bookings[id].userId == caller) {
      return 404, BookingNotFound;
    }
    var booking := db.bookings[id];
    if booking.status == Cancelled {
      return 400, BookingAlreadyCancelled;
    }
    if booking.status == Done {
      return 400, CannotCancelCompleted;
    }
    db.bookings := db.bookings[id := booking.(status := Cancelled)];
    var notes := if reason.Some? && reason.value != "" then reason.value else "Cancelled by user";
    db.history := db.history + [HistoryRow(id, Cancelled, notes)];
    db.transactions := map k | k in db.transactions ::
      if db.transactions[k].bookingId == id && db.transactions[k].status == Paid
      then db.transactions[k].(status := Refunded) else db.transactions[k];
    return 200, BookingCancelled;
  }

  /** cancelBooking accepts only the caller's own pending or processing
      booking; a rejection changes nothing. On success the booking is
      cancelled, one history row records the reason (or the default
      text), a paid transaction of the booking becomes refunded and every
      other transaction, every other booking and the other tables are
      unchanged. */
  lemma CancelBookingOutcome(s: State, caller: Id, id: Id, reason: Option<string>)
    ensures var r := CancelBookingStep(s, caller, id, reason);
      && (r.code == 404 <==> !OwnsBooking(s, caller, id))
      && (r.code == 400 <==> OwnsBooking(s, caller, id) && !Occupies(s.bookings[id].status))
      && (r.code == 200 <==> OwnsBooking(s, caller, id) && Occupies(s.bookings[id].status))
      && (r.code != 200 ==> r.state == s)
      && (r.code == 200 ==>
            && r.state.bookings.Keys == s.bookings.Keys
            && r.state.bookings[id] == s.bookings[id].(status := Cancelled)
            && (forall k :: k in s.bookings && k != id ==> r.state.bookings[k] == s.bookings[k])
            && r.state.history == s.history + [HistoryRow(id, Cancelled, if Present(reason) then reason.value else "Cancelled by user")]
            && r.state.transactions.Keys == s.transactions.Keys
            && (forall k :: k in s.transactions && s.transactions[k].status != Paid ==>
                  r.state.transactions[k] == s.transactions[k])
            && (forall k :: k in s.transactions && s.transactions[k].bookingId == id && s.transactions[k].status == Paid ==>
                  r.state.transactions[k].status == Refunded)
            && (forall k :: k in s.transactions && s.transactions[k].bookingId != id ==>
                  r.state.transactions[k] == s.transactions[k])
            && r.state == s.(bookings := r.state.bookings, history := r.state.history,
                             transactions := RefundPaid(s.transactions, id)))
  {
  }

  lemma CancelBookingKeepsValid(s: State, caller: Id, id: Id, reason: Option<string>)
    requires Valid(s)
    ensures Valid(CancelBookingStep(s, caller, id, reason).state)
  {
    if OwnsBooking(s, caller, id) && Occupies(s.bookings[id].status) {
      var row := HistoryRow(id, Cancelled, OrElse(reason, "Cancelled by user"));
      CancelledKeepsValid(s, id, row);
    }
  }

  lemma CancelledKeepsValid(s: State, id: Id, row: HistoryRow)
    requires Valid(s) && id in s.bookings && row.bookingId == id
    ensures var s1 := Log(SetBookingStatus(s, id, Cancelled), row);
      Valid(s1.(transactions := RefundPaid(s1.transactions, id)))
  {
    var s0 := SetBookingStatus(s, id, Cancelled);
    BookingStatusKeepsValid(s, id, Cancelled);
    LogKeepsValid(s0, row);
    RefundKeepsValid(Log(s0, row), id);
  }

  /** Refunding keeps the constraints: it only rewrites statuses. */
  lemma RefundKeepsValid(s: State, id: Id)
    requires Valid(s)
    ensures Valid(s.(transactions := RefundPaid(s.transactions, id)))
  {
    TxStatusesKeepValid(s, RefundPaid(s.transactions, id));
  }

  /** Cancelling only takes a booking out of its slot, so it keeps the
      slot rule. */
  lemma CancelBookingKeepsSlotRule(s: State, caller: Id, id: Id, reason: Option<string>)
    requires SlotRule(s)
    ensures SlotRule(CancelBookingStep(s, caller, id, reason).state)
  {
  }

  /** Under the slot rule a cancelled booking was the only one holding its
      slot, so after the cancel the slot is free to book again. */
  lemma CancelFreesSlot(s: State, caller: Id, id: Id, reason: Option<string>)
    requires SlotRule(s)
    requires CancelBookingStep(s, caller, id, reason).code == 200
    ensures !SlotTaken(CancelBookingStep(s, caller, id, reason).state.bookings,
                       s.bookings[id].date, s.bookings[id].timeSlot)
  {
  }

  // =====================================================================
  // getBookingById


  /** The booking with `id`, only when it is the caller's. */
  function GetBookingById(s: State, caller: Id, id: Id): (r: Lookup<Booking>)
    ensures r.Found? <==> OwnsBooking(s, caller, id)
    ensures r.Found? ==> r.item == s.bookings[id] && r.item.userId == caller
    ensures r.NotFound? ==> r == NotFound(404, BookingNotFound)
  {
    if id in s.bookings && s.bookings[id].userId == caller then Found(s.bookings[id])
    else NotFound(404, BookingNotFound)
  }

  // =====================================================================
  // getAvailableTimeSlots

  /** The fixed slot catalog, in the order the handler lists it: one-hour
      slots from 08:00 to 12:00 and from 13:00 to 17:00. */
  const Catalog: seq<string> := ["08:00-09:00", "09:00-10:00", "10:00-11:00", "11:00-12:00",
                                 "13:00-14:00", "14:00-15:00", "15:00-16:00", "16:00-17:00"]

  /** Time slots of the pending and processing bookings on `date`. */
  function BookedSlots(bookings: map<Id, Booking>, date: int): (r: set<string>)
    ensures forall t :: t in r <==> SlotTaken(bookings, date, t)
  {
    set k | k in bookings && bookings[k].date == date && Occupies(bookings[k].status) :: bookings[k].timeSlot
  }

  /** `slots.filter(slot => !booked.includes(slot))` */
  function Unbooked(slots: seq<string>, booked: set<string>): (r: seq<string>)
  {
    if slots == [] then []
    else (if slots[0] in booked then [] else [slots[0]]) + Unbooked(slots[1..], booked)
  }

  /** s is s' with some elements dropped, order kept. */
  predicate Subsequence(s: seq<string>, s': seq<string>) {
    if s == [] then true
    else if s' == [] then false
    else if s[0] == s'[0] then Subsequence(s[1..], s'[1..])
    else Subsequence(s, s'[1..])
  }

  /** The filter keeps exactly the unbooked slots, in their original order. */
  lemma {:induction false} UnbookedExact(slots: seq<string>, booked: set<string>)
    ensures forall t :: t in Unbooked(slots, booked) <==> t in slots && t !in booked
    ensures Subsequence(Unbooked(slots, booked), slots)
  {
    if slots != [] {
      UnbookedExact(slots[1..], booked);
      var rest := Unbooked(slots[1..], booked);
      assert slots == [slots[0]] + slots[1..];
      if slots[0] !in booked {
        var u := [slots[0]] + rest;
        assert Unbooked(slots, booked) == u;
        assert u != [] && u[0] == slots[0] && u[1..] == rest;
      } else {
        assert Unbooked(slots, booked) == rest;
        SubsequenceOfTail(rest, slots);
      }
    }
  }

  lemma {:induction false} SubsequenceOfTail(s: seq<string>, s': seq<string>)
    requires s' != [] && Subsequence(s, s'[1..])
    ensures Subsequence(s, s')
    decreases |s'|, 0
  {
    if s != [] && s[0] == s'[0] {
      SubsequenceDropHead(s, s'[1..]);
    }
  }

  lemma {:induction false} SubsequenceDropHead(s: seq<string>, t: seq<string>)
    requires s != [] && Subsequence(s, t)
    ensures Subsequence(s[1..], t)
    decreases |t|, 1
  {
    assert t != [];
    if s[0] == t[0] {
      SubsequenceOfTail(s[1..], t);
    } else {
      SubsequenceDropHead(s, t[1..]);
      SubsequenceOfTail(s[1..], t);
    }
  }

  datatype SlotsReply = BadDate(code: nat, message: Msg) | Slots(available: seq<string>, booked: set<string>)

  /** `date` is the parsed query date, None when it is missing or does not
      parse. */
  function GetAvailableTimeSlots(s: State, date: Option<int>): (r: SlotsReply)
    ensures r.BadDate? <==> date.None?
    ensures r.BadDate? ==> r == BadDate(400, ValidDateRequired)
  {
    if date.None? then BadDate(400, ValidDateRequired)
    else
      var booked := BookedSlots(s.bookings, date.value);
      Slots(Unbooked(Catalog, booked), booked)
  }

  /** The available slots are the catalog slots nobody holds on that day,
      in catalog order; none of them is held, and each is a well-formed
      time slot. */
  lemma AvailableSlotsExact(s: State, date: int)
    ensures var r := GetAvailableTimeSlots(s, Some(date));
      && Subsequence(r.available, Catalog)
      && (forall t :: t in r.available <==> t in Catalog && !SlotTaken(s.bookings, date, t))
      && (forall t :: t in r.available ==> t !in r.booked && Validation.IsValidTimeSlot(t))
  {
    var booked := BookedSlots(s.bookings, date);
    UnbookedExact(Catalog, booked);
    CatalogWellFormed();
  }

  /** An "HH:MM-HH:MM" text whose parts read as hours and minutes is a
      well-formed slot. */
  lemma FixedWidthSlot(t: string)
    requires |t| == 11 && t[2] == ':' && t[5] == '-' && t[8] == ':'
    requires Validation.HourText(t[..2]) && Validation.MinuteText(t[3..5])
    requires Validation.HourText(t[6..8]) && Validation.MinuteText(t[9..])
    ensures Validation.IsValidTimeSlot(t)
  {
    var a, b := t[..5], t[6..];
    assert a[2] == ':' && a[..2] == t[..2] && a[3..] == t[3..5];
    assert Validation.TimeText(a);
    assert b[2] == ':' && b[..2] == t[6..8] && b[3..] == t[9..];
    assert Validation.TimeText(b);
    assert t[..5] == a && t[6..] == b;
  }

  /** Every catalog slot passes the time-slot validator. */
  lemma CatalogWellFormed()
    ensures forall i :: 0 <= i < |Catalog| ==> Validation.IsValidTimeSlot(Catalog[i])
  {
    forall i | 0 <= i < |Catalog| ensures Validation.IsValidTimeSlot(Catalog[i]) {
      FixedWidthSlot(Catalog[i]);
    }
  }
}
