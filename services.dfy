/** The service catalogue handlers: list and show services, and the admin
    operations that create, update, soft-delete and re-activate them. */
module Services {
  import opened JsValues
  import opened Enums
  import opened Schema
  import opened Store
  import opened Messages
  import opened Text
  import Aggregates

  /** The fields of a create or update request body; any may be missing.
      createService reads the first four only. */
  datatype ServiceBody = ServiceBody(name: Option<string>, description: Option<string>, price: Option<int>,
                                     duration: Option<int>, isActive: Option<bool>)

  // =====================================================================
  // getAllServices

  /** The ids of the services; an `isActive` query parameter keeps the
      active ones when it is the text "true" and the inactive ones when it
      is any other text. */
  function AllServices(s: State, isActive: Option<string>): (r: set<Id>)
    ensures forall k :: k in r <==> (k in s.services
                                    && (isActive.Some? ==> s.services[k].isActive == (isActive.value == "true")))
  {
    set k | k in s.services && (isActive.Some? ==> s.services[k].isActive == (isActive.value == "true"))
  }

  // =====================================================================
  // createService

  function AddService(s: State, v: Service): State {
    s.(services := s.services[s.nextId := v], nextId := s.nextId + 1)
  }

  /** `!name || !description || !price || !duration` rejects a missing or
      falsy field (so a price of 0 is "required", not "not positive"); the
      sign check follows. */
  function CreateServiceStep(s: State, b: ServiceBody): Reply {
    if !Present(b.name) || !Present(b.description) || !PresentNum(b.price) || !PresentNum(b.duration) then
      Reply(400, ServiceFieldsRequired, s)
    else if b.price.value <= 0 || b.duration.value <= 0 then
      Reply(400, PriceDurationNotPositive, s)
    else
      Reply(201, ServiceCreated,
            AddService(s, Service(Trim(b.name.value), Trim(b.description.value), b.price.value, b.duration.value, true)))
  }

  method CreateService(db: Db, b: ServiceBody) returns (code: nat, message: Msg)
    modifies db
    ensures Reply(code, message, db.Snapshot()) == CreateServiceStep(old(db.Snapshot()), b)
  {
    if !Present(b.name) || !Present(b.description) || !PresentNum(b.price) || !PresentNum(b.duration) {
      return 400, ServiceFieldsRequired;
    }
    if b.price.value <= 0 || b.duration.value <= 0 {
      return 400, PriceDurationNotPositive;
    }
    var id := db.NewId();
    db.services := db.services[id := Service(Trim(b.name.value), Trim(b.description.value),
                                             b.price.value, b.duration.value, true)];
    return 201, ServiceCreated;
  }

  /** A service is created exactly when all four fields are supplied and
      price and duration are positive; it is active, under a fresh id, with
      name and description trimmed. A rejection changes nothing. */
  lemma CreateServiceOutcome(s: State, b: ServiceBody)
    requires IdsBelowNext(s)
    ensures var r := CreateServiceStep(s, b);
      && (r.code == 201 <==> Present(b.name) && Present(b.description) && b.price.Some? && b.duration.Some?
                             && b.price.value > 0 && b.duration.value > 0)
      && (r.message == PriceDurationNotPositive <==>
            Present(b.name) && Present(b.description) && PresentNum(b.price) && PresentNum(b.duration)
            && (b.price.value < 0 || b.duration.value < 0))
      && (r.code != 201 ==> r.state == s)
      && (r.code == 201 ==>
            && s.nextId !in s.services
            && r.state.services == s.services[s.nextId := Service(Trim(b.name.value), Trim(b.description.value),
                                                                  b.price.value, b.duration.value, true)]
            && r.state == s.(services := r.state.services, nextId := s.nextId + 1))
  {
  }

  lemma CreateServiceKeepsValid(s: State, b: ServiceBody)
    requires Valid(s)
    ensures Valid(CreateServiceStep(s, b).state)
  {
    var r := CreateServiceStep(s, b);
    if r.code == 201 {
      assert BookingRefs(r.state.bookings, r.state.users.Keys, r.state.services.Keys, r.state.vehicles.Keys) by {
        assert s.services.Keys <= r.state.services.Keys;
      }
    }
  }

  // =====================================================================
  // updateService

  /** The service with each supplied field written over it: name and
      description when truthy (trimmed), price, duration and the active flag
      whenever present. */
  function PatchService(v: Service, b: ServiceBody): Service {
    v.(name := if Present(b.name) then Trim(b.name.value) else v.name,
       description := if Present(b.description) then Trim(b.description.value) else v.description,
       price := if b.price.Some? then b.price.value else v.price,
       duration := if b.duration.Some? then b.duration.value else v.duration,
       isActive := if b.isActive.Some? then b.isActive.value else v.isActive)
  }

  function UpdateServiceStep(s: State, id: Id, b: ServiceBody): Reply {
    if id !in s.services then Reply(404, ServiceNotFound, s)
    else if b.price.Some? && b.price.value <= 0 then Reply(400, PriceNotPositive, s)
    else if b.duration.Some? && b.duration.value <= 0 then Reply(400, DurationNotPositive, s)
    else Reply(200, ServiceUpdated, s.(services := s.services[id := PatchService(s.services[id], b)]))
  }

  method UpdateService(db: Db, id: Id, b: ServiceBody) returns (code: nat, message: Msg)
    modifies db
    ensures Reply(code, message, db.Snapshot()) == UpdateServiceStep(old(db.Snapshot()), id, b)
  {
    if id !in db.services {
      return 404, ServiceNotFound;
    }
    if b.price.Some? && b.price.value <= 0 {
      return 400, PriceNotPositive;
    }
    if b.duration.Some? && b.duration.value <= 0 {
      return 400, DurationNotPositive;
    }
    db.services := db.services[id := PatchService(db.services[id], b)];
    return 200, ServiceUpdated;
  }

  /** A supplied price or duration that is not positive refuses the whole
      update, price first. Otherwise exactly the supplied fields change and
      every other service and table stays. */
  lemma UpdateServiceOutcome(s: State, id: Id, b: ServiceBody)
    ensures var r := UpdateServiceStep(s, id, b);
      && (r.code == 404 <==> id !in s.services)
      && (r.message == PriceNotPositive <==> id in s.services && b.price.Some? && b.price.value <= 0)
      && (r.message == DurationNotPositive <==>
            id in s.services && !(b.price.Some? && b.price.value <= 0) && b.duration.Some? && b.duration.value <= 0)
      && (r.code == 200 <==> id in s.services && !(b.price.Some? && b.price.value <= 0)
                             && !(b.duration.Some? && b.duration.value <= 0))
      && (r.code != 200 ==> r.state == s)
      && (r.code == 200 ==>
            var v := r.state.services[id];
            && r.state == s.(services := s.services[id := v])
            && (v.name == if Present(b.name) then Trim(b.name.value) else s.services[id].name)
            && (v.description == if Present(b.description) then Trim(b.description.value) else s.services[id].description)
            && (v.price == if b.price.Some? then b.price.value else s.services[id].price)
            && (v.duration == if b.duration.Some? then b.duration.value else s.services[id].duration)
            && (v.isActive == if b.isActive.Some? then b.isActive.value else s.services[id].isActive))
  {
  }

  /** Neither creating nor updating can leave a service with a price or a
      duration that is not positive. */
  lemma UpdateServiceKeepsValid(s: State, id: Id, b: ServiceBody)
    requires Valid(s)
    ensures Valid(UpdateServiceStep(s, id, b).state)
  {
    var r := UpdateServiceStep(s, id, b);
    if r.code == 200 {
      assert r.state.services.Keys == s.services.Keys;
    }
  }

  // =====================================================================
  // deleteService and activateService

  function SetServiceActive(s: State, id: Id, active: bool): State
    requires id in s.services
  {
    s.(services := s.services[id := s.services[id].(isActive := active)])
  }

  /** A soft delete: the record stays, marked inactive. */
  function DeleteServiceStep(s: State, id: Id): Reply {
    if id !in s.services then Reply(404, ServiceNotFound, s)
    else if ServiceBusy(s.bookings, id) then Reply(400, ServiceHasActiveBookings, s)
    else Reply(200, ServiceDeleted, SetServiceActive(s, id, false))
  }

  method DeleteService(db: Db, id: Id) returns (code: nat, message: Msg)
    modifies db
    ensures Reply(code, message, db.Snapshot()) == DeleteServiceStep(old(db.Snapshot()), id)
  {
    if id !in db.services {
      return 404, ServiceNotFound;
    }
    if exists k :: k in db.bookings && db.bookings[k].serviceId == id
                   && (db.bookings[k].status == Pending || db.bookings[k].status == Processing) {
      return 400, ServiceHasActiveBookings;
    }
    db.services := db.services[id := db.services[id].(isActive := false)];
    return 200, ServiceDeleted;
  }

  /** A service with a pending or processing booking is never deleted; a
      delete keeps the record and clears only its active flag. */
  lemma DeleteServiceOutcome(s: State, id: Id)
    ensures var r := DeleteServiceStep(s, id);
      && (r.code == 404 <==> id !in s.services)
      && (r.code == 400 <==> id in s.services && ServiceBusy(s.bookings, id))
      && (r.code == 200 <==> id in s.services && !ServiceBusy(s.bookings, id))
      && (r.code != 200 ==> r.state == s)
      && (r.code == 200 ==>
            && r.state.services.Keys == s.services.Keys
            && r.state.services[id] == s.services[id].(isActive := false)
            && (forall k :: k in s.services && k != id ==> r.state.services[k] == s.services[k])
            && r.state == s.(services := r.state.services))
  {
  }

  function ActivateServiceStep(s: State, id: Id): Reply {
    if id !in s.services then Reply(404, ServiceNotFound, s)
    else Reply(200, ServiceActivated, SetServiceActive(s, id, true))
  }

  method ActivateService(db: Db, id: Id) returns (code: nat, message: Msg)
    modifies db
    ensures Reply(code, message, db.Snapshot()) == ActivateServiceStep(old(db.Snapshot()), id)
  {
    if id !in db.services {
      return 404, ServiceNotFound;
    }
    db.services := db.services[id := db.services[id].(isActive := true)];
    return 200, ServiceActivated;
  }

  /** Activating sets the flag and nothing else; a second call changes
      nothing more. */
  lemma ActivateServiceOutcome(s: State, id: Id)
    ensures var r := ActivateServiceStep(s, id);
      && (r.code == 404 <==> id !in s.services)
      && (r.code == 200 <==> id in s.services)
      && (r.code == 404 ==> r.state == s)
      && (r.code == 200 ==> r.state.services[id] == s.services[id].(isActive := true)
                            && r.state == s.(services := s.services[id := r.state.services[id]]))
      && ActivateServiceStep(r.state, id).state == r.state
  {
  }

  lemma SetServiceActiveKeepsValid(s: State, id: Id, active: bool)
    requires Valid(s) && id in s.services
    ensures Valid(SetServiceActive(s, id, active))
  {
    assert SetServiceActive(s, id, active).services.Keys == s.services.Keys;
  }

  lemma DeleteServiceKeepsValid(s: State, id: Id)
    requires Valid(s)
    ensures Valid(DeleteServiceStep(s, id).state)
  {
    if DeleteServiceStep(s, id).code == 200 {
      SetServiceActiveKeepsValid(s, id, false);
    }
  }

  lemma ActivateServiceKeepsValid(s: State, id: Id)
    requires Valid(s)
    ensures Valid(ActivateServiceStep(s, id).state)
  {
    if ActivateServiceStep(s, id).code == 200 {
      SetServiceActiveKeepsValid(s, id, true);
    }
  }

  // =====================================================================
  // getServiceById

  datatype ServiceStats = ServiceStats(service: Service, totalBookings: nat, averageRating: real, totalReviews: nat)

  /** The service's completed bookings. */
  function DoneBookings(s: State, id: Id): set<Id> {
    set k | k in s.bookings && s.bookings[k].serviceId == id && s.bookings[k].status == Done
  }

  /** The reviews of those bookings. */
  function ServiceReviews(s: State, id: Id): set<Id> {
    set k | k in s.reviews && s.reviews[k].bookingId in s.bookings
            && s.bookings[s.reviews[k].bookingId].serviceId == id
            && s.bookings[s.reviews[k].bookingId].status == Done
  }

  /** `Math.round(x * 10) / 10`: to one decimal place, halves upwards. */
  function RoundTenth(x: real): real {
    ((x * 10.0 + 0.5).Floor as real) / 10.0
  }

  lemma RoundTenthClose(x: real)
    ensures x - 0.05 < RoundTenth(x) <= x + 0.05
  {
    var f := (x * 10.0 + 0.5).Floor as real;
    assert f <= x * 10.0 + 0.5 < f + 1.0;
  }

  /** Rounding to one decimal keeps a value between two whole numbers
      between them. */
  lemma RoundTenthWithin(x: real, lo: int, hi: int)
    requires lo as real <= x <= hi as real
    ensures lo as real <= RoundTenth(x) <= hi as real
  {
    var f := (x * 10.0 + 0.5).Floor;
    assert f as real <= x * 10.0 + 0.5 < f as real + 1.0;
    assert 10 * lo <= f by {
      assert (10 * lo) as real - 1.0 < f as real;
    }
    assert f <= 10 * hi by {
      assert f as real < (10 * hi) as real + 1.0;
    }
    assert RoundTenth(x) == f as real / 10.0;
  }

  function Rating(s: State): nat -> int {
    k => if k in s.reviews then s.reviews[k].rating else 0
  }

  /** The mean rating of the reviews, rounded to one decimal, or 0 when
      there are none. */
  ghost function AverageRating(s: State, id: Id): real {
    var reviews := ServiceReviews(s, id);
    if |reviews| > 0 then RoundTenth(Aggregates.SumOver(reviews, Rating(s)) as real / |reviews| as real) else 0.0
  }

  ghost function GetServiceById(s: State, id: Id): Lookup<ServiceStats> {
    if id !in s.services then NotFound(404, ServiceNotFound)
    else Found(ServiceStats(s.services[id], |DoneBookings(s, id)|, AverageRating(s, id), |ServiceReviews(s, id)|))
  }

  /** Ratings lie between 1 and 5. */
  predicate RatingsInRange(reviews: map<Id, Review>) {
    forall k :: k in reviews ==> 1 <= reviews[k].rating <= 5
  }

  /** Each completed booking has at most one review, so the service has no
      more reviews than completed bookings. */
  lemma ReviewsAtMostBookings(s: State, id: Id)
    requires OneReviewPerBooking(s.reviews)
    ensures |ServiceReviews(s, id)| <= |DoneBookings(s, id)|
  {
    Aggregates.InjectionBound(ServiceReviews(s, id), DoneBookings(s, id),
                              k => if k in s.reviews then s.reviews[k].bookingId else 0);
  }

  /** The average is 0 with no reviews and otherwise lies within the rating
      range. */
  lemma AverageRatingBounds(s: State, id: Id)
    requires RatingsInRange(s.reviews)
    ensures |ServiceReviews(s, id)| == 0 ==> AverageRating(s, id) == 0.0
    ensures |ServiceReviews(s, id)| > 0 ==> 1.0 <= AverageRating(s, id) <= 5.0
  {
    var reviews := ServiceReviews(s, id);
    if |reviews| > 0 {
      var sum := Aggregates.SumOver(reviews, Rating(s));
      Aggregates.SumOverBounds(reviews, Rating(s), 1, 5);
      Aggregates.MeanBounds(sum, |reviews|, 1, 5);
      RoundTenthWithin(sum as real / |reviews| as real, 1, 5);
    }
  }

  /** A service is found whether active or not, with its completed
      bookings, reviews and average as above. */
  lemma ServiceStatsBounds(s: State, id: Id)
    requires OneReviewPerBooking(s.reviews) && RatingsInRange(s.reviews)
    ensures var r := GetServiceById(s, id);
      && (r.Found? <==> id in s.services)
      && (r.Found? ==>
            && r.item.service == s.services[id]
            && r.item.totalReviews <= r.item.totalBookings
            && (r.item.totalReviews == 0 ==> r.item.averageRating == 0.0)
            && (r.item.totalReviews > 0 ==> 0.95 < r.item.averageRating <= 5.05))
  {
    ReviewsAtMostBookings(s, id);
    AverageRatingBounds(s, id);
  }
}
