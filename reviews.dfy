/** The review handlers: create, update and delete the caller's review of
    a finished booking, look a review up by booking, and the rating
    statistics. */
module Reviews {
  import opened JsValues
  import opened Enums
  import opened Schema
  import opened Store
  import opened Messages
  import Aggregates

  // =====================================================================
  // createReview

  /** The review createReview stores: an empty comment becomes null. */
  function NewReview(caller: Id, bookingId: Id, rating: int, comment: Option<string>): (r: Review)
    ensures r.userId == caller && r.bookingId == bookingId && r.rating == rating
    ensures r.comment.Some? <==> Present(comment)
  {
    Review(caller, bookingId, rating, OrNull(comment))
  }

  /** The database with `r` stored under the next id. */
  function AddReview(s: State, r: Review): State {
    s.(reviews := s.reviews[s.nextId := r], nextId := s.nextId + 1)
  }

  /** createReview as a step on the database. The rating has passed the
      review validator before the handler runs. */
  function CreateReviewStep(s: State, caller: Id, bookingId: Id, rating: int, comment: Option<string>): Reply {
    if !OwnsBooking(s, caller, bookingId) then Reply(404, BookingNotFound, s)
    else if s.bookings[bookingId].status != Done then Reply(400, CanOnlyReviewDone, s)
    else if HasReview(s.reviews, bookingId) then Reply(400, ReviewAlreadyExists, s)
    else Reply(201, ReviewCreated, AddReview(s, NewReview(caller, bookingId, rating, comment)))
  }

  method CreateReview(db: Db, caller: Id, bookingId: Id, rating: int, comment: Option<string>)
    returns (code: nat, message: Msg)
    modifies db
    ensures Reply(code, message, db.Snapshot()) == CreateReviewStep(old(db.Snapshot()), caller, bookingId, rating, comment)
  {
    if !(bookingId in db.bookings && db.bookings[bookingId].userId == caller) {
      return 404, BookingNotFound;
    }
    if db.bookings[bookingId].status != Done {
      return 400, CanOnlyReviewDone;
    }
    if exists k :: k in db.reviews && db.reviews[k].bookingId == bookingId {
      return 400, ReviewAlreadyExists;
    }
    var id := db.NewId();
    db.reviews := db.reviews[id := NewReview(caller, bookingId, rating, comment)];
    return 201, ReviewCreated;
  }

  /** Only the caller's own finished, not yet reviewed booking can be
      reviewed; a rejection changes nothing, and a success adds exactly
      one review under a fresh id and touches no other table. */
  lemma CreateReviewOutcome(s: State, caller: Id, bookingId: Id, rating: int, comment: Option<string>)
    requires IdsBelowNext(s)
    ensures var r := CreateReviewStep(s, caller, bookingId, rating, comment);
      && (r.code == 404 <==> !OwnsBooking(s, caller, bookingId))
      && (r.message == CanOnlyReviewDone <==> OwnsBooking(s, caller, bookingId) && s.bookings[bookingId].status != Done)
      && (r.code == 201 <==> OwnsBooking(s, caller, bookingId) && s.bookings[bookingId].status == Done
                             && !HasReview(s.reviews, bookingId))
      && (r.code != 201 ==> r.state == s)
      && (r.code == 201 ==>
            && s.nextId !in s.reviews
            && r.state.reviews.Keys == s.reviews.Keys + {s.nextId}
            && (forall k :: k in s.reviews ==> r.state.reviews[k] == s.reviews[k])
            && r.state.reviews[s.nextId] == Review(caller, bookingId, rating, OrNull(comment))
            && r.state == s.(reviews := r.state.reviews, nextId := s.nextId + 1))
  {
  }

  lemma CreateReviewKeepsValid(s: State, caller: Id, bookingId: Id, rating: int, comment: Option<string>)
    requires Valid(s)
    ensures Valid(CreateReviewStep(s, caller, bookingId, rating, comment).state)
  {
    if CreateReviewStep(s, caller, bookingId, rating, comment).code == 201 {
      var r := NewReview(caller, bookingId, rating, comment);
      AddReviewKeepsUnique(s.reviews, s.nextId, r);
      AddReviewKeepsValid(s, r);
    }
  }

  /** Storing a review for a booking with no review keeps the one review
      per booking rule. */
  lemma AddReviewKeepsUnique(reviews: map<Id, Review>, id: Id, r: Review)
    requires OneReviewPerBooking(reviews) && id !in reviews && !HasReview(reviews, r.bookingId)
    ensures OneReviewPerBooking(reviews[id := r])
  {
  }

  lemma AddReviewKeepsValid(s: State, r: Review)
    requires Valid(s)
    requires r.bookingId in s.bookings && r.userId in s.users
    requires OneReviewPerBooking(s.reviews[s.nextId := r])
    ensures Valid(AddReview(s, r))
  {
    var t := AddReview(s, r);
    assert KeysBelow(t.reviews, t.nextId);
    assert IdsBelowNext(t);
    assert ReviewRefs(t.reviews, t.bookings.Keys, t.users.Keys);
    assert RefsResolve(t);
  }

  /** createReview adds no booking and changes no status, so it keeps the
      slot rule. */
  lemma CreateReviewKeepsSlotRule(s: State, caller: Id, bookingId: Id, rating: int, comment: Option<string>)
    requires SlotRule(s)
    ensures SlotRule(CreateReviewStep(s, caller, bookingId, rating, comment).state)
  {
    assert CreateReviewStep(s, caller, bookingId, rating, comment).state.bookings == s.bookings;
  }

  // =====================================================================
  // updateReview

  /** `findFirst({ where: { id, userId } })` on reviews. */
  predicate OwnsReview(s: State, caller: Id, id: Id) {
    id in s.reviews && s.reviews[id].userId == caller
  }

  /** The review with the supplied fields written over it. `comment` is
      None when the body has no comment (undefined), Some(None) for null. */
  function PatchReview(r: Review, rating: Option<int>, comment: Option<Option<string>>): Review {
    r.(rating := if rating.Some? then rating.value else r.rating,
       comment := if comment.Some? then OrNull(comment.value) else r.comment)
  }

  function UpdateReviewStep(s: State, caller: Id, id: Id, rating: Option<int>,
                            comment: Option<Option<string>>): Reply
  {
    if !OwnsReview(s, caller, id) then Reply(404, ReviewNotFound, s)
    else Reply(200, ReviewUpdated, s.(reviews := s.reviews[id := PatchReview(s.reviews[id], rating, comment)]))
  }

  /** Builds the update field by field, then writes it. */
  method UpdateReview(db: Db, caller: Id, id: Id, rating: Option<int>, comment: Option<Option<string>>)
    returns (code: nat, message: Msg)
    modifies db
    ensures Reply(code, message, db.Snapshot()) == UpdateReviewStep(old(db.Snapshot()), caller, id, rating, comment)
  {
    if !(id in db.reviews && db.reviews[id].userId == caller) {
      return 404, ReviewNotFound;
    }
    var review := db.reviews[id];
    if rating.Some? {
      review := review.(rating := rating.value);
    }
    if comment.Some? {
      review := review.(comment := OrNull(comment.value));
    }
    db.reviews := db.reviews[id := review];
    return 200, ReviewUpdated;
  }

  /** Only the caller's review can be updated. Exactly the supplied fields
      change ("" and null comments become null); the author and the booking
      stay, and every other review and table is unchanged. */
  lemma UpdateReviewOutcome(s: State, caller: Id, id: Id, rating: Option<int>, comment: Option<Option<string>>)
    ensures var r := UpdateReviewStep(s, caller, id, rating, comment);
      && (r.code == 404 <==> !OwnsReview(s, caller, id))
      && (r.code == 200 <==> OwnsReview(s, caller, id))
      && (r.code == 404 ==> r.state == s)
      && (r.code == 200 ==>
            && r.state.reviews.Keys == s.reviews.Keys
            && (forall k :: k in s.reviews && k != id ==> r.state.reviews[k] == s.reviews[k])
            && r.state.reviews[id].userId == caller
            && r.state.reviews[id].bookingId == s.reviews[id].bookingId
            && r.state.reviews[id].rating == (if rating.Some? then rating.value else s.reviews[id].rating)
            && (comment.None? ==> r.state.reviews[id].comment == s.reviews[id].comment)
            && (comment.Some? ==> (r.state.reviews[id].comment.Some? <==> Present(comment.value)))
            && (comment.Some? && Present(comment.value) ==> r.state.reviews[id].comment == comment.value)
            && r.state == s.(reviews := r.state.reviews))
  {
  }

  lemma UpdateReviewKeepsValid(s: State, caller: Id, id: Id, rating: Option<int>, comment: Option<Option<string>>)
    requires Valid(s)
    ensures Valid(UpdateReviewStep(s, caller, id, rating, comment).state)
  {
    if OwnsReview(s, caller, id) {
      var t := s.reviews[id := PatchReview(s.reviews[id], rating, comment)];
      SameLinksKeepReviewRules(s.reviews, t, s.bookings.Keys, s.users.Keys);
    }
  }

  /** Rewriting reviews without moving any of them to another booking or
      author keeps the review constraints. */
  lemma SameLinksKeepReviewRules(m: map<Id, Review>, t: map<Id, Review>, bookings: set<Id>, users: set<Id>)
    requires t.Keys == m.Keys
    requires forall k :: k in m ==> t[k].bookingId == m[k].bookingId && t[k].userId == m[k].userId
    requires ReviewRefs(m, bookings, users) && OneReviewPerBooking(m)
    ensures ReviewRefs(t, bookings, users) && OneReviewPerBooking(t)
  {
  }

  // =====================================================================
  // deleteReview

  function DeleteReviewStep(s: State, caller: Id, id: Id): Reply {
    if !OwnsReview(s, caller, id) then Reply(404, ReviewNotFound, s)
    else Reply(200, ReviewDeleted, s.(reviews := s.reviews - {id}))
  }

  method DeleteReview(db: Db, caller: Id, id: Id) returns (code: nat, message: Msg)
    modifies db
    ensures Reply(code, message, db.Snapshot()) == DeleteReviewStep(old(db.Snapshot()), caller, id)
  {
    if !(id in db.reviews && db.reviews[id].userId == caller) {
      return 404, ReviewNotFound;
    }
    db.reviews := db.reviews - {id};
    return 200, ReviewDeleted;
  }

  /** Only the caller's review can be deleted, and deleting removes that
      one review and nothing else. */
  lemma DeleteReviewOutcome(s: State, caller: Id, id: Id)
    ensures var r := DeleteReviewStep(s, caller, id);
      && (r.code == 404 <==> !OwnsReview(s, caller, id))
      && (r.code == 200 <==> OwnsReview(s, caller, id))
      && (r.code == 404 ==> r.state == s)
      && (r.code == 200 ==>
            && r.state.reviews.Keys == s.reviews.Keys - {id}
            && (forall k :: k in r.state.reviews ==> r.state.reviews[k] == s.reviews[k])
            && r.state == s.(reviews := r.state.reviews))
  {
  }

  lemma DeleteReviewKeepsValid(s: State, caller: Id, id: Id)
    requires Valid(s)
    ensures Valid(DeleteReviewStep(s, caller, id).state)
  {
  }

  /** After the caller deletes the review of a finished booking of theirs,
      createReview accepts that booking again. */
  lemma DeleteThenCreate(s: State, caller: Id, id: Id, rating: int, comment: Option<string>)
    requires OneReviewPerBooking(s.reviews)
    requires OwnsReview(s, caller, id)
    requires OwnsBooking(s, caller, s.reviews[id].bookingId)
    requires s.bookings[s.reviews[id].bookingId].status == Done
    ensures var t := DeleteReviewStep(s, caller, id).state;
      CreateReviewStep(t, caller, s.reviews[id].bookingId, rating, comment).code == 201
  {
  }

  // =====================================================================
  // getReviewByBookingId

  /** The review of the caller's booking. `review.bookingId` is a unique
      column, so at most one review matches. */
  function GetReviewByBookingId(s: State, caller: Id, bookingId: Id): (r: Lookup<Review>)
    requires OneReviewPerBooking(s.reviews)
    ensures r.Found? <==> OwnsBooking(s, caller, bookingId) && HasReview(s.reviews, bookingId)
    ensures !OwnsBooking(s, caller, bookingId) ==> r == NotFound(404, BookingNotFound)
    ensures OwnsBooking(s, caller, bookingId) && !HasReview(s.reviews, bookingId) ==>
              r == NotFound(404, ReviewNotFoundForBooking)
    ensures r.Found? ==> r.item.bookingId == bookingId && r.item in s.reviews.Values
  {
    if !(bookingId in s.bookings && s.bookings[bookingId].userId == caller) then NotFound(404, BookingNotFound)
    else if !(exists k :: k in s.reviews && s.reviews[k].bookingId == bookingId) then
      NotFound(404, ReviewNotFoundForBooking)
    else
      var k :| k in s.reviews && s.reviews[k].bookingId == bookingId;
      Found(s.reviews[k])
  }

  // =====================================================================
  // getReviewStats

  /** The reviews the query selects: all of them, or those whose booking
      is for `serviceId` when the query names one. */
  function Selected(s: State, serviceId: Option<Id>): set<Id> {
    set k | k in s.reviews && (serviceId.None? || (s.reviews[k].bookingId in s.bookings
                                                  && s.bookings[s.reviews[k].bookingId].serviceId == serviceId.value))
  }

  /** How many selected reviews give `rating`. */
  function RatingCount(s: State, sel: set<Id>, rating: int): nat {
    |set k | k in sel && k in s.reviews && s.reviews[k].rating == rating|
  }

  datatype RatingBucket = RatingBucket(rating: int, count: nat)

  datatype ReviewStats = ReviewStats(totalReviews: nat, averageRating: real, distribution: seq<RatingBucket>)

  /** The ratings the selected reviews give. */
  function RatingsGiven(s: State, sel: set<Id>): set<int> {
    set k | k in sel && k in s.reviews :: s.reviews[k].rating
  }

  /** `groupBy rating` with `orderBy rating asc`: one bucket per rating
      given, in ascending order. */
  ghost function Distribution(s: State, sel: set<Id>): seq<RatingBucket> {
    var ratings := Aggregates.Ascending(RatingsGiven(s, sel));
    seq(|ratings|, i requires 0 <= i < |ratings| => RatingBucket(ratings[i], RatingCount(s, sel, ratings[i])))
  }

  /** `count`, `_avg` (null, and so 0, for no reviews) and the
      distribution. */
  ghost function GetReviewStats(s: State, serviceId: Option<Id>): ReviewStats {
    var sel := Selected(s, serviceId);
    var total := Aggregates.SumOver(sel, k => if k in s.reviews then s.reviews[k].rating else 0);
    ReviewStats(|sel|, if |sel| == 0 then 0.0 else total as real / |sel| as real, Distribution(s, sel))
  }

  /** The buckets come in strictly ascending rating order, so no rating is
      listed twice. */
  lemma DistributionAscending(s: State, sel: set<Id>)
    ensures var d := Distribution(s, sel);
      forall i, j :: 0 <= i < j < |d| ==> d[i].rating < d[j].rating
  {
    var ratings := Aggregates.Ascending(RatingsGiven(s, sel));
    var d := Distribution(s, sel);
    assert forall i :: 0 <= i < |d| ==> d[i].rating == ratings[i];
  }

  /** Each bucket counts the selected reviews giving its rating, and no
      bucket is empty. */
  lemma DistributionCounts(s: State, sel: set<Id>)
    ensures var d := Distribution(s, sel);
      forall i :: 0 <= i < |d| ==> d[i].count == RatingCount(s, sel, d[i].rating) && d[i].count > 0
  {
    var rs := RatingsGiven(s, sel);
    var ratings := Aggregates.Ascending(rs);
    var d := Distribution(s, sel);
    forall i | 0 <= i < |d| ensures d[i].count == RatingCount(s, sel, d[i].rating) && d[i].count > 0 {
      assert ratings[i] in rs;
      var k :| k in sel && k in s.reviews && s.reviews[k].rating == ratings[i];
      var matching := set k' | k' in sel && k' in s.reviews && s.reviews[k'].rating == ratings[i];
      assert k in matching;
      assert d[i] == RatingBucket(ratings[i], |matching|);
    }
  }

  /** Every rating a selected review gives has a bucket. */
  lemma DistributionCovers(s: State, sel: set<Id>)
    ensures var d := Distribution(s, sel);
      forall k :: k in sel && k in s.reviews ==> exists i :: 0 <= i < |d| && d[i].rating == s.reviews[k].rating
  {
    var rs := RatingsGiven(s, sel);
    var ratings := Aggregates.Ascending(rs);
    var d := Distribution(s, sel);
    forall k | k in sel && k in s.reviews
      ensures exists i :: 0 <= i < |d| && d[i].rating == s.reviews[k].rating
    {
      assert s.reviews[k].rating in rs;
      var i :| 0 <= i < |ratings| && ratings[i] == s.reviews[k].rating;
      assert d[i].rating == ratings[i];
    }
  }

  /** With no review selected the average is 0 and the distribution is
      empty. */
  lemma ReviewStatsEmpty(s: State, serviceId: Option<Id>)
    requires Selected(s, serviceId) == {}
    ensures GetReviewStats(s, serviceId) == ReviewStats(0, 0.0, [])
  {
    assert RatingsGiven(s, {}) == {};
  }
}
