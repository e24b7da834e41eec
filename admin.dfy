/** The admin handlers: the dashboard counts, the booking and user
    listings with their pagination, and the booking status override. The
    financial report is in `Financial`. */
module Admin {
  import opened JsValues
  import opened Enums
  import opened Schema
  import opened Store
  import opened Messages
  import opened Calendar
  import opened Financial
  import Aggregates
  import Validation

  // =====================================================================
  // updateBookingStatus

  /** The admin override: any of the four statuses, from any status, with
      no slot check and no history row. `status` is None when the body has
      none. */
  function UpdateBookingStatusStep(s: State, id: Id, status: Option<string>): Reply {
    var st := if status.Some? then ParseBookingStatus(status.value) else None;
    if st.None? then Reply(400, InvalidStatusValue, s)
    else if id !in s.bookings then Reply(404, BookingNotFound, s)
    else Reply(200, BookingStatusUpdated, SetBookingStatus(s, id, st.value))
  }

  method UpdateBookingStatus(db: Db, id: Id, status: Option<string>) returns (code: nat, message: Msg)
    modifies db
    ensures Reply(code, message, db.Snapshot()) == UpdateBookingStatusStep(old(db.Snapshot()), id, status)
  {
    if !(status.Some? && Validation.IsValidBookingStatus(status.value)) {
      return 400, InvalidStatusValue;
    }
    if id !in db.bookings {
      return 404, BookingNotFound;
    }
    var st := ParseBookingStatus(status.value).value;
    db.bookings := db.bookings[id := db.bookings[id].(status := st)];
    return 200, BookingStatusUpdated;
  }

  /** 400 exactly for a missing or unlisted status, then 404 exactly for an
      unknown booking; otherwise only that booking's status changes, to the
      named one, whatever it was before: no other booking, no transaction
      and no history row is touched. */
  lemma UpdateBookingStatusOutcome(s: State, id: Id, status: Option<string>)
    ensures var r := UpdateBookingStatusStep(s, id, status);
      && (r.code == 400 <==> !(status.Some? && Validation.IsValidBookingStatus(status.value)))
      && (r.code == 404 <==> status.Some? && Validation.IsValidBookingStatus(status.value) && id !in s.bookings)
      && (r.code == 200 <==> status.Some? && Validation.IsValidBookingStatus(status.value) && id in s.bookings)
      && (r.code != 200 ==> r.state == s)
      && (r.code == 200 ==>
            && r.state.bookings.Keys == s.bookings.Keys
            && BookingStatusName(r.state.bookings[id].status) == status.value
            && r.state.bookings[id] == s.bookings[id].(status := r.state.bookings[id].status)
            && (forall k :: k in s.bookings && k != id ==> r.state.bookings[k] == s.bookings[k])
            && r.state == s.(bookings := r.state.bookings))
  {
    if status.Some? {
      Validation.EnumerationsMatchSchema(status.value);
    }
    Enums.NamesRoundTrip();
  }

  lemma UpdateBookingStatusKeepsValid(s: State, id: Id, status: Option<string>)
    requires Valid(s)
    ensures Valid(UpdateBookingStatusStep(s, id, status).state)
  {
    var r := UpdateBookingStatusStep(s, id, status);
    if r.code == 200 {
      BookingStatusKeepsValid(s, id, ParseBookingStatus(status.value).value);
    }
  }

  /** Setting a cancelled booking back to pending succeeds even when another
      booking now holds its slot, so a database that kept the slot rule is
      left with two active bookings in one slot. */
  lemma UpdateBookingStatusCanBreakSlotRule(s: State, id: Id, other: Id)
    requires SlotRule(s)
    requires id in s.bookings && other in s.bookings && id != other
    requires s.bookings[id].status == Cancelled
    requires s.bookings[id].date == s.bookings[other].date
    requires s.bookings[id].timeSlot == s.bookings[other].timeSlot
    requires Occupies(s.bookings[other].status)
    ensures UpdateBookingStatusStep(s, id, Some("pending")).code == 200
    ensures !SlotRule(UpdateBookingStatusStep(s, id, Some("pending")).state)
  {
    var t := UpdateBookingStatusStep(s, id, Some("pending")).state;
    assert t.bookings[id].status == Pending && t.bookings[other] == s.bookings[other];
  }

  // =====================================================================
  // Pagination

  /** `skip = (Number(page) - 1) * Number(limit)`. */
  function Skip(page: int, limit: nat): int {
    (page - 1) * limit
  }

  /** `Math.ceil(total / limit)`; None where JavaScript gets Infinity or
      NaN, which the response carries as null. */
  function TotalPages(total: nat, limit: nat): Option<nat> {
    if limit == 0 then None else Some((total + limit - 1) / limit)
  }

  datatype Pagination = Pagination(page: int, limit: nat, total: nat, totalPages: Option<nat>)

  /** A listing, or the status of a query the database rejected (a
      negative `skip`, a value outside an enumeration). */
  datatype ListReply = Listed(items: seq<Id>, pagination: Pagination) | Rejected(code: nat)

  function Min(a: int, b: int): int { if a <= b then a else b }

  /** Page `page` of `order`, with `total` as the count query reports it. */
  function PageOf(order: seq<Id>, total: nat, page: int, limit: nat): ListReply {
    var skip := Skip(page, limit);
    if skip < 0 then Rejected(500)
    else Listed(order[Min(skip, |order|)..Min(skip + limit, |order|)],
                Pagination(page, limit, total, TotalPages(total, limit)))
  }

  lemma MulLe(a: int, b: int, c: nat)
    requires a <= b
    ensures a * c <= b * c
  {
    assert b * c - a * c == (b - a) * c;
  }

  /** `totalPages` is the least number of pages of `limit` rows that hold
      `total` rows. */
  lemma TotalPagesIsCeiling(total: nat, limit: nat)
    requires limit > 0
    ensures var tp := TotalPages(total, limit).value;
      && total <= tp * limit
      && (tp > 0 ==> (tp - 1) * limit < total)
      && (tp == 0 <==> total == 0)
  {
    var q := (total + limit - 1) / limit;
    var r := (total + limit - 1) % limit;
    assert total + limit - 1 == q * limit + r;
    assert (q - 1) * limit == q * limit - limit;
    if q > 0 {
      MulLe(1, q, limit);
    }
  }

  /** A page never holds more than `limit` rows. */
  lemma PageAtMostLimit(order: seq<Id>, total: nat, page: int, limit: nat)
    ensures PageOf(order, total, page, limit).Listed? ==> |PageOf(order, total, page, limit).items| <= limit
  {
  }

  /** A page holds the rows of the listing from `skip` on, as many as fit
      in `limit`, in listing order. */
  lemma PageRows(order: seq<Id>, total: nat, page: int, limit: nat)
    ensures var r := PageOf(order, total, page, limit);
      r.Listed? ==>
        && |r.items| == Min(Skip(page, limit) + limit, |order|) - Min(Skip(page, limit), |order|)
        && (forall i :: 0 <= i < |r.items| ==> r.items[i] == order[Skip(page, limit) + i])
  {
  }

  /** With a positive limit and the count agreeing with the listing, page
      `page` holds rows exactly when 1 <= page <= totalPages. */
  lemma PageNonEmptyIff(order: seq<Id>, page: int, limit: nat)
    requires limit > 0 && page >= 1
    ensures var r := PageOf(order, |order|, page, limit);
      r.Listed? && (r.items != [] <==> page <= r.pagination.totalPages.value)
  {
    TotalPagesIsCeiling(|order|, limit);
    var tp := TotalPages(|order|, limit).value;
    if page <= tp {
      MulLe(page - 1, tp - 1, limit);
    } else {
      MulLe(tp, page - 1, limit);
    }
  }

  /** Row `i` of the listing is at position `i % limit` of page
      `i / limit + 1`, which is one of the `totalPages` pages. */
  lemma PageOfRow(order: seq<Id>, i: nat, limit: nat)
    requires limit > 0 && i < |order|
    ensures var r := PageOf(order, |order|, i / limit + 1, limit);
      r.Listed? && i % limit < |r.items| && r.items[i % limit] == order[i]
      && i / limit + 1 <= r.pagination.totalPages.value
  {
    var q := i / limit;
    assert i == q * limit + i % limit;
    assert Skip(q + 1, limit) == q * limit;
    TotalPagesIsCeiling(|order|, limit);
    var tp := TotalPages(|order|, limit).value;
    if tp <= q {
      MulLe(tp, q, limit);
    }
  }

  // ---------------------------------------------------------------------
  // What a listing returns

  /** `order` is what `findMany` returns for the filter before paging:
      each matching record once, newest first. */
  ghost predicate NewestFirst<T>(order: seq<Id>, matching: set<Id>, table: map<Id, T>, createdAt: T -> int) {
    && (forall i, j :: 0 <= i < j < |order| ==> order[i] != order[j])
    && (forall k :: k in order <==> k in matching)
    && matching <= table.Keys
    && (forall i, j :: 0 <= i < j < |order| ==> createdAt(table[order[i]]) >= createdAt(table[order[j]]))
  }

  /** The listing and the count agree. */
  lemma ListingLength<T>(order: seq<Id>, matching: set<Id>, table: map<Id, T>, createdAt: T -> int)
    requires NewestFirst(order, matching, table, createdAt)
    ensures |order| == |matching|
  {
    Aggregates.DistinctCard(order);
    assert Aggregates.Elems(order) == matching;
  }

  // ---------------------------------------------------------------------
  // getAllBookings

  /** The query string: status, page (default 1), limit (default 10) and
      the two ends of a creation-date range. */
  datatype BookingQuery = BookingQuery(status: Option<string>, page: Option<int>, limit: Option<nat>,
                                       startDate: Option<int>, endDate: Option<int>)

  /** The `where` of the listing: the status filter applies when the query
      has a non-empty status, the range when it has both ends. */
  datatype BookingFilter = BookingFilter(status: Option<BookingStatus>, range: Option<Window>)

  /** The filter, or None when the status is not one of the schema's, which
      makes the database reject the query. */
  function BookingFilterOf(q: BookingQuery): (f: Option<BookingFilter>)
    ensures f.None? <==> Present(q.status) && !Validation.IsValidBookingStatus(q.status.value)
  {
    var range := if q.startDate.Some? && q.endDate.Some? then Some(Window(q.startDate.value, q.endDate.value)) else None;
    if !Present(q.status) then Some(BookingFilter(None, range))
    else
      Validation.EnumerationsMatchSchema(q.status.value);
      match ParseBookingStatus(q.status.value)
      case None => None
      case Some(st) => Some(BookingFilter(Some(st), range))
  }

  predicate InRange(createdAt: int, range: Option<Window>) {
    range.None? || range.value.start <= createdAt <= range.value.end
  }

  function MatchingBookings(s: State, f: BookingFilter): set<Id> {
    set k | k in s.bookings && (f.status.None? || s.bookings[k].status == f.status.value)
            && InRange(s.bookings[k].createdAt, f.range)
  }

  function BookingCreatedAt(b: Booking): int { b.createdAt }

  /** `getAllBookings` over the listing `order` the query returns before
      paging. */
  function GetAllBookings(s: State, q: BookingQuery, order: seq<Id>): ListReply {
    var page := if q.page.Some? then q.page.value else 1;
    var limit := if q.limit.Some? then q.limit.value else 10;
    match BookingFilterOf(q)
    case None => Rejected(500)
    case Some(f) => PageOf(order, |MatchingBookings(s, f)|, page, limit)
  }

  /** The listing fails exactly for an unknown status or a page below 1
      (with a positive limit); otherwise it holds at most `limit` matching
      bookings, newest first, and reports the number of all matching
      bookings. */
  lemma GetAllBookingsOutcome(s: State, q: BookingQuery, order: seq<Id>)
    requires forall f :: BookingFilterOf(q) == Some(f) ==>
               NewestFirst(order, MatchingBookings(s, f), s.bookings, BookingCreatedAt)
    ensures var r := GetAllBookings(s, q, order);
      var page := if q.page.Some? then q.page.value else 1;
      var limit := if q.limit.Some? then q.limit.value else 10;
      && (r.Rejected? <==> (Present(q.status) && !Validation.IsValidBookingStatus(q.status.value))
                           || Skip(page, limit) < 0)
      && (r.Listed? ==>
            var f := BookingFilterOf(q).value;
            && |r.items| <= limit
            && (forall k :: k in r.items ==> k in s.bookings && k in MatchingBookings(s, f))
            && (forall i, j :: 0 <= i < j < |r.items| ==>
                  s.bookings[r.items[i]].createdAt >= s.bookings[r.items[j]].createdAt)
            && r.pagination.total == |MatchingBookings(s, f)| == |order|)
  {
    var r := GetAllBookings(s, q, order);
    if r.Listed? {
      var f := BookingFilterOf(q).value;
      ListingLength(order, MatchingBookings(s, f), s.bookings, BookingCreatedAt);
      SliceKeepsOrder(order, MatchingBookings(s, f), s.bookings, BookingCreatedAt, r.items);
    }
  }

  /** The page holds the matching bookings from position `skip` of the
      listing on, as many as `limit` allows, in listing order. */
  lemma GetAllBookingsRows(s: State, q: BookingQuery, order: seq<Id>)
    ensures var r := GetAllBookings(s, q, order);
      var page := if q.page.Some? then q.page.value else 1;
      var limit := if q.limit.Some? then q.limit.value else 10;
      r.Listed? ==>
        && |r.items| == Min(Skip(page, limit) + limit, |order|) - Min(Skip(page, limit), |order|)
        && (forall i :: 0 <= i < |r.items| ==> r.items[i] == order[Skip(page, limit) + i])
  {
    var page := if q.page.Some? then q.page.value else 1;
    var limit := if q.limit.Some? then q.limit.value else 10;
    if BookingFilterOf(q).Some? {
      PageRows(order, |MatchingBookings(s, BookingFilterOf(q).value)|, page, limit);
    }
  }

  /** A slice of a newest-first listing is newest first and holds only
      matching records. */
  lemma SliceKeepsOrder<T>(order: seq<Id>, matching: set<Id>, table: map<Id, T>, createdAt: T -> int,
                           items: seq<Id>)
    requires NewestFirst(order, matching, table, createdAt)
    requires exists a, b :: 0 <= a <= b <= |order| && items == order[a..b]
    ensures forall k :: k in items ==> k in table && k in matching
    ensures forall i, j :: 0 <= i < j < |items| ==> createdAt(table[items[i]]) >= createdAt(table[items[j]])
  {
    var a, b :| 0 <= a <= b <= |order| && items == order[a..b];
    forall i, j | 0 <= i < j < |items|
      ensures createdAt(table[items[i]]) >= createdAt(table[items[j]])
    {
      assert items[i] == order[a + i] && items[j] == order[a + j];
    }
  }

  // ---------------------------------------------------------------------
  // getAllUsers

  datatype UserQuery = UserQuery(page: Option<int>, limit: Option<nat>, role: Option<string>)

  function ParseRole(s: string): Option<Role> {
    if s == "user" then Some(UserRole) else if s == "admin" then Some(AdminRole) else None
  }

  /** The role filter, None when there is none, or a rejection for a role
      the schema does not have. */
  function RoleFilterOf(q: UserQuery): (f: Option<Option<Role>>)
    ensures f.None? <==> Present(q.role) && q.role.value != "user" && q.role.value != "admin"
  {
    if !Present(q.role) then Some(None)
    else
      match ParseRole(q.role.value)
      case None => None
      case Some(role) => Some(Some(role))
  }

  function MatchingUsers(s: State, role: Option<Role>): set<Id> {
    set k | k in s.users && (role.None? || s.users[k].role == role.value)
  }

  function UserCreatedAt(u: User): int { u.createdAt }

  function GetAllUsers(s: State, q: UserQuery, order: seq<Id>): ListReply {
    var page := if q.page.Some? then q.page.value else 1;
    var limit := if q.limit.Some? then q.limit.value else 10;
    match RoleFilterOf(q)
    case None => Rejected(500)
    case Some(role) => PageOf(order, |MatchingUsers(s, role)|, page, limit)
  }

  /** As for bookings: failure exactly for an unknown role or a page below
      1; otherwise at most `limit` users of the role, newest first, and the
      number of all of them. */
  lemma GetAllUsersOutcome(s: State, q: UserQuery, order: seq<Id>)
    requires forall role :: RoleFilterOf(q) == Some(role) ==>
               NewestFirst(order, MatchingUsers(s, role), s.users, UserCreatedAt)
    ensures var r := GetAllUsers(s, q, order);
      var page := if q.page.Some? then q.page.value else 1;
      var limit := if q.limit.Some? then q.limit.value else 10;
      && (r.Rejected? <==> (Present(q.role) && q.role.value != "user" && q.role.value != "admin")
                           || Skip(page, limit) < 0)
      && (r.Listed? ==>
            var role := RoleFilterOf(q).value;
            && |r.items| <= limit
            && (forall k :: k in r.items ==> k in s.users && (role.Some? ==> s.users[k].role == role.value))
            && (forall i, j :: 0 <= i < j < |r.items| ==>
                  s.users[r.items[i]].createdAt >= s.users[r.items[j]].createdAt)
            && r.pagination.total == |MatchingUsers(s, role)| == |order|)
  {
    var r := GetAllUsers(s, q, order);
    if r.Listed? {
      var role := RoleFilterOf(q).value;
      ListingLength(order, MatchingUsers(s, role), s.users, UserCreatedAt);
      SliceKeepsOrder(order, MatchingUsers(s, role), s.users, UserCreatedAt, r.items);
    }
  }

  /** As for bookings: the page holds the listing's rows from `skip` on,
      at most `limit` of them, in order. */
  lemma GetAllUsersRows(s: State, q: UserQuery, order: seq<Id>)
    ensures var r := GetAllUsers(s, q, order);
      var page := if q.page.Some? then q.page.value else 1;
      var limit := if q.limit.Some? then q.limit.value else 10;
      r.Listed? ==>
        && |r.items| == Min(Skip(page, limit) + limit, |order|) - Min(Skip(page, limit), |order|)
        && (forall i :: 0 <= i < |r.items| ==> r.items[i] == order[Skip(page, limit) + i])
  {
    var page := if q.page.Some? then q.page.value else 1;
    var limit := if q.limit.Some? then q.limit.value else 10;
    if RoleFilterOf(q).Some? {
      PageRows(order, |MatchingUsers(s, RoleFilterOf(q).value)|, page, limit);
    }
  }

  // =====================================================================
  // getDashboardStats

  /** The start of the period: midnight today, 7 days back, or one calendar
      month back; any other period, and none, means today. */
  function PeriodStart(period: Option<string>, now: int): int {
    if period == Some("week") then DaysAgo(now, 7)
    else if period == Some("month") then MonthAgo(now)
    else StartOfDay(now)
  }

  /** Every period ends now and starts at most 31 days earlier; today's
      starts within the last day, and an unrecognised period is today. */
  lemma PeriodStartBounds(period: Option<string>, now: int)
    ensures now - 31 * MsPerDay <= PeriodStart(period, now) <= now
    ensures period == Some("week") ==> now - PeriodStart(period, now) == 7 * MsPerDay
    ensures period == Some("month") ==> 28 * MsPerDay <= now - PeriodStart(period, now)
    ensures period != Some("week") && period != Some("month") ==>
              PeriodStart(period, now) == PeriodStart(Some("today"), now)
              && now - MsPerDay < PeriodStart(period, now) <= now
  {
    if period == Some("month") {
      MonthAgoBounds(now);
    }
  }

  function BookingsBetween(s: State, w: Window, st: Option<BookingStatus>): set<Id> {
    set k | k in s.bookings && w.start <= s.bookings[k].createdAt <= w.end
            && (st.None? || s.bookings[k].status == st.value)
  }

  datatype BookingCounts = BookingCounts(total: nat, pending: nat, processing: nat, completed: nat, cancelled: nat)

  datatype DashboardStats = DashboardStats(period: string, bookings: BookingCounts, revenue: int,
                                           users: nat, services: nat)

  /** `_sum.amount || 0`: the sum is null over no rows. */
  ghost function Revenue(s: State, w: Window): int {
    var paid := PaidBetween(s, w);
    if paid == {} then 0 else Aggregates.SumOver(paid, Financial.AmountOf(s))
  }

  function UsersBetween(s: State, w: Window): set<Id> {
    set k | k in s.users && s.users[k].role == UserRole && w.start <= s.users[k].createdAt <= w.end
  }

  /** The dashboard for the period up to `now`. */
  ghost function GetDashboardStats(s: State, period: Option<string>, now: int): DashboardStats {
    var w := Window(PeriodStart(period, now), now);
    DashboardStats(
      if period.Some? then period.value else "today",
      BookingCounts(|BookingsBetween(s, w, None)|, |BookingsBetween(s, w, Some(Pending))|,
                    |BookingsBetween(s, w, Some(Processing))|, |BookingsBetween(s, w, Some(Done))|,
                    |BookingsBetween(s, w, Some(Cancelled))|),
      Revenue(s, w),
      |UsersBetween(s, w)|,
      |s.services|)
  }

  /** The four status counts add up to the total. */
  lemma DashboardCountsPartition(s: State, period: Option<string>, now: int)
    ensures var c := GetDashboardStats(s, period, now).bookings;
      c.total == c.pending + c.processing + c.completed + c.cancelled
  {
    var w := Window(PeriodStart(period, now), now);
    StatusesPartition(s, w);
  }

  lemma StatusesPartition(s: State, w: Window)
    ensures |BookingsBetween(s, w, None)| ==
              |BookingsBetween(s, w, Some(Pending))| + |BookingsBetween(s, w, Some(Processing))|
              + |BookingsBetween(s, w, Some(Done))| + |BookingsBetween(s, w, Some(Cancelled))|
  {
    var all := BookingsBetween(s, w, None);
    var st := k => if k in s.bookings then s.bookings[k].status else Pending;
    SplitFour(all, st);
    assert BookingsBetween(s, w, Some(Pending)) == OfStatus(all, st, Pending);
    assert BookingsBetween(s, w, Some(Processing)) == OfStatus(all, st, Processing);
    assert BookingsBetween(s, w, Some(Done)) == OfStatus(all, st, Done);
    assert BookingsBetween(s, w, Some(Cancelled)) == OfStatus(all, st, Cancelled);
  }

  function OfStatus(all: set<Id>, st: Id -> BookingStatus, x: BookingStatus): set<Id> {
    set k | k in all && st(k) == x
  }

  lemma {:induction false} SplitFour(all: set<Id>, st: Id -> BookingStatus)
    ensures |all| == |OfStatus(all, st, Pending)| + |OfStatus(all, st, Processing)|
                     + |OfStatus(all, st, Done)| + |OfStatus(all, st, Cancelled)|
    decreases all
  {
    if all != {} {
      var k :| k in all;
      var rest := all - {k};
      assert all == rest + {k};
      SplitFour(rest, st);
      OneMoreOfStatus(rest, st, k, Pending);
      OneMoreOfStatus(rest, st, k, Processing);
      OneMoreOfStatus(rest, st, k, Done);
      OneMoreOfStatus(rest, st, k, Cancelled);
    }
  }

  lemma OneMoreOfStatus(rest: set<Id>, st: Id -> BookingStatus, k: Id, x: BookingStatus)
    requires k !in rest
    ensures |OfStatus(rest + {k}, st, x)| == |OfStatus(rest, st, x)| + (if st(k) == x then 1 else 0)
  {
    if st(k) == x {
      assert OfStatus(rest + {k}, st, x) == OfStatus(rest, st, x) + {k};
    } else {
      assert OfStatus(rest + {k}, st, x) == OfStatus(rest, st, x);
    }
  }

  /** The revenue is the sum of the paid amounts in the period: 0 when
      there are none, and never negative while amounts are positive. */
  lemma DashboardRevenue(s: State, period: Option<string>, now: int)
    requires AmountsPositive(s.transactions)
    ensures var w := Window(PeriodStart(period, now), now);
      && GetDashboardStats(s, period, now).revenue == Aggregates.SumOver(PaidBetween(s, w), Financial.AmountOf(s))
      && GetDashboardStats(s, period, now).revenue >= 0
      && (PaidBetween(s, w) == {} ==> GetDashboardStats(s, period, now).revenue == 0)
  {
    var w := Window(PeriodStart(period, now), now);
    Aggregates.SumOverNonNegative(PaidBetween(s, w), Financial.AmountOf(s));
  }

  /** The dashboard's revenue and the financial report's total agree when
      they cover the same window. */
  lemma DashboardMatchesReport(s: State, period: Option<string>, now: int, ids: seq<Id>, rows: seq<Transaction>)
    requires QueryResult(s, Window(PeriodStart(period, now), now), ids, rows)
    ensures GetDashboardStats(s, period, now).revenue == Total(rows, Amount)
  {
    ReportTotalIsSum(s, Window(PeriodStart(period, now), now), ids, rows);
  }
}
