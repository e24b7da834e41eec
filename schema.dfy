/** The records of the car-wash database, the database as one value, and
    the constraints the schema and the handlers keep on it. */
module Schema {
  import opened JsValues
  import opened Enums
  import opened Messages

  /** Record ids. New records take the next unused number. */
  type Id = nat

  datatype User = User(name: string, email: string, passwordHash: string, role: Role, createdAt: int)

  datatype Service = Service(name: string, description: string, price: int, duration: int, isActive: bool)

  datatype Vehicle = Vehicle(userId: Id, brand: string, model: string, year: int, color: string,
                             plateNumber: string, vehicleType: string, isActive: bool)

  datatype Booking = Booking(userId: Id, serviceId: Id, vehicleId: Option<Id>, date: int,
                             timeSlot: string, location: string, notes: Option<string>,
                             status: BookingStatus, createdAt: int)

  datatype Transaction = Transaction(bookingId: Id, userId: Id, amount: int, paymentMethod: PayMethod,
                                     status: TxStatus, createdAt: int)

  datatype Review = Review(userId: Id, bookingId: Id, rating: int, comment: Option<string>)

  /** One row of the booking status history. */
  datatype HistoryRow = HistoryRow(bookingId: Id, status: BookingStatus, notes: string)

  /** The whole database: one map per table, the append-only status
      history, and the next unused id. */
  datatype State = State(
    users: map<Id, User>,
    services: map<Id, Service>,
    vehicles: map<Id, Vehicle>,
    bookings: map<Id, Booking>,
    transactions: map<Id, Transaction>,
    reviews: map<Id, Review>,
    history: seq<HistoryRow>,
    nextId: nat)

  function Empty(): (s: State)
    ensures s.users == map[] && s.bookings == map[] && s.history == [] && s.nextId == 0
  {
    State(map[], map[], map[], map[], map[], map[], [], 0)
  }

  /** What a handler answers (status code and message) and the database
      after it. */
  datatype Reply = Reply(code: nat, message: Msg, state: State)

  /** What a read-only handler answers: the record, or an error status. */
  datatype Lookup<T> = Found(item: T) | NotFound(code: nat, message: Msg)

  // ---------------------------------------------------------------------
  // Queries the handlers share

  /** `booking.findFirst({ where: { date, timeSlot, status: { in: ['pending', 'processing'] } } })` */
  predicate SlotTaken(bookings: map<Id, Booking>, date: int, timeSlot: string) {
    exists k :: k in bookings && bookings[k].date == date && bookings[k].timeSlot == timeSlot
                && Occupies(bookings[k].status)
  }

  /** Some pending or processing booking uses the vehicle. */
  predicate VehicleBusy(bookings: map<Id, Booking>, vehicleId: Id) {
    exists k :: k in bookings && bookings[k].vehicleId == Some(vehicleId) && Occupies(bookings[k].status)
  }

  /** Some pending or processing booking uses the service. */
  predicate ServiceBusy(bookings: map<Id, Booking>, serviceId: Id) {
    exists k :: k in bookings && bookings[k].serviceId == serviceId && Occupies(bookings[k].status)
  }

  /** `transaction.findUnique({ where: { bookingId } })` finds a row. */
  predicate HasTransaction(transactions: map<Id, Transaction>, bookingId: Id) {
    exists k :: k in transactions && transactions[k].bookingId == bookingId
  }

  /** `booking.review` is set. */
  predicate HasReview(reviews: map<Id, Review>, bookingId: Id) {
    exists k :: k in reviews && reviews[k].bookingId == bookingId
  }

  /** `vehicle.findUnique({ where: { plateNumber } })` finds a row. */
  predicate PlateUsed(vehicles: map<Id, Vehicle>, plate: string) {
    exists k :: k in vehicles && vehicles[k].plateNumber == plate
  }

  predicate EmailUsed(users: map<Id, User>, email: string) {
    exists k :: k in users && users[k].email == email
  }

  /** `findFirst({ where: { id, userId } })` on bookings. */
  predicate OwnsBooking(s: State, caller: Id, id: Id) {
    id in s.bookings && s.bookings[id].userId == caller
  }

  // ---------------------------------------------------------------------
  // Constraints, each over the tables it talks about, so that a step that
  // leaves a table alone keeps that table's constraints for free.

  predicate KeysBelow<T>(m: map<Id, T>, n: nat) {
    forall k :: k in m ==> k < n
  }

  /** Every id in use is below the counter, so the next id is fresh. */
  predicate IdsBelowNext(s: State) {
    && KeysBelow(s.users, s.nextId) && KeysBelow(s.services, s.nextId)
    && KeysBelow(s.vehicles, s.nextId) && KeysBelow(s.bookings, s.nextId)
    && KeysBelow(s.transactions, s.nextId) && KeysBelow(s.reviews, s.nextId)
  }

  predicate VehicleRefs(vehicles: map<Id, Vehicle>, users: set<Id>) {
    forall k :: k in vehicles ==> vehicles[k].userId in users
  }

  predicate BookingRefs(bookings: map<Id, Booking>, users: set<Id>, services: set<Id>, vehicles: set<Id>) {
    forall k :: k in bookings ==>
      && bookings[k].userId in users
      && bookings[k].serviceId in services
      && (bookings[k].vehicleId.Some? ==> bookings[k].vehicleId.value in vehicles)
  }

  predicate TxRefs(transactions: map<Id, Transaction>, bookings: set<Id>, users: set<Id>) {
    forall k :: k in transactions ==> transactions[k].bookingId in bookings && transactions[k].userId in users
  }

  predicate ReviewRefs(reviews: map<Id, Review>, bookings: set<Id>, users: set<Id>) {
    forall k :: k in reviews ==> reviews[k].bookingId in bookings && reviews[k].userId in users
  }

  predicate HistoryRefs(history: seq<HistoryRow>, bookings: set<Id>) {
    forall i :: 0 <= i < |history| ==> history[i].bookingId in bookings
  }

  /** Foreign keys: every reference names an existing record. */
  predicate RefsResolve(s: State) {
    && VehicleRefs(s.vehicles, s.users.Keys)
    && BookingRefs(s.bookings, s.users.Keys, s.services.Keys, s.vehicles.Keys)
    && TxRefs(s.transactions, s.bookings.Keys, s.users.Keys)
    && ReviewRefs(s.reviews, s.bookings.Keys, s.users.Keys)
    && HistoryRefs(s.history, s.bookings.Keys)
  }

  /** `transaction.bookingId` is unique. */
  predicate OneTransactionPerBooking(transactions: map<Id, Transaction>) {
    forall a, b :: a in transactions && b in transactions &&
      transactions[a].bookingId == transactions[b].bookingId
      ==> a == b
  }

  /** `review.bookingId` is unique. */
  predicate OneReviewPerBooking(reviews: map<Id, Review>) {
    forall a, b :: a in reviews && b in reviews &&
      reviews[a].bookingId == reviews[b].bookingId
      ==> a == b
  }

  /** `vehicle.plateNumber` is unique. */
  predicate PlatesUnique(vehicles: map<Id, Vehicle>) {
    forall a, b :: a in vehicles && b in vehicles &&
      vehicles[a].plateNumber == vehicles[b].plateNumber
      ==> a == b
  }

  /** `user.email` is unique. */
  predicate EmailsUnique(users: map<Id, User>) {
    forall a, b :: a in users && b in users && users[a].email == users[b].email ==> a == b
  }

  /** The positivity check of the transaction handler. */
  predicate AmountsPositive(transactions: map<Id, Transaction>) {
    forall k :: k in transactions ==> transactions[k].amount > 0
  }

  /** The positivity checks of the service handlers. */
  predicate PricesPositive(services: map<Id, Service>) {
    forall k :: k in services ==> services[k].price > 0 && services[k].duration > 0
  }

  /** The constraints every handler keeps. */
  predicate Valid(s: State) {
    && IdsBelowNext(s) && RefsResolve(s)
    && OneTransactionPerBooking(s.transactions) && OneReviewPerBooking(s.reviews)
    && PlatesUnique(s.vehicles) && EmailsUnique(s.users)
    && AmountsPositive(s.transactions) && PricesPositive(s.services)
  }

  /** No two pending or processing bookings share a date and time slot.
      Booking creation checks this, but not every handler keeps it. */
  predicate SlotRule(s: State) {
    forall a, b :: a in s.bookings && b in s.bookings && a != b &&
      Occupies(s.bookings[a].status) && Occupies(s.bookings[b].status) &&
      s.bookings[a].date == s.bookings[b].date
      ==> s.bookings[a].timeSlot != s.bookings[b].timeSlot
  }

  /** `t` holds the same transactions as `m` except for their statuses. */
  predicate TxStatusesOnly(m: map<Id, Transaction>, t: map<Id, Transaction>) {
    t.Keys == m.Keys && forall k :: k in m ==> t[k] == m[k].(status := t[k].status)
  }

  /** No transaction constraint mentions the status. */
  lemma TxStatusesOnlyKeep(m: map<Id, Transaction>, t: map<Id, Transaction>, bookings: set<Id>, users: set<Id>)
    requires TxStatusesOnly(m, t)
    requires TxRefs(m, bookings, users) && OneTransactionPerBooking(m) && AmountsPositive(m)
    ensures TxRefs(t, bookings, users) && OneTransactionPerBooking(t) && AmountsPositive(t)
  {
    forall k | k in t ensures t[k].bookingId in bookings && t[k].userId in users && t[k].amount > 0 {
      assert t[k] == m[k].(status := t[k].status);
    }
    forall a, b | a in t && b in t && t[a].bookingId == t[b].bookingId
      ensures a == b
    {
      assert t[a].bookingId == m[a].bookingId && t[b].bookingId == m[b].bookingId;
    }
  }

  /** No booking constraint mentions the status. */
  lemma BookingStatusKeepsRefs(m: map<Id, Booking>, id: Id, st: BookingStatus,
                               users: set<Id>, services: set<Id>, vehicles: set<Id>)
    requires id in m && BookingRefs(m, users, services, vehicles)
    ensures BookingRefs(m[id := m[id].(status := st)], users, services, vehicles)
    ensures m[id := m[id].(status := st)].Keys == m.Keys
  {
  }

  /** The database with one booking's status rewritten. */
  function SetBookingStatus(s: State, id: Id, st: BookingStatus): State
    requires id in s.bookings
  {
    s.(bookings := s.bookings[id := s.bookings[id].(status := st)])
  }

  /** The database with one transaction's status rewritten. */
  function SetTxStatus(s: State, id: Id, st: TxStatus): State
    requires id in s.transactions
  {
    s.(transactions := s.transactions[id := s.transactions[id].(status := st)])
  }

  /** The database with one history row appended. */
  function Log(s: State, row: HistoryRow): State {
    s.(history := s.history + [row])
  }

  /** Rewriting one transaction's status keeps the constraints. */
  lemma TxStatusKeepsValid(s: State, id: Id, st: TxStatus)
    requires Valid(s) && id in s.transactions
    ensures Valid(SetTxStatus(s, id, st))
  {
    var t := SetTxStatus(s, id, st);
    assert TxStatusesOnly(s.transactions, t.transactions);
    TxStatusesKeepValid(s, t.transactions);
  }

  /** Rewriting any transactions' statuses keeps the constraints. */
  lemma TxStatusesKeepValid(s: State, t: map<Id, Transaction>)
    requires Valid(s) && TxStatusesOnly(s.transactions, t)
    ensures Valid(s.(transactions := t))
  {
    TxStatusesOnlyKeep(s.transactions, t, s.bookings.Keys, s.users.Keys);
    assert KeysBelow(t, s.nextId);
  }

  /** Rewriting one booking's status keeps the constraints. */
  lemma BookingStatusKeepsValid(s: State, id: Id, st: BookingStatus)
    requires Valid(s) && id in s.bookings
    ensures Valid(SetBookingStatus(s, id, st))
  {
    BookingStatusKeepsRefs(s.bookings, id, st, s.users.Keys, s.services.Keys, s.vehicles.Keys);
  }

  /** Appending a history row about an existing booking keeps the
      constraints. */
  lemma LogKeepsValid(s: State, row: HistoryRow)
    requires Valid(s) && row.bookingId in s.bookings
    ensures Valid(Log(s, row))
  {
    var t := Log(s, row);
    assert HistoryRefs(t.history, t.bookings.Keys) by {
      forall i | 0 <= i < |t.history| ensures t.history[i].bookingId in t.bookings {
        if i < |s.history| { assert t.history[i] == s.history[i]; }
      }
    }
  }

  /** The empty database meets every constraint. */
  lemma EmptyValid()
    ensures Valid(Empty()) && SlotRule(Empty())
  {
  }
}
