/** The database the handlers work on: one table per field, updated in
    place. Each handler is one atomic step on it. */
module Store {
  import opened Schema

  class Db {
    var users: map<Id, User>
    var services: map<Id, Service>
    var vehicles: map<Id, Vehicle>
    var bookings: map<Id, Booking>
    var transactions: map<Id, Transaction>
    var reviews: map<Id, Review>
    var history: seq<HistoryRow>
    var nextId: nat

    /** The tables as one value. */
    function Snapshot(): State
      reads this
    {
      State(users, services, vehicles, bookings, transactions, reviews, history, nextId)
    }

    /** An empty database. */
    constructor ()
      ensures Snapshot() == Empty()
    {
      users, services, vehicles, bookings := map[], map[], map[], map[];
      transactions, reviews, history, nextId := map[], map[], [], 0;
    }

    /** Hands out the id of a record about to be created. */
    method NewId() returns (id: Id)
      modifies this
      ensures id == old(nextId) && nextId == id + 1
      ensures Snapshot() == old(Snapshot()).(nextId := id + 1)
    {
      id := nextId;
      nextId := nextId + 1;
    }
  }
}
