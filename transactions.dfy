/** The payment handlers: create a transaction, confirm it, and the admin
    status override, each with its effect on the booking. */
module Transactions {
  import opened JsValues
  import opened Enums
  import opened Schema
  import opened Store
  import opened Messages
  import Validation

  // =====================================================================
  // createTransaction

  /** `bookingId`, `amount` and `method` are the body fields, None when
      absent; `now` is the creation time. */
  function CreateTransactionStep(s: State, caller: Id, bookingId: Option<Id>, amount: Option<int>,
                                 payMethod: Option<string>, now: int): Reply
  {
    if bookingId.None? || !PresentNum(amount) || !Present(payMethod) then
      Reply(400, TxFieldsRequired, s)
    else match ParsePayMethod(payMethod.value)
      case None => Reply(400, InvalidPaymentMethod, s)
      case Some(pm) =>
        if amount.value <= 0 then Reply(400, AmountNotPositive, s)
        else if !OwnsBooking(s, caller, bookingId.value) then
          Reply(404, BookingNotOwned, s)
        else if HasTransaction(s.transactions, bookingId.value) then
          Reply(400, TxAlreadyExists, s)
        else
          Reply(201, TxCreated,
                s.(transactions := s.transactions[s.nextId := Transaction(bookingId.value, caller, amount.value, pm, TxPending, now)],
                   nextId := s.nextId + 1))
  }

  method CreateTransaction(db: Db, caller: Id, bookingId: Option<Id>, amount: Option<int>,
                           payMethod: Option<string>, now: int)
    returns (code: nat, message: Msg)
    modifies db
    ensures Reply(code, message, db.Snapshot())
         == CreateTransactionStep(old(db.Snapshot()), caller, bookingId, amount, payMethod, now)
  {
    if bookingId.None? || amount.None? || amount.value == 0 || payMethod.None? || payMethod.value == "" {
      return 400, TxFieldsRequired;
    }
    if !Validation.IsValidPaymentMethod(payMethod.value) {
      return 400, InvalidPaymentMethod;
    }
    if amount.value <= 0 {
      return 400, AmountNotPositive;
    }
    var b := bookingId.value;
    if !(b in db.bookings && db.bookings[b].userId == caller) {
      return 404, BookingNotOwned;
    }
    if exists k :: k in db.transactions && db.transactions[k].bookingId == b {
      return 400, TxAlreadyExists;
    }
    var pm := ParsePayMethod(payMethod.value).value;
    var id := db.NewId();
    db.transactions := db.transactions[id := Transaction(b, caller, amount.value, pm, TxPending, now)];
    return 201, TxCreated;
  }

  /** The checks run in the order of the handler, the first failure
      answers and nothing changes; a success adds one pending transaction
      of the caller with the given amount and method, and nothing else. */
  lemma CreateTransactionOutcome(s: State, caller: Id, bookingId: Option<Id>, amount: Option<int>,
                                 payMethod: Option<string>, now: int)
    ensures var r := CreateTransactionStep(s, caller, bookingId, amount, payMethod, now);
      && (r.message == TxFieldsRequired <==>
            bookingId.None? || !PresentNum(amount) || !Present(payMethod))
      && (r.message == InvalidPaymentMethod <==>
            bookingId.Some? && PresentNum(amount) && Present(payMethod)
            && !Validation.IsValidPaymentMethod(payMethod.value))
      && (r.message == AmountNotPositive <==>
            bookingId.Some? && PresentNum(amount) && Present(payMethod)
            && Validation.IsValidPaymentMethod(payMethod.value) && amount.value < 0)
      && (r.code == 404 <==>
            bookingId.Some? && PresentNum(amount) && amount.value > 0 && Present(payMethod)
            && Validation.IsValidPaymentMethod(payMethod.value) && !OwnsBooking(s, caller, bookingId.value))
      && (r.message == TxAlreadyExists <==>
            bookingId.Some? && PresentNum(amount) && amount.value > 0 && Present(payMethod)
            && Validation.IsValidPaymentMethod(payMethod.value) && OwnsBooking(s, caller, bookingId.value)
            && HasTransaction(s.transactions, bookingId.value))
      && (r.code == 201 <==>
            bookingId.Some? && PresentNum(amount) && amount.value > 0 && Present(payMethod)
            && Validation.IsValidPaymentMethod(payMethod.value) && OwnsBooking(s, caller, bookingId.value)
            && !HasTransaction(s.transactions, bookingId.value))
      && (r.code != 201 ==> r.state == s)
      && (r.code == 201 ==>
            && r.state == s.(transactions := r.state.transactions, nextId := s.nextId + 1)
            && r.state.transactions == s.transactions[s.nextId := Transaction(bookingId.value, caller, amount.value,
                                                       ParsePayMethod(payMethod.value).value, TxPending, now)])
  {
    if bookingId.Some? && PresentNum(amount) && Present(payMethod) {
      Validation.EnumerationsMatchSchema(payMethod.value);
    }
  }

  /** A booking never gets a second transaction: the existing-row check
      keeps the one-per-booking constraint, and amounts stay positive. */
  lemma CreateTransactionKeepsValid(s: State, caller: Id, bookingId: Option<Id>, amount: Option<int>,
                                    payMethod: Option<string>, now: int)
    requires Valid(s)
    ensures Valid(CreateTransactionStep(s, caller, bookingId, amount, payMethod, now).state)
  {
    var r := CreateTransactionStep(s, caller, bookingId, amount, payMethod, now);
    if r.code == 201 {
      var tx := Transaction(bookingId.value, caller, amount.value, ParsePayMethod(payMethod.value).value, TxPending, now);
      assert r.state == s.(transactions := s.transactions[s.nextId := tx], nextId := s.nextId + 1);
      assert s.nextId !in s.transactions;
      AddTransactionKeepsValid(s, tx);
    }
  }

  /** Adding a transaction under a fresh id keeps the constraints when it
      refers to existing rows, has a positive amount, and its booking had
      none yet. */
  lemma AddTransactionKeepsValid(s: State, tx: Transaction)
    requires Valid(s)
    requires tx.bookingId in s.bookings && tx.userId in s.users && tx.amount > 0
    requires !HasTransaction(s.transactions, tx.bookingId)
    ensures Valid(s.(transactions := s.transactions[s.nextId := tx], nextId := s.nextId + 1))
  {
    AddTransactionKeepsIds(s, tx);
    AddTransactionKeepsRefs(s, tx);
    AddTransactionKeepsUnique(s.transactions, s.nextId, tx);
  }

  lemma AddTransactionKeepsIds(s: State, tx: Transaction)
    requires IdsBelowNext(s)
    ensures IdsBelowNext(s.(transactions := s.transactions[s.nextId := tx], nextId := s.nextId + 1))
  {
  }

  lemma AddTransactionKeepsRefs(s: State, tx: Transaction)
    requires RefsResolve(s)
    requires tx.bookingId in s.bookings && tx.userId in s.users
    ensures RefsResolve(s.(transactions := s.transactions[s.nextId := tx], nextId := s.nextId + 1))
  {
  }

  lemma AddTransactionKeepsUnique(transactions: map<Id, Transaction>, id: Id, tx: Transaction)
    requires OneTransactionPerBooking(transactions) && AmountsPositive(transactions)
    requires id !in transactions && tx.amount > 0
    requires !HasTransaction(transactions, tx.bookingId)
    ensures OneTransactionPerBooking(transactions[id := tx]) && AmountsPositive(transactions[id := tx])
  {
    var t := transactions[id := tx];
    forall a, b | a in t && b in t && t[a].bookingId == t[b].bookingId
      ensures a == b
    {
      if a != id && b != id {
        assert t[a] == transactions[a] && t[b] == transactions[b];
      }
    }
  }

  lemma CreateTransactionKeepsSlotRule(s: State, caller: Id, bookingId: Option<Id>, amount: Option<int>,
                                       payMethod: Option<string>, now: int)
    requires SlotRule(s)
    ensures SlotRule(CreateTransactionStep(s, caller, bookingId, amount, payMethod, now).state)
  {
  }

  // =====================================================================
  // confirmPayment

  /** The transaction is marked paid first and the booking updated after
      it, in two writes; when the booking row is gone the second write
      fails with RecordNotFound and the first stays done. */
  function ConfirmPaymentStep(s: State, caller: Id, id: Id): Reply {
    if !(id in s.transactions && s.transactions[id].userId == caller) then
      Reply(404, TxNotFound, s)
    else if s.transactions[id].status != TxPending then
      Reply(400, TxNotPending, s)
    else
      var tx := s.transactions[id];
      var s1 := s.(transactions := s.transactions[id := tx.(status := Paid)]);
      if tx.bookingId !in s.bookings then Reply(404, RecordNotFound, s1)
      else
        Reply(200, PaymentConfirmed,
              s1.(bookings := s.bookings[tx.bookingId := s.bookings[tx.bookingId].(status := Processing)]))
  }

  method ConfirmPayment(db: Db, caller: Id, id: Id) returns (code: nat, message: Msg)
    modifies db
    ensures Reply(code, message, db.Snapshot()) == ConfirmPaymentStep(old(db.Snapshot()), caller, id)
  {
    if !(id in db.transactions && db.transactions[id].userId == caller) {
      return 404, TxNotFound;
    }
    var tx := db.transactions[id];
    if tx.status != TxPending {
      return 400, TxNotPending;
    }
    db.transactions := db.transactions[id := tx.(status := Paid)];
    if tx.bookingId !in db.bookings {
      return 404, RecordNotFound;
    }
    db.bookings := db.bookings[tx.bookingId := db.bookings[tx.bookingId].(status := Processing)];
    return 200, PaymentConfirmed;
  }

  /** Only the caller's pending transaction is confirmed; a success makes
      it paid and its booking processing, whatever status the booking had
      (cancelled and done included). */
  lemma ConfirmPaymentOutcome(s: State, caller: Id, id: Id)
    requires Valid(s)
    ensures var r := ConfirmPaymentStep(s, caller, id);
      && (r.code == 404 <==> !(id in s.transactions && s.transactions[id].userId == caller))
      && (r.code == 400 <==> id in s.transactions && s.transactions[id].userId == caller
                             && s.transactions[id].status != TxPending)
      && (r.code == 200 <==> id in s.transactions && s.transactions[id].userId == caller
                             && s.transactions[id].status == TxPending)
      && (r.code != 200 ==> r.state == s)
      && (r.code == 200 ==>
            && var b := s.transactions[id].bookingId;
               && r.state == s.(transactions := r.state.transactions, bookings := r.state.bookings)
               && r.state.transactions == s.transactions[id := s.transactions[id].(status := Paid)]
               && r.state.bookings == s.bookings[b := s.bookings[b].(status := Processing)])
  {
  }

  lemma ConfirmPaymentKeepsValid(s: State, caller: Id, id: Id)
    requires Valid(s)
    ensures Valid(ConfirmPaymentStep(s, caller, id).state)
  {
    if id in s.transactions && s.transactions[id].userId == caller && s.transactions[id].status == TxPending {
      var tx := s.transactions[id];
      var s1 := s.(transactions := s.transactions[id := tx.(status := Paid)]);
      TxStatusKeepsValid(s, id, Paid);
      if tx.bookingId in s.bookings {
        BookingStatusKeepsValid(s1, tx.bookingId, Processing);
      }
    }
  }

  /** Two different bookings holding the same date and time slot. */
  predicate SameSlot(s: State, a: Id, b: Id) {
    a in s.bookings && b in s.bookings && a != b
    && s.bookings[a].date == s.bookings[b].date && s.bookings[a].timeSlot == s.bookings[b].timeSlot
  }

  /** confirmPayment does not re-check the slot: in a database that keeps
      the slot rule, paying for a cancelled booking whose slot was taken
      again succeeds and leaves two active bookings in one slot. */
  lemma ConfirmPaymentCanBreakSlotRule(s: State, caller: Id, id: Id, other: Id)
    requires SlotRule(s)
    requires id in s.transactions && s.transactions[id].userId == caller
    requires s.transactions[id].status == TxPending
    requires s.transactions[id].bookingId in s.bookings && s.bookings[s.transactions[id].bookingId].status == Cancelled
    requires SameSlot(s, s.transactions[id].bookingId, other) && Occupies(s.bookings[other].status)
    ensures ConfirmPaymentStep(s, caller, id).code == 200
    ensures !SlotRule(ConfirmPaymentStep(s, caller, id).state)
  {
    var b := s.transactions[id].bookingId;
    var t := ConfirmPaymentStep(s, caller, id).state;
    assert t.bookings[b].status == Processing && t.bookings[other] == s.bookings[other];
  }

  // =====================================================================
  // updateTransactionStatus

  /** The admin override: any of the four statuses, from any status. */
  function UpdateTransactionStatusStep(s: State, id: Id, status: string): Reply {
    match ParseTxStatus(status)
    case None => Reply(400, InvalidTxStatus, s)
    case Some(st) => ApplyTxStatus(s, id, st)
  }

  /** The transaction is written first; the booking follows the new
      status: processing on paid, cancelled on failed or refunded. */
  function ApplyTxStatus(s: State, id: Id, st: TxStatus): Reply {
    if id !in s.transactions then Reply(404, TxNotFound, s)
    else
      var tx := s.transactions[id];
      var s1 := s.(transactions := s.transactions[id := tx.(status := st)]);
      var b := tx.bookingId;
      if st == TxPending then Reply(200, TxStatusUpdated, s1)
      else if b !in s.bookings then Reply(404, RecordNotFound, s1)
      else
        var bs := if st == Paid then Processing else Cancelled;
        Reply(200, TxStatusUpdated,
              s1.(bookings := s.bookings[b := s.bookings[b].(status := bs)]))
  }

  method UpdateTransactionStatus(db: Db, id: Id, status: string) returns (code: nat, message: Msg)
    modifies db
    ensures Reply(code, message, db.Snapshot()) == UpdateTransactionStatusStep(old(db.Snapshot()), id, status)
  {
    if !Validation.IsValidTransactionStatus(status) {
      return 400, InvalidTxStatus;
    }
    if id !in db.transactions {
      return 404, TxNotFound;
    }
    var tx := db.transactions[id];
    var st := ParseTxStatus(status).value;
    db.transactions := db.transactions[id := tx.(status := st)];
    if status == "paid" {
      if tx.bookingId !in db.bookings {
        return 404, RecordNotFound;
      }
      db.bookings := db.bookings[tx.bookingId := db.bookings[tx.bookingId].(status := Processing)];
    } else if status == "failed" || status == "refunded" {
      if tx.bookingId !in db.bookings {
        return 404, RecordNotFound;
      }
      db.bookings := db.bookings[tx.bookingId := db.bookings[tx.bookingId].(status := Cancelled)];
    }
    return 200, TxStatusUpdated;
  }

  /** Any listed status is written with no transition check; the booking
      becomes processing on paid, cancelled on failed or refunded, and is
      left alone on pending. */
  lemma UpdateTransactionStatusOutcome(s: State, id: Id, status: string)
    requires Valid(s)
    ensures var r := UpdateTransactionStatusStep(s, id, status);
      && (r.code == 400 <==> !Validation.IsValidTransactionStatus(status))
      && (r.code == 404 <==> Validation.IsValidTransactionStatus(status) && id !in s.transactions)
      && (r.code == 200 <==> Validation.IsValidTransactionStatus(status) && id in s.transactions)
      && (r.code != 200 ==> r.state == s)
      && (r.code == 200 ==>
            && var st := ParseTxStatus(status).value;
               var b := s.transactions[id].bookingId;
               && r.state == s.(transactions := r.state.transactions, bookings := r.state.bookings)
               && r.state.transactions == s.transactions[id := s.transactions[id].(status := st)]
               && TxStatusName(st) == status
               && (st == Paid ==> r.state.bookings == s.bookings[b := s.bookings[b].(status := Processing)])
               && (st == Failed || st == Refunded ==>
                     r.state.bookings == s.bookings[b := s.bookings[b].(status := Cancelled)])
               && (st == TxPending ==> r.state.bookings == s.bookings))
  {
    Validation.EnumerationsMatchSchema(status);
    Enums.NamesRoundTrip();
  }

  lemma UpdateTransactionStatusKeepsValid(s: State, id: Id, status: string)
    requires Valid(s)
    ensures Valid(UpdateTransactionStatusStep(s, id, status).state)
  {
    match ParseTxStatus(status)
    case None =>
    case Some(st) => ApplyTxStatusKeepsValid(s, id, st);
  }

  lemma ApplyTxStatusKeepsValid(s: State, id: Id, st: TxStatus)
    requires Valid(s)
    ensures Valid(ApplyTxStatus(s, id, st).state)
  {
    if id in s.transactions {
      var tx := s.transactions[id];
      var s1 := s.(transactions := s.transactions[id := tx.(status := st)]);
      TxStatusKeepsValid(s, id, st);
      if st != TxPending && tx.bookingId in s.bookings {
        var bs := if st == Paid then Processing else Cancelled;
        BookingStatusKeepsValid(s1, tx.bookingId, bs);
      }
    }
  }

  /** Setting a cancelled booking's transaction to paid makes the booking
      processing again without looking at its slot, so a database that kept
      the slot rule loses it. */
  lemma UpdateTransactionStatusCanBreakSlotRule(s: State, id: Id, other: Id)
    requires SlotRule(s)
    requires id in s.transactions
    requires s.transactions[id].bookingId in s.bookings && s.bookings[s.transactions[id].bookingId].status == Cancelled
    requires SameSlot(s, s.transactions[id].bookingId, other) && Occupies(s.bookings[other].status)
    ensures UpdateTransactionStatusStep(s, id, "paid").code == 200
    ensures !SlotRule(UpdateTransactionStatusStep(s, id, "paid").state)
  {
    var b := s.transactions[id].bookingId;
    var t := ApplyTxStatus(s, id, Paid).state;
    assert t.bookings[b].status == Processing && t.bookings[other] == s.bookings[other];
  }
}
