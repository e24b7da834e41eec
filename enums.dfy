/** The closed value sets of the schema, with the names they have on the
    wire and the parsers from those names. */
module Enums {
  import opened JsValues

  datatype BookingStatus = Pending | Processing | Done | Cancelled
  datatype TxStatus = TxPending | Paid | Failed | Refunded
  datatype PayMethod = Ewallet | Transfer | Cash
  datatype Role = UserRole | AdminRole

  /** A booking in one of these statuses occupies its (date, timeSlot). */
  predicate Occupies(st: BookingStatus) {
    st == Pending || st == Processing
  }

  function BookingStatusName(st: BookingStatus): string {
    match st
    case Pending => "pending"
    case Processing => "processing"
    case Done => "done"
    case Cancelled => "cancelled"
  }

  function ParseBookingStatus(s: string): Option<BookingStatus> {
    if s == "pending" then Some(Pending)
    else if s == "processing" then Some(Processing)
    else if s == "done" then Some(Done)
    else if s == "cancelled" then Some(Cancelled)
    else None
  }

  function TxStatusName(st: TxStatus): string {
    match st
    case TxPending => "pending"
    case Paid => "paid"
    case Failed => "failed"
    case Refunded => "refunded"
  }

  function ParseTxStatus(s: string): Option<TxStatus> {
    if s == "pending" then Some(TxPending)
    else if s == "paid" then Some(Paid)
    else if s == "failed" then Some(Failed)
    else if s == "refunded" then Some(Refunded)
    else None
  }

  function PayMethodName(m: PayMethod): string {
    match m
    case Ewallet => "ewallet"
    case Transfer => "transfer"
    case Cash => "cash"
  }

  function ParsePayMethod(s: string): Option<PayMethod> {
    if s == "ewallet" then Some(Ewallet)
    else if s == "transfer" then Some(Transfer)
    else if s == "cash" then Some(Cash)
    else None
  }

  /** Names and parsers are mutually inverse on all three enumerations. */
  lemma NamesRoundTrip()
    ensures forall st :: ParseBookingStatus(BookingStatusName(st)) == Some(st)
    ensures forall s :: ParseBookingStatus(s).Some? ==> BookingStatusName(ParseBookingStatus(s).value) == s
    ensures forall st :: ParseTxStatus(TxStatusName(st)) == Some(st)
    ensures forall s :: ParseTxStatus(s).Some? ==> TxStatusName(ParseTxStatus(s).value) == s
    ensures forall m :: ParsePayMethod(PayMethodName(m)) == Some(m)
    ensures forall s :: ParsePayMethod(s).Some? ==> PayMethodName(ParsePayMethod(s).value) == s
  {
  }
}
