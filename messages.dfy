/** The messages the handlers answer with. Handlers return a `Msg`;
    `MessageText` gives the exact text the client sees. */
module Messages {

  datatype Msg =
    // bookings
    | ServiceNotFoundOrInactive | VehicleNotOwned | SlotAlreadyBooked | BookingCreated
    | BookingNotFound | BookingAlreadyCancelled | CannotCancelCompleted | BookingCancelled
    | ValidDateRequired
    // transactions
    | TxFieldsRequired | InvalidPaymentMethod | AmountNotPositive | BookingNotOwned
    | TxAlreadyExists | TxCreated | TxNotFound | TxNotPending | PaymentConfirmed
    | InvalidTxStatus | TxStatusUpdated
    // reviews
    | CanOnlyReviewDone | ReviewAlreadyExists | ReviewCreated | ReviewNotFound
    | ReviewUpdated | ReviewDeleted | ReviewNotFoundForBooking
    // vehicles
    | VehicleNotFound | PlateTaken | VehicleAdded | VehicleUpdated | VehicleHasActiveBookings
    | VehicleDeleted | VehicleActivated
    // services
    | ServiceNotFound | ServiceFieldsRequired | PriceDurationNotPositive | ServiceCreated
    | PriceNotPositive | DurationNotPositive | ServiceUpdated | ServiceHasActiveBookings
    | ServiceDeleted | ServiceActivated
    // admin
    | InvalidStatusValue | BookingStatusUpdated
    // users
    | EmailInUse | UserRegistered | UserNotFound | WrongPassword | SecretNotConfigured
    | ProfileFieldRequired | EmailInUseByOther | ProfileUpdated
    | PasswordsRequired | NewPasswordTooShort | CurrentPasswordIncorrect | PasswordChanged
    | InternalServerError
    // database errors as the error handler reports them
    | RecordNotFound | InvalidInputData

  function MessageText(m: Msg): string {
    match m
    case ServiceNotFoundOrInactive => "Service not found or inactive"
    case VehicleNotOwned => "Vehicle not found or not owned by user"
    case SlotAlreadyBooked => "Time slot is already booked"
    case BookingCreated => "Booking created successfully"
    case BookingNotFound => "Booking not found"
    case BookingAlreadyCancelled => "Booking is already cancelled"
    case CannotCancelCompleted => "Cannot cancel completed booking"
    case BookingCancelled => "Booking cancelled successfully"
    case ValidDateRequired => "Valid date is required"
    case TxFieldsRequired => "Booking ID, amount, and payment method are required"
    case InvalidPaymentMethod => "Invalid payment method"
    case AmountNotPositive => "Amount must be positive"
    case BookingNotOwned => "Booking not found or not owned by user"
    case TxAlreadyExists => "Transaction already exists for this booking"
    case TxCreated => "Transaction created successfully"
    case TxNotFound => "Transaction not found"
    case TxNotPending => "Transaction is not in pending status"
    case PaymentConfirmed => "Payment confirmed successfully"
    case InvalidTxStatus => "Invalid transaction status"
    case TxStatusUpdated => "Transaction status updated successfully"
    case CanOnlyReviewDone => "Can only review completed bookings"
    case ReviewAlreadyExists => "Review already exists for this booking"
    case ReviewCreated => "Review created successfully"
    case ReviewNotFound => "Review not found"
    case ReviewUpdated => "Review updated successfully"
    case ReviewDeleted => "Review deleted successfully"
    case ReviewNotFoundForBooking => "Review not found for this booking"
    case VehicleNotFound => "Vehicle not found"
    case PlateTaken => "Vehicle with this plate number already exists"
    case VehicleAdded => "Vehicle added successfully"
    case VehicleUpdated => "Vehicle updated successfully"
    case VehicleHasActiveBookings => "Cannot delete vehicle with active bookings"
    case VehicleDeleted => "Vehicle deleted successfully"
    case VehicleActivated => "Vehicle activated successfully"
    case ServiceNotFound => "Service not found"
    case ServiceFieldsRequired => "Name, description, price, and duration are required"
    case PriceDurationNotPositive => "Price and duration must be positive numbers"
    case ServiceCreated => "Service created successfully"
    case PriceNotPositive => "Price must be a positive number"
    case DurationNotPositive => "Duration must be a positive number"
    case ServiceUpdated => "Service updated successfully"
    case ServiceHasActiveBookings => "Cannot delete service with active bookings"
    case ServiceDeleted => "Service deleted successfully"
    case ServiceActivated => "Service activated successfully"
    case InvalidStatusValue => "Invalid status value"
    case BookingStatusUpdated => "Booking status updated successfully"
    case EmailInUse => "Email already in use"
    case UserRegistered => "User registered successfully"
    case UserNotFound => "User not found"
    case WrongPassword => "Wrong password"
    case SecretNotConfigured => "JWT_SECRET not configured"
    case ProfileFieldRequired => "At least one field (name or email) is required"
    case EmailInUseByOther => "Email already in use by another user"
    case ProfileUpdated => "Profile updated successfully"
    case PasswordsRequired => "Current password and new password are required"
    case NewPasswordTooShort => "New password must be at least 6 characters long"
    case CurrentPasswordIncorrect => "Current password is incorrect"
    case PasswordChanged => "Password changed successfully"
    case InternalServerError => "Internal server error"
    case RecordNotFound => "Record not found"
    case InvalidInputData => "Invalid input data"
  }
}
