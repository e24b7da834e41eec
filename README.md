# Car-wash booking backend, modelled in Dafny

This project models the core of a car-wash booking backend: an Express and
Prisma service where customers do the following:

- register and log in;
- keep a list of vehicles;
- book a wash service for a date and a one-hour time slot;
- pay for the booking with a transaction;
- review the booking once it is done.

Administrators do the following:

- maintain the service catalogue;
- override booking and transaction statuses;
- list bookings and users page by page;
- read a dashboard and a revenue report grouped by day, week or month.

Around the handlers sit four pieces that the model also covers:

- input validators that run before the handlers;
- a fixed-window rate limiter;
- the error middleware with its response envelopes;
- a console logger.

## How the model is built

**The database.** It is one value, `Schema.State`:

- one map per table (users, services, vehicles, bookings, transactions and
  reviews);
- the append-only booking status history;
- the next unused id.

The live database is the class `Store.Db`, whose tables the handler methods
update in place. `Schema.Valid` collects the constraints the schema and the
handlers keep:

- foreign keys resolve;
- one transaction and one review per booking;
- unique plate numbers and emails;
- positive amounts, prices and durations;
- every id below the counter.

`Schema.SlotRule` is the booking rule that no two pending or processing
bookings share a date and a time slot.

**The handlers.** Every state-changing handler comes as two members:

- a function `XStep(s, ...)` that gives the reply (status code, message) and
  the database after the request;
- a method `X(db, ...)` that performs the same writes on a `Store.Db`, in the
  handler's order. Its postcondition says that its reply and the new snapshot
  are exactly `XStep` of the old snapshot.

For each handler there are the following lemmas:

- an `...Outcome` lemma: which requests succeed, which status each failure
  gets, and exactly what a success changes;
- a `...KeepsValid` lemma: the database constraints survive;
- where it holds, a lemma that the slot rule survives. Where it does not,
  there is a concrete counterexample lemma instead.

Read-only handlers are functions over the state. A handler's loop becomes a
method with a loop and its invariants:

- grouping the revenue report;
- collecting missing fields;
- the rate limiter's cleanup.

Each such method is proved against a specification function.

**Time.** Timestamps are milliseconds since 1970-01-01. Calendar
arithmetic, in `Calendar`, is proleptic Gregorian in UTC. The clock, password
hashing, token signing and JSON serialisation are parameters.

## Model

| member | source | states |
|---|---|---|
| Bookings.NewBooking | src/controllers/booking.controller.ts:50-67 | a created booking is pending, belongs to the caller, keeps the requested date and slot, and has notes exactly when the request's notes are truthy |
| Bookings.CreateBooking | src/controllers/booking.controller.ts:8-79 | the handler's writes give exactly the reply and database of the createBooking step |
| Bookings.CreateBookingOutcome | src/controllers/booking.controller.ts:13-47 | 404 exactly for an inactive or missing service or a vehicle the caller does not own or that is inactive; "slot already booked" exactly when a pending or processing booking holds the slot; 201 exactly when every check passes; a rejection changes nothing |
| Bookings.CreateBookingAddsOne | src/controllers/booking.controller.ts:50-76 | a success adds one pending booking of the caller under a fresh id, leaves every other booking unchanged, and appends exactly one "Booking created" history row |
| Bookings.CreateBookingKeepsValid | src/controllers/booking.controller.ts:8-79 | createBooking keeps every database constraint |
| Bookings.AddBookingKeepsValid | src/controllers/booking.controller.ts:50-67 | storing a booking whose user, service and vehicle exist keeps the constraints |
| Bookings.CreateBookingKeepsSlotRule | src/controllers/booking.controller.ts:36-47 | the slot check keeps the rule that no two pending or processing bookings share a date and slot |
| Bookings.RefundPaid | src/controllers/booking.controller.ts:196-201 | after a cancel, the booking's paid transaction becomes refunded and every other transaction is unchanged |
| Bookings.CancelBooking | src/controllers/booking.controller.ts:150-204 | the handler's writes give exactly the reply and database of the cancelBooking step |
| Bookings.CancelBookingOutcome | src/controllers/booking.controller.ts:150-204 | 404 exactly for a booking that is not the caller's; 400 exactly for a cancelled or done one; 200 exactly for the caller's pending or processing booking, which is then cancelled with every other field of it kept, with one history row recording the reason or "Cancelled by user"; the booking's paid transaction is refunded and every transaction of another booking is unchanged; the new database differs from the old only in bookings, history and transactions |
| Bookings.CancelBookingKeepsValid | src/controllers/booking.controller.ts:150-204 | cancelBooking keeps every database constraint |
| Bookings.RefundKeepsValid | src/controllers/booking.controller.ts:196-201 | the refund only rewrites statuses and keeps the constraints |
| Bookings.CancelBookingKeepsSlotRule | src/controllers/booking.controller.ts:176-193 | cancelling keeps the slot rule |
| Bookings.CancelFreesSlot | src/controllers/booking.controller.ts:176-193 | under the slot rule, a cancelled booking's slot is free after the cancel |
| Bookings.GetBookingById | src/controllers/booking.controller.ts:121-147 | the booking is found exactly when it is the caller's; otherwise 404 "Booking not found" |
| Bookings.BookedSlots | src/controllers/booking.controller.ts:224-232 | the booked slots of a day are exactly those a pending or processing booking holds |
| Bookings.UnbookedExact | src/controllers/booking.controller.ts:233 | the filter keeps exactly the catalogue slots that are not booked, in catalogue order |
| Bookings.GetAvailableTimeSlots | src/controllers/booking.controller.ts:207-213 | a missing or unparsable date, and only that, gives 400 "Valid date is required" |
| Bookings.AvailableSlotsExact | src/controllers/booking.controller.ts:207-236 | the available slots are the catalogue slots that no pending or processing booking holds that day |
| Bookings.CatalogWellFormed | src/controllers/booking.controller.ts:218-221 | every slot of the fixed catalogue passes the time-slot validator |
| Bookings.FixedWidthSlot | src/utils/validation.ts:51-54 | an "HH:MM-HH:MM" text whose parts are valid hours and minutes is a valid slot |
| Transactions.CreateTransaction | src/controllers/transaction.controller.ts:9-68 | the handler's writes give exactly the reply and database of the createTransaction step |
| Transactions.CreateTransactionOutcome | src/controllers/transaction.controller.ts:13-65 | each check fails exactly under its own condition, in the handler's order: missing fields, unknown method, non-positive amount, not the caller's booking, and "already exists" exactly when the booking has a transaction; 201 exactly when every check passes; a rejection changes nothing; a success adds one pending transaction of the caller with the given amount and method and changes nothing else |
| Transactions.CreateTransactionKeepsValid | src/controllers/transaction.controller.ts:38-46 | the existing-transaction check keeps one transaction per booking, and amounts stay positive |
| Transactions.AddTransactionKeepsValid | src/controllers/transaction.controller.ts:48-65 | storing a positive transaction for an existing booking that has none keeps the constraints |
| Transactions.AddTransactionKeepsUnique | src/controllers/transaction.controller.ts:38-46 | adding a transaction for a booking without one keeps the one-per-booking rule |
| Transactions.CreateTransactionKeepsSlotRule | src/controllers/transaction.controller.ts:9-68 | creating a transaction keeps the slot rule |
| Transactions.ConfirmPayment | src/controllers/transaction.controller.ts:113-155 | the handler's writes give exactly the reply and database of the confirmPayment step |
| Transactions.ConfirmPaymentOutcome | src/controllers/transaction.controller.ts:113-155 | 404 exactly for a transaction that is not the caller's; 400 exactly when it is not pending; 200 exactly for the caller's pending transaction; a success makes it paid and its booking processing, whatever status the booking had, and changes no other table |
| Transactions.ConfirmPaymentKeepsValid | src/controllers/transaction.controller.ts:132-152 | confirmPayment keeps every database constraint |
| Transactions.ConfirmPaymentCanBreakSlotRule | src/controllers/transaction.controller.ts:148-152 | in a database that keeps the slot rule, paying for a cancelled booking whose slot was taken again succeeds and leaves two occupying bookings in one slot |
| Transactions.UpdateTransactionStatus | src/controllers/transaction.controller.ts:184-233 | the handler's writes give exactly the reply and database of the status-override step |
| Transactions.UpdateTransactionStatusOutcome | src/controllers/transaction.controller.ts:184-233 | 400 exactly for an unlisted status; 404 exactly for an unknown id; 200 exactly for a listed status and a known id; the status is written with no transition check, the booking becomes processing on paid and cancelled on failed or refunded and is left alone on pending, and no other table changes |
| Transactions.UpdateTransactionStatusKeepsValid | src/controllers/transaction.controller.ts:184-233 | the status override keeps every database constraint |
| Transactions.ApplyTxStatusKeepsValid | src/controllers/transaction.controller.ts:203-230 | writing any transaction status and the booking status that follows keeps the constraints |
| Transactions.UpdateTransactionStatusCanBreakSlotRule | src/controllers/transaction.controller.ts:219-224 | in a database that keeps the slot rule, setting a cancelled booking's transaction to paid revives the booking without checking its slot and breaks the rule |
| Reviews.NewReview | src/controllers/review.controller.ts:8-55 | the stored review is the caller's, for the given booking and rating, with a comment exactly when the request's is truthy |
| Reviews.CreateReview | src/controllers/review.controller.ts:8-55 | the handler's writes give exactly the reply and database of the createReview step |
| Reviews.CreateReviewOutcome | src/controllers/review.controller.ts:8-55 | only the caller's own done booking without a review is accepted; a rejection changes nothing; a success adds one review under a fresh id and changes no other table |
| Reviews.CreateReviewKeepsValid | src/controllers/review.controller.ts:8-55 | createReview keeps every constraint, including one review per booking |
| Reviews.AddReviewKeepsUnique | src/controllers/review.controller.ts:8-55 | adding a review for a booking without one keeps the one-review-per-booking rule |
| Reviews.AddReviewKeepsValid | src/controllers/review.controller.ts:8-55 | storing a review of an existing booking and user keeps the constraints |
| Reviews.CreateReviewKeepsSlotRule | src/controllers/review.controller.ts:8-55 | createReview keeps the slot rule |
| Reviews.UpdateReview | src/controllers/review.controller.ts:142-179 | the handler's writes give exactly the reply and database of the updateReview step |
| Reviews.UpdateReviewOutcome | src/controllers/review.controller.ts:142-179 | 404 exactly for a review that is not the caller's and 200 exactly for one that is; exactly the supplied fields change, a supplied truthy comment is stored as sent and an empty or null one as null; the links stay, and every other review and table is unchanged |
| Reviews.UpdateReviewKeepsValid | src/controllers/review.controller.ts:142-179 | updateReview keeps every constraint |
| Reviews.SameLinksKeepReviewRules | src/controllers/review.controller.ts:142-179 | rewriting reviews without moving them to another booking or author keeps the review constraints |
| Reviews.DeleteReview | src/controllers/review.controller.ts:182-200 | the handler's writes give exactly the reply and database of the deleteReview step |
| Reviews.DeleteReviewOutcome | src/controllers/review.controller.ts:182-200 | 404 exactly for a review that is not the caller's and 200 exactly for one that is; only that review is removed and no other table changes |
| Reviews.DeleteReviewKeepsValid | src/controllers/review.controller.ts:182-200 | deleteReview keeps every constraint |
| Reviews.DeleteThenCreate | src/controllers/review.controller.ts:8-55 | after deleting the review of a done booking, createReview accepts that booking again |
| Reviews.GetReviewByBookingId | src/controllers/review.controller.ts:238-275 | the review is found exactly when the booking is the caller's and has a review; otherwise 404 with the matching message |
| Reviews.DistributionAscending | src/controllers/review.controller.ts:203-235 | the rating distribution is in strictly ascending rating order |
| Reviews.DistributionCounts | src/controllers/review.controller.ts:203-235 | each bucket counts the selected reviews with its rating, and no bucket is empty |
| Reviews.DistributionCovers | src/controllers/review.controller.ts:203-235 | every rating a selected review gives has a bucket |
| Reviews.ReviewStatsEmpty | src/controllers/review.controller.ts:203-235 | with no reviews selected, the count and average are 0 and the distribution is empty |
| Vehicles.PlatesUniqueIgnoringCase | src/controllers/vehicle.controller.ts:53-80 | with plates stored upper-cased, no two vehicles have plates that differ only in letter case |
| Vehicles.UserVehicles | src/controllers/vehicle.controller.ts:8-23 | the listing holds exactly the caller's vehicles, or with isActive given, the active ones for "true" and the inactive ones for any other text |
| Vehicles.GetVehicleById | src/controllers/vehicle.controller.ts:26-50 | the vehicle is found exactly when it is the caller's; otherwise 404 |
| Vehicles.NewVehicle | src/controllers/vehicle.controller.ts:53-80 | the stored vehicle is the caller's and active, with its texts trimmed and its plate upper-cased |
| Vehicles.CreateVehicle | src/controllers/vehicle.controller.ts:53-80 | the handler's writes give exactly the reply and database of the createVehicle step |
| Vehicles.CreateVehicleOutcome | src/controllers/vehicle.controller.ts:53-80 | "plate taken" exactly when any vehicle already has the upper-cased plate; 201 exactly for a free plate and a known caller; a success adds one active vehicle of the caller under a fresh id, trimmed and upper-cased, and changes no other table |
| Vehicles.CreateVehicleKeepsValid | src/controllers/vehicle.controller.ts:53-80 | createVehicle keeps every constraint, including unique plates |
| Vehicles.NewPlateKeepsUnique | src/controllers/vehicle.controller.ts:53-80 | writing a vehicle whose plate no other vehicle has keeps plates unique |
| Vehicles.CreateVehicleKeepsPlatesUpper | src/controllers/vehicle.controller.ts:53-80 | stored plates stay upper-cased |
| Vehicles.UpdateVehicle | src/controllers/vehicle.controller.ts:83-124 | the handler's writes give exactly the reply and database of the updateVehicle step |
| Vehicles.UpdateVehicleOutcome | src/controllers/vehicle.controller.ts:83-124 | 404 exactly for a vehicle that is not the caller's; 400 exactly when another vehicle has the new plate; 200 otherwise; each field changes exactly when it is sent truthy, the owner and the active flag stay, and nothing else changes |
| Vehicles.PlateClashIff | src/controllers/vehicle.controller.ts:98-108 | with unique plates, the duplicate check refuses exactly a sent plate that another vehicle has; re-sending the vehicle's own plate passes |
| Vehicles.UpdateVehicleKeepsValid | src/controllers/vehicle.controller.ts:83-124 | updateVehicle keeps every constraint |
| Vehicles.UpdateVehicleKeepsPlatesUpper | src/controllers/vehicle.controller.ts:83-124 | stored plates stay upper-cased |
| Vehicles.DeleteVehicle | src/controllers/vehicle.controller.ts:127-159 | the handler's writes give exactly the reply and database of the deleteVehicle step |
| Vehicles.DeleteVehicleOutcome | src/controllers/vehicle.controller.ts:127-159 | 404 exactly for a vehicle that is not the caller's; 400 exactly when it has a pending or processing booking; 200 otherwise; a delete keeps the record, clears only its active flag, and changes no other table |
| Vehicles.ActivateVehicle | src/controllers/vehicle.controller.ts:162-181 | the handler's writes give exactly the reply and database of the activateVehicle step |
| Vehicles.ActivateVehicleOutcome | src/controllers/vehicle.controller.ts:162-181 | 404 exactly for a vehicle that is not the caller's and 200 exactly for one that is; activation sets only the flag, and activating twice is the same as activating once |
| Vehicles.ActivateUndoesDelete | src/controllers/vehicle.controller.ts:127-181 | activating after a delete restores the vehicle as active |
| Vehicles.SetVehicleActiveKeepsValid | src/controllers/vehicle.controller.ts:127-181 | toggling the active flag keeps the constraints |
| Vehicles.DeleteVehicleKeepsValid | src/controllers/vehicle.controller.ts:127-159 | deleteVehicle keeps every constraint |
| Vehicles.ActivateVehicleKeepsValid | src/controllers/vehicle.controller.ts:162-181 | activateVehicle keeps every constraint |
| Vehicles.VehicleStatsBounds | src/controllers/vehicle.controller.ts:184-221 | completed bookings never exceed total bookings; the amount spent is never negative and is 0 when nothing was paid |
| Services.AllServices | src/controllers/service.controller.ts:8-22 | the listing holds every service, or with isActive given, the active ones for "true" and the inactive ones for any other text |
| Services.CreateService | src/controllers/service.controller.ts:65-88 | the handler's writes give exactly the reply and database of the createService step |
| Services.CreateServiceOutcome | src/controllers/service.controller.ts:65-88 | a service is created exactly when all four fields are truthy and price and duration are positive; a rejection changes nothing |
| Services.CreateServiceKeepsValid | src/controllers/service.controller.ts:65-88 | createService keeps every constraint, including positive prices |
| Services.UpdateService | src/controllers/service.controller.ts:91-129 | the handler's writes give exactly the reply and database of the updateService step |
| Services.UpdateServiceOutcome | src/controllers/service.controller.ts:91-129 | 404 exactly for an unknown id; a supplied price or duration that is not positive refuses the whole update, price first; 200 otherwise, and then exactly the supplied fields change |
| Services.UpdateServiceKeepsValid | src/controllers/service.controller.ts:91-129 | updateService keeps positive prices and durations |
| Services.DeleteService | src/controllers/service.controller.ts:132-163 | the handler's writes give exactly the reply and database of the deleteService step |
| Services.DeleteServiceOutcome | src/controllers/service.controller.ts:132-163 | 404 exactly for an unknown id; 400 exactly when a pending or processing booking uses the service; 200 otherwise; a delete clears only its active flag and changes no other table |
| Services.ActivateService | src/controllers/service.controller.ts:166-184 | the handler's writes give exactly the reply and database of the activateService step |
| Services.ActivateServiceOutcome | src/controllers/service.controller.ts:166-184 | 404 exactly for an unknown id and 200 exactly for a known one; activation sets only the flag; a second call changes nothing more |
| Services.SetServiceActiveKeepsValid | src/controllers/service.controller.ts:132-184 | toggling the active flag keeps the constraints |
| Services.DeleteServiceKeepsValid | src/controllers/service.controller.ts:132-163 | deleteService keeps every constraint |
| Services.ActivateServiceKeepsValid | src/controllers/service.controller.ts:166-184 | activateService keeps every constraint |
| Services.RoundTenthClose | src/controllers/service.controller.ts:25-62 | rounding to one decimal moves the value by at most 0.05 |
| Services.RoundTenthWithin | src/controllers/service.controller.ts:25-62 | rounding to one decimal keeps a value that lies between two whole numbers between them |
| Services.ReviewsAtMostBookings | src/controllers/service.controller.ts:25-62 | a service has no more reviews than completed bookings |
| Services.AverageRatingBounds | src/controllers/service.controller.ts:25-62 | the average rating is 0 with no reviews, and otherwise lies in the rating range 1 to 5, rounding included |
| Services.ServiceStatsBounds | src/controllers/service.controller.ts:25-62 | a service is found whether active or not, with the counts and average above |
| Users.PublicView | src/controllers/user.controller.ts:23-31 | what a handler shows of a user is the id, name, email and role, never the password hash |
| Users.Register | src/controllers/user.controller.ts:8-36 | the handler's writes give exactly the reply and database of the register step |
| Users.RegisterOutcome | src/controllers/user.controller.ts:8-36 | 400 exactly when the email is taken, with nothing changed; 201 exactly when it is free, and then one user is added under a fresh id, with the hashed password and the role user, and no other table changes |
| Users.RegisterKeepsValid | src/controllers/user.controller.ts:8-36 | register keeps every constraint, including unique emails |
| Users.UserWithEmail | src/controllers/user.controller.ts:42 | the lookup finds a user exactly when one has the email, and that user has it |
| Users.Login | src/controllers/user.controller.ts:38-79 | the handler gives exactly the reply of the login step and changes nothing |
| Users.LoginOutcome | src/controllers/user.controller.ts:38-79 | 404 exactly for an unknown email; 401 exactly for a wrong password; a token only for the user with that email, carrying their id and role and a two-hour expiry |
| Users.RegisterThenLogin | src/controllers/user.controller.ts:8-79 | whoever registers can then log in with the same email and password |
| Users.GetProfile | src/controllers/user.controller.ts:82-107 | the profile is the caller's public view, or 404 for an unknown caller |
| Users.UpdateProfile | src/controllers/user.controller.ts:110-159 | the handler's writes give exactly the reply and database of the updateProfile step |
| Users.UpdateProfileOutcome | src/controllers/user.controller.ts:110-159 | 400 exactly when no field is sent or another user has the email as sent; past that, 500 exactly for an unknown caller or when another user has the trimmed email, and 200 otherwise; a success changes only the caller's name and email, each trimmed, keeping the caller's hash, role and creation time, and no other user or table |
| Users.PaddedEmailFailsLate | src/controllers/user.controller.ts:121-137 | a padded copy of another user's email passes the check and is refused at the unique index with 500 |
| Users.UpdateProfileKeepsValid | src/controllers/user.controller.ts:110-159 | updateProfile keeps every constraint |
| Users.ChangePassword | src/controllers/user.controller.ts:162-206 | the handler's writes give exactly the reply and database of the changePassword step |
| Users.ChangePasswordOutcome | src/controllers/user.controller.ts:162-206 | success exactly for a known caller, both fields sent, a new password of 6 or more characters and a matching current password; a success replaces only the caller's hash, and nothing else in the database changes |
| Users.ChangePasswordKeepsValid | src/controllers/user.controller.ts:162-206 | changePassword keeps every constraint |
| Users.ChangeThenLogin | src/controllers/user.controller.ts:38-206 | after a password change the new password logs in, and the old one is refused unless it also matches the new hash |
| Admin.UpdateBookingStatus | src/controllers/admin.controller.ts:166-198 | the handler's writes give exactly the reply and database of the status-override step |
| Admin.UpdateBookingStatusOutcome | src/controllers/admin.controller.ts:166-198 | 400 exactly for a missing or unlisted status; 404 exactly for an unknown id; 200 exactly for a listed status and a known id; then only that booking's status changes, with no transition check and no history row, and no other table changes |
| Admin.UpdateBookingStatusKeepsValid | src/controllers/admin.controller.ts:166-198 | the override keeps every constraint |
| Admin.UpdateBookingStatusCanBreakSlotRule | src/controllers/admin.controller.ts:185-195 | in a database that keeps the slot rule, moving a cancelled booking back to pending succeeds even when another booking now holds its slot, and breaks the rule |
| Admin.TotalPagesIsCeiling | src/controllers/admin.controller.ts:160 | totalPages is the least number of pages of limit rows that hold all the rows |
| Admin.PageAtMostLimit | src/controllers/admin.controller.ts:125-150 | a page never holds more than limit rows |
| Admin.PageRows | src/controllers/admin.controller.ts:125-149 | a page holds the listing's rows from position skip on, as many as the limit allows, in listing order |
| Admin.PageNonEmptyIff | src/controllers/admin.controller.ts:125-162 | with a positive limit, a page holds rows exactly when 1 <= page <= totalPages |
| Admin.PageOfRow | src/controllers/admin.controller.ts:125-150 | row i of the listing is at position i % limit of page i / limit + 1 |
| Admin.ListingLength | src/controllers/admin.controller.ts:138-151 | the listing and the count agree |
| Admin.BookingFilterOf | src/controllers/admin.controller.ts:127-136 | the query is rejected exactly when it has a non-empty status that is not one of the four booking statuses |
| Admin.GetAllBookingsOutcome | src/controllers/admin.controller.ts:122-163 | the listing fails exactly for an unknown status or a negative skip (a page below 1 with a positive limit); otherwise it is a newest-first slice of the matching bookings, with the count of all of them |
| Admin.GetAllBookingsRows | src/controllers/admin.controller.ts:122-163 | the page is the matching bookings from position (page - 1) * limit of the newest-first listing, at most limit of them, in order |
| Admin.SliceKeepsOrder | src/controllers/admin.controller.ts:147-149 | a slice of a newest-first listing is newest first and holds only matching records |
| Admin.RoleFilterOf | src/controllers/admin.controller.ts:278-281 | the query is rejected exactly when it has a non-empty role other than user and admin |
| Admin.GetAllUsersOutcome | src/controllers/admin.controller.ts:273-309 | the listing fails exactly for an unknown role or a negative skip (a page below 1 with a positive limit); otherwise it is a newest-first slice of the matching users, with the count of all of them |
| Admin.GetAllUsersRows | src/controllers/admin.controller.ts:273-309 | the page is the matching users from position (page - 1) * limit of the newest-first listing, at most limit of them, in order |
| Admin.PeriodStartBounds | src/controllers/admin.controller.ts:12-31 | every period starts at most 31 days before now; "week" exactly 7 days back; "month" at least 28 days back; "today" and any unrecognised period at today's midnight |
| Admin.DashboardCountsPartition | src/controllers/admin.controller.ts:44-70 | the four status counts add up to the total |
| Admin.StatusesPartition | src/controllers/admin.controller.ts:44-70 | the bookings of a window split into the four statuses |
| Admin.DashboardRevenue | src/controllers/admin.controller.ts:71-77 | the revenue is the sum of the paid amounts in the period: 0 when there are none, never negative |
| Admin.DashboardMatchesReport | src/controllers/admin.controller.ts:71-107 | the dashboard's revenue equals the financial report's total over the same window |
| Financial.ReportWindow | src/controllers/admin.controller.ts:204-213 | the window is the explicit range when both ends are given, otherwise the 30 days up to now |
| Financial.UnlistedIsEmpty | src/controllers/admin.controller.ts:246-251 | a key absent from the group order has nothing tallied |
| Financial.OrderFacts | src/controllers/admin.controller.ts:246-248 | the group order lists exactly the keys of the rows, each once |
| Financial.GroupedStep | src/controllers/admin.controller.ts:246-251 | adding a row to its group, opening the group when it is new, keeps the groups right |
| Financial.GroupRevenue | src/controllers/admin.controller.ts:229-252 | the loop's chart is one point per group, in first-appearance order, with the group's revenue and count |
| Financial.GroupsCoverRows | src/controllers/admin.controller.ts:229-254 | summed over the groups, the tallies give the total over the rows |
| Financial.ChartSums | src/controllers/admin.controller.ts:264-268 | the chart's points carry the tallies of the ordered keys |
| Financial.ChartAddsUp | src/controllers/admin.controller.ts:254-268 | the groups' revenues add up to the total revenue, and their counts to the number of transactions |
| Financial.CountIsLength | src/controllers/admin.controller.ts:255 | counting one per row gives the number of rows |
| Financial.FinancialReport | src/controllers/admin.controller.ts:201-270 | the report's total is the sum of the amounts, its count the number of rows, its average the mean or 0, and its chart the grouped chart |
| Financial.ReportTotalIsSum | src/controllers/admin.controller.ts:215-254 | the report's total is the sum of the paid amounts in the window |
| Calendar.TimeInDay | src/controllers/admin.controller.ts:17-18 | the time within a day is between 0 and one day |
| Calendar.WeekDay | src/controllers/admin.controller.ts:236 | the weekday is between 0 and 6 |
| Calendar.MonthLength | src/controllers/admin.controller.ts:26 | a month has 28 to 31 days |
| Calendar.YearStep | src/controllers/admin.controller.ts:26 | consecutive years start a year's length apart |
| Calendar.MonthsFillYear | src/controllers/admin.controller.ts:26 | the twelve months fill the year exactly |
| Calendar.CivilFromDays | src/controllers/admin.controller.ts:237-243 | a day number reads as a date with month 1..12 and a day within the month |
| Calendar.CivilRoundTrip | src/controllers/admin.controller.ts:237-243 | reading a day number as a date and back gives the day number |
| Calendar.CivilInjective | src/controllers/admin.controller.ts:237-243 | distinct days have distinct dates, so the day keys separate days |
| Calendar.StartOfDay | src/controllers/admin.controller.ts:17-18 | midnight is at most a day before now and on the same day |
| Calendar.MonthAgoBounds | src/controllers/admin.controller.ts:24-27 | a month back is 28 to 31 days back |
| Calendar.WeekStart | src/controllers/admin.controller.ts:235-236 | the week of a day starts at most six days before it |
| Calendar.WeekStartsSunday | src/controllers/admin.controller.ts:234-238 | the seven days from a Sunday share their week key |
| Validation.EmailRules | src/utils/validation.ts:4-7 | a valid email has no white space, exactly one '@', and a dot with text on both sides after it |
| Validation.PhoneShape | src/utils/validation.ts:10-13 | a valid phone number has 10 to 16 characters, all digits except an optional leading '+' |
| Validation.PlateScanMatchesPattern | src/utils/validation.ts:16-19 | the left-to-right scan accepts exactly the texts the plate pattern matches |
| Validation.PlateCaseInsensitive | src/utils/validation.ts:16-19 | plate validity does not depend on letter case |
| Validation.EnumerationsMatchSchema | src/utils/validation.ts:27-48 | each enumeration check accepts exactly the names the schema's values have |
| Validation.HourTextRange | src/utils/validation.ts:51-54 | the hour part reads as 0..23, and every hour 0..23 is accepted with or without a leading zero |
| Validation.MinuteTextRange | src/utils/validation.ts:51-54 | the minute part reads as 0..59, and every minute is accepted |
| Validation.TimeSlotUnordered | src/utils/validation.ts:51-54 | the pattern puts no order on the two times: a slot that ends before it starts is accepted |
| Validation.MissingFieldsExact | src/utils/validation.ts:57-78 | a field is reported exactly when it was asked for and is missing |
| Validation.MissingMeansBlank | src/utils/validation.ts:62 | a number or true is missing only when falsy; a string is missing when it is all white space |
| Validation.ValidateRequired | src/utils/validation.ts:57-78 | the loop collects the missing fields in order, and the request passes exactly when there are none |
| Validation.RegistrationFlagsExact | src/utils/validation.ts:80-106 | every failing registration rule is reported, and only those |
| Validation.RegistrationFlagsInOrder | src/utils/validation.ts:80-106 | the registration problems are listed in checking order (name, email, password, phone), each once, and none belongs to another middleware |
| Validation.ValidateUserRegistration | src/utils/validation.ts:80-106 | 400 "Validation failed" with the list of broken rules exactly when one is broken; otherwise next |
| Validation.BookingFlagsExact | src/utils/validation.ts:109-144 | every failing booking rule is reported, and only those |
| Validation.BookingFlagsInOrder | src/utils/validation.ts:109-144 | the booking problems are listed in checking order (service, date, slot, location, past date), each once, and none belongs to another middleware |
| Validation.ValidateBooking | src/utils/validation.ts:109-144 | 400 with the list of broken booking rules exactly when one is broken; otherwise next. The parse check and the past-date check are separate: an absent date fails only the first, a null, boolean or number date can fail both |
| Validation.NullDateReportedTwice | src/utils/validation.ts:117-136 | a null date is reported both as invalid and as in the past |
| Validation.AbsentDateNotPast | src/utils/validation.ts:117-136 | an absent date is reported as invalid and never as in the past |
| Validation.VehicleFlagsExact | src/utils/validation.ts:147-181 | every failing vehicle rule is reported, and only those |
| Validation.VehicleFlagsInOrder | src/utils/validation.ts:147-181 | the vehicle problems are listed in checking order (brand, model, year, color, plate, type), each once, and none belongs to another middleware |
| Validation.ValidateVehicle | src/utils/validation.ts:147-181 | 400 with the list of broken vehicle rules exactly when one is broken; otherwise next |
| Validation.ReviewFlagsExact | src/utils/validation.ts:184-202 | every failing review rule is reported, and only those |
| Validation.ReviewFlagsInOrder | src/utils/validation.ts:184-202 | the review problems are listed in checking order (rating, comment), each once, and none belongs to another middleware |
| Validation.ValidateReview | src/utils/validation.ts:184-202 | 400 with the list of broken review rules exactly when one is broken; otherwise next |
| Enums.NamesRoundTrip | src/utils/validation.ts:27-42 | the status and method names and their parsers are mutually inverse |
| Text.ToUpper | src/utils/validation.ts:18 | upper-casing keeps the length and upper-cases each letter |
| Text.ToUpperIdempotent | src/controllers/vehicle.controller.ts:53-80 | upper-casing twice is upper-casing once, so a stored plate is in normal form |
| Text.TrimIsSlice | src/utils/validation.ts:84 | trimming keeps a contiguous slice and leaves no white space at either end |
| Text.TrimEmptyIffBlank | src/utils/validation.ts:62 | a string trims to "" exactly when it is all white space |
| Text.TrimIdempotent | src/controllers/user.controller.ts:136-137 | trimming twice is trimming once |
| Text.NatToStringRoundTrip | src/utils/logger.ts:103 | rendering a number in decimal and reading it back gives the number |
| JsValues.OrNull | src/controllers/booking.controller.ts:50-67 | `x \|\| null` keeps a truthy string and turns "" or absent into null |
| JsValues.OrElse | src/controllers/booking.controller.ts:176-193 | `x \|\| fallback` keeps a truthy string and otherwise gives the fallback |
| RateLimit.WithDefaults | src/middleware/rateLimiter.ts:22-28 | the options keep the window and maximum, and use the default message unless one is given |
| RateLimit.CeilSeconds | src/middleware/rateLimiter.ts:70-72 | the rounded-up seconds are the least whole number of seconds covering the wait |
| RateLimit.RateLimiter.constructor | src/middleware/rateLimiter.ts:18-34 | a new limiter has no entries |
| RateLimit.RateLimiter.Middleware | src/middleware/rateLimiter.ts:52-84 | the key's entry becomes the counted one and the reply is the decision on it; no other key changes |
| RateLimit.RateLimiter.Cleanup | src/middleware/rateLimiter.ts:36-43 | the loop leaves exactly the entries whose window has not ended |
| RateLimit.Unexpired | src/middleware/rateLimiter.ts:36-43 | an entry is kept exactly when its window has not ended, and is kept unchanged |
| RateLimit.MiddlewareOutcome | src/middleware/rateLimiter.ts:52-84 | the window resets exactly when it has ended or there is none; the count goes up by one; 429 exactly when it exceeds the maximum, with the ceiling of the remaining seconds; otherwise remaining plus count is the maximum |
| RateLimit.PassesInWindow | src/middleware/rateLimiter.ts:52-84 | inside a window, exactly the first max - count further requests pass |
| RateLimit.AtMostMaxPerWindow | src/middleware/rateLimiter.ts:57-74 | at most maxRequests requests pass in a window that starts with the first of them |
| RateLimit.KeysSeparateUsers | src/middleware/rateLimiter.ts:45-50 | two users behind one address get different counters, and an anonymous caller counts under the address or "unknown" |
| RateLimit.AnonymousCanShareUserKey | src/middleware/rateLimiter.ts:45-50 | an address containing a colon can collide with an address plus user id |
| Errors.AppError | src/utils/errorHandler.ts:13-24 | an AppError carries its message and status and the name "Error" |
| Errors.LastMatch | src/utils/errorHandler.ts:46-76 | the last matching rule is a rule that matches; with none, no rule matches |
| Errors.RunRulesIsLastMatch | src/utils/errorHandler.ts:46-76 | running the checks in order leaves exactly the last match's status and text |
| Errors.RulesAreMapped | src/utils/errorHandler.ts:46-76 | the chain of checks amounts to the table: a recognised name first, then a recognised Prisma code |
| Errors.HandleErrorOutcome | src/utils/errorHandler.ts:27-90 | a recognised error gets the table's status and text; any other keeps its own status and message, falling back to 500 and "Internal server error"; the stack is shown only in development |
| Errors.MappedStatuses | src/utils/errorHandler.ts:46-76 | every recognised error is answered with 400, 401 or 404 |
| Errors.NameOverridesCode | src/utils/errorHandler.ts:46-76 | an error with both a Prisma code and a JWT name is reported as the JWT error |
| Errors.AppErrorPassesThrough | src/utils/errorHandler.ts:27-90 | an AppError with a truthy message and status reaches the client unchanged |
| Errors.NotFoundReply | src/utils/errorHandler.ts:135-139 | an unknown route gets 404 "Route <url> not found" |
| Errors.SuccessResponse | src/utils/errorHandler.ts:100-112 | a success envelope carries the data, with "Success" and 200 unless given |
| Errors.ErrorResponse | src/utils/errorHandler.ts:115-132 | an error envelope carries the message, 500 unless given, and the details only when truthy |
| Logging.LevelName | src/utils/logger.ts:25 | every level has a non-empty name |
| Logging.UserPart | src/utils/logger.ts:27-29 | the user part is empty exactly when the user id is falsy |
| Logging.IpPart | src/utils/logger.ts:31-33 | the address part is empty exactly when the address is falsy |
| Logging.DataPart | src/utils/logger.ts:35-37 | the data part appears exactly for truthy data in development |
| Logging.ApiResponseLevel | src/utils/logger.ts:101-104 | a response is logged as WARN exactly for a status of 400 or more, and otherwise as DEBUG |
| Logging.AuthEventLevel | src/utils/logger.ts:110-113 | an auth event is logged as INFO exactly on success, and otherwise as WARN |
| Logging.DatabaseQueryMessage | src/utils/logger.ts:106-108 | the duration is added to the message exactly when it is truthy |
| Logging.Logger.constructor | src/utils/logger.ts:19-20 | a new logger has written nothing |
| Logging.Logger.FormatLog | src/utils/logger.ts:22-40 | the built line is the header followed by each optional part, and starts with the header |
| Logging.Logger.Log | src/utils/logger.ts:42-70 | one line is written exactly when the level is not DEBUG or the mode is development |
| Logging.Logger.ApiResponse | src/utils/logger.ts:101-104 | the response line is written at the level that ApiResponseLevel picks |
| Logging.Logger.AuthEvent | src/utils/logger.ts:110-113 | the auth line is always written, with the success flag as its data |
| Logging.Logger.DatabaseQuery | src/utils/logger.ts:106-108 | the query line is written at DEBUG, so only in development |
| Logging.FormatLength | src/utils/logger.ts:22-40 | the line's length is the header's plus each present part's label and value |
| Logging.UserBeforeIp | src/utils/logger.ts:27-33 | the user part comes before the address part |
| Logging.DataHiddenOutsideDevelopment | src/utils/logger.ts:35-37 | outside development the data never shows |
| Logging.FalsyPartsOmitted | src/utils/logger.ts:27-33 | a falsy user id or address leaves no trace in the line |
| Logging.ApiResponseEmitted | src/utils/logger.ts:101-104 | in production a response is logged exactly when its status is an error; in development always |
| Logging.AuthEventAlwaysEmitted | src/utils/logger.ts:110-113 | every auth event is logged, and failures as warnings |

## Left out

- Prisma `include` and `select` shaping of replies (the user, booking and transaction objects nested in each answer) is not modelled; replies carry a status code and a message, and the database after the request.
- The dashboard's `recentBookings` list is not modelled: it is a display of the ten newest bookings with nested records.
- Concurrency is not modelled. Each handler is one atomic step, so races between requests (two bookings of one slot at the same moment) are outside the model. Where a handler does two writes, the model keeps the first write when the second fails, as the code does.
- Express routing, the authentication and admin-role middleware, and `asyncHandler` are not modelled. The caller id is a parameter, and admin handlers are taken to run only for administrators.
- The legacy controllers (`userController.ts`, `bookingController.ts` and the like), the routes, `app.ts`, `server.ts` and the database seed are not part of this model.
- bcrypt and jsonwebtoken are parameters: `hash` and `matches` stand for `bcrypt.hash` and `bcrypt.compare`, and the token is the payload passed to `jwt.sign`.
- Time is milliseconds since 1970-01-01 in UTC. Local time zones, daylight saving, and the text formats `Date.parse` accepts are not modelled: the booking validator takes `Date.parse` as a parameter, and elsewhere a date query is either a parsed timestamp or absent.
- Floating point is not modelled. Averages and rounding are real numbers, and amounts and ratings are integers.
- The rate limiter's cleanup timer (`setInterval`) is not modelled: `Cleanup` is called explicitly. The `skipSuccessfulRequests` and `skipFailedRequests` options are not modelled: no code reads them. The `X-RateLimit-Reset` header is kept as a timestamp, not its ISO text.
- The logger's console output and `JSON.stringify` are not modelled: the console is the sequence of emitted lines, and `stringify` is a parameter. The thin wrappers `error`, `warn`, `info`, `debug`, `userAction`, `adminAction`, `apiRequest`, `businessLogic` and `systemEvent` are not modelled separately; each is `Log` at a fixed level. `requestLogger` is not modelled: it wires `apiRequest` and `apiResponse` to Express events.
- `getUserBookings`, `getUserReviews`, `getAllReviews`, `getUserTransactions` and `getTransactionById` are not modelled. They are filtered, paged listings and look-ups of the same shape as `getAllBookings` and `getBookingById`, which are modelled.
- Bookings.GetAvailableTimeSlots: the reply's `bookedSlots` list is modelled as a set; the handler returns the booked slots as an array in database order, possibly with repeats. The available slots, which depend only on membership, are exact.
- Admin.GetAllBookingsOutcome: a `page` or `limit` query text that is not a number (NaN in JavaScript) and a negative limit are not modelled; page and limit are integers and limit is non-negative.
- Admin.GetAllBookingsOutcome: a query the database rejects is reported only as code 500; the error text Prisma produces is not modelled.
- Services.UpdateServiceOutcome: a JSON `null` price or duration is treated as not supplied.
- Fields that the route's validator guarantees are plain strings or numbers in the handler models. A request that skips the validator (a non-string name, say) is not modelled.
- Users.LoginOutcome: it assumes emails are unique, which the unique column on `user.email` guarantees.
- Validation.ValidateVehicle: it builds the error list by one call to `VehicleFlags`, which pushes the messages in the source's order, rather than by six separate push statements.
- Errors.ErrorResponse: the truthiness of `details` is modelled only for strings, numbers, booleans and null; arrays and objects are not modelled. A NaN `statusCode` is not modelled.
- Reviews.CreateReviewOutcome: the review's `bookingId` is taken to be present. The review validator does not check it, and without it `findFirst` drops the id condition and matches any booking of the caller; that request is not modelled.
- Text.ToUpper: upper-casing covers the ASCII letters only, while `toUpperCase` maps other letters too (and can change the length, as for 'ß'). A plate with non-ASCII letters is stored, and checked for duplicates, differently from the source; plates that pass the plate validator are ASCII.
- String lengths count characters, while JavaScript's `.length` counts UTF-16 code units. The two differ for characters outside the Basic Multilingual Plane, so the name (2), password (6), location (5), comment (500), brand, model and color checks are modelled on characters.
- Validation.ValidateBooking: `String(n)` of a number is its decimal digits; exponent forms and fractions are not modelled, and a JavaScript date outside ±8.64e15 ms is an Invalid Date.
