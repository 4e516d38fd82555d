# Doctors portal: availability, booking and payment core

A Dafny model of the three pieces of logic in the doctors-portal Express server
(`index.js`). The MongoDB collections become immutable sequences of records in
insertion order. Each endpoint becomes a pure function that returns the new
collections together with its reply.

- **Availability** (`GET /appointmentOptions`). Given the catalog of appointment
  options and a date, it keeps only the bookings on that date. For each option it
  collects the slot labels of bookings whose `treatment` equals the option's `name`.
  Each option then keeps only its slots that are not among those labels. Catalog
  order and slot order are preserved. `name` and `price` pass through unchanged.
- **Booking submission** (`POST /bookings`). If a booking with the same
  `(appointmentDate, email, treatment)` exists, the reply is
  `{acknowledged: false, message: "You already have a booking on <date>"}` and the
  ledger is unchanged. Otherwise the booking is appended.
- **Payment recording** (`POST /payments`). The payment document is always
  appended. Then the first booking whose id equals `bookingId` gets `paid = true`
  and the payment's `transactionId`. Nothing else changes.
- **Charge amount** (`POST /create-payment-intent`). The amount sent to the payment
  processor is `price * 100`.

Modules: `Records` (documents), `Sequences` (subsequence order), `Availability`,
`Bookings`, `Payments`, and `Consistency` (how the endpoints interact through the
bookings collection).

The model follows `index.js`, with the omissions listed under "## Left out". It adds
none of the guarantees a stricter design would want, and the following lemmas state the code's actual behaviour:
- Submission never checks whether the slot is free (`Consistency.SlotCanBeBookedTwice`).
- Payment recording is not idempotent (`Payments.ReplayStoresSecondPayment`).
- Payment recording does not check that the booking exists (`Payments.OrphanPaymentStored`).
- A later payment overwrites the transaction id (`Payments.LaterPaymentOverwritesTransaction`).

The availability loop costs options × bookings-on-date, not a single grouped pass.
That does not matter for a value-level model.

## Model

| member | source | states |
|---|---|---|
| Availability.BookingsOn | index.js:124-125 | the bookings on the date are exactly the ledger's bookings with that `appointmentDate`, in ledger order (a subsequence) |
| Availability.BookedSlots | index.js:128-129 | a label is booked for an option exactly when some booking on the date has `treatment` equal to the option's `name` and that `slot`; at most one label per booking |
| Availability.Remaining | index.js:130 | the kept slots are a subsequence of the option's slots; a label is kept iff it is a slot and not booked; every occurrence of an unbooked label is kept and none of a booked one |
| Availability.WithRemainingSlots | index.js:127-131 | only `slots` is replaced: name and price pass through; the new slots are a subsequence of the option's slots that keeps every occurrence of each unbooked label and no booked one |
| Availability.AvailableOn | index.js:117-137 | one entry per catalog option, in catalog order, with name and price unchanged; each option's slots are a subsequence of its catalog slots, and a slot is listed iff no booking on the date with exactly that treatment name holds it (with multiplicities) |
| Availability.RemainingNothingBooked | index.js:130 | when no slot of an option is booked, its slot list comes back unchanged |
| Availability.OptionDependsOnlyOnTaken | index.js:124-130 | an option's availability depends only on which of its slots are held on the date, not on the other bookings or their order |
| Availability.AvailabilityDependsOnlyOnTaken | index.js:124-131 | two ledgers that hold the same catalog slots on the date give identical availability |
| Availability.UnrelatedBookingIgnored | index.js:124-128 | a booking for another date, or whose treatment is not exactly the option's name, never removes a slot from that option |
| Availability.NoBookingsKeepsCatalog | index.js:121-131 | with no bookings on the date, the reply is the catalog unchanged |
| Availability.AgreesWithSetDifference | index.js:141-186 | as sets of labels, the v1 result equals `SetDifferenceSlots`, the v2 aggregation's set difference between the option's slots and the slots booked for its name on the date |
| Bookings.FindSameDay | index.js:229-235 | the duplicate query returns exactly the ledger's bookings with the same date, email and treatment, in ledger order |
| Bookings.Submit | index.js:224-247 | with an existing same-day booking: declined with "You already have a booking on <date>" and the ledger unchanged; otherwise the ledger grows by exactly one, earlier bookings are untouched, the new booking is last and its id is returned |
| Bookings.AcknowledgedIffNoSameDayBooking | index.js:235-242 | a submission is acknowledged if and only if the patient has no booking for that treatment on that date; the slot plays no part |
| Bookings.ResubmissionDeclined | index.js:229-240 | after an accepted booking, any later submission with the same date, email and treatment (identical or another slot) is declined and changes nothing |
| Bookings.SubmitPreservesUniqueKeys | index.js:237-242 | a ledger with unique (date, email, treatment) triples keeps them unique through any submission |
| Bookings.SubmitPreservesUniqueIds | index.js:242 | with a fresh store id, submission keeps booking ids unique |
| Payments.ChargeAmount | index.js:253-254 | the processor amount is a whole number of minor units that converts back to exactly the price |
| Payments.MarkPaid | index.js:274-283 | the first booking with the given id gets `paid = true` and the transaction id; all other bookings, and all other fields of that booking, are unchanged; with no such booking nothing changes |
| Payments.RecordPayment | index.js:269-285 | the payment is always appended as the last record and earlier payments stay; the reply is its id; the named booking is marked paid with the payment's transaction id and no other field of it changes; every other booking is unchanged |
| Payments.MarkPaidIdempotent | index.js:277-283 | applying the same booking update twice equals applying it once |
| Payments.ReplayStoresSecondPayment | index.js:270-283 | replaying the same confirmation body (stored under a fresh id) stores a second payment record and replies with its id, while the bookings stay as after the first |
| Payments.OrphanPaymentStored | index.js:270-283 | a confirmation naming no stored booking is still appended, and no booking changes |
| Payments.LaterPaymentOverwritesTransaction | index.js:277-283 | a second confirmation for the same booking replaces the transaction id written by the first |
| Payments.MarkPaidKeepsOtherFields | index.js:277-282 | the update writes only `paid` and `transactionId` (a field-by-field corollary of `MarkPaid`) |
| Consistency.AcceptedSlotUnavailable | index.js:127-130 | once a booking is accepted, its slot is no longer listed for the option with its treatment name on its date |
| Consistency.AcceptedBookingLeavesOthers | index.js:124-128 | a submission changes no other option's slots and nothing on other dates |
| Consistency.SlotCanBeBookedTwice | index.js:229-242 | two patients are both accepted for the same treatment, date and slot; the ledger then holds both bookings |
| Consistency.PaymentKeepsAvailability | index.js:277-283 | recording a payment never changes which slots are available on any date |
| Consistency.PaymentKeepsUniqueness | index.js:277-283 | recording a payment keeps (date, email, treatment) triples unique and ids unique |
| Consistency.PaymentMarksNamedBooking | index.js:274-283 | with unique booking ids, the booking whose id the payment names is the one marked paid, and only its `paid` and `transactionId` change |

## Left out

- Express routing, CORS and JSON middleware, and the listen/startup code (index.js:12-16, 412-417) are transport plumbing.
- The MongoDB client and connection (index.js:21-23, 93-97) are a foreign library. Collections are sequences in insertion order, and the store-assigned `_id` is a field supplied with the inserted record.
- Whole documents in the GET /appointmentOptions reply (index.js:121, 136) are left out. The reply carries each option's `_id` and any other stored field. `AppointmentOption` keeps only `name`, `price` and `slots`, the fields the read uses.
- Absent query or body fields are left out. The driver sends `{appointmentDate: undefined}` as null, which matches documents without that field (index.js:124, 229-233). The model treats every date, email and treatment as a present string.
- Duplicate-key insert failures are left out. A body that carries an `_id` already stored makes `insertOne` fail (index.js:242, 271); for a payment this happens before the booking update. The model assumes inserted records carry fresh ids.
- ObjectId parsing (index.js:275) is left out. A malformed `bookingId` makes the handler fail after the payment is already stored; the model treats ids as opaque strings.
- The `/v2/appointmentOptions` aggregation (index.js:141-186) runs inside MongoDB. Only its set-valued result is modelled, in `SetDifferenceSlots`; its output order and deduplication are not.
- JWT verification and issuance (index.js:71-89, 291-300) and the `verifyAdmin` lookup (index.js:101-111) wrap `jsonwebtoken` and the store.
- Booking e-mail via nodemailer/mailgun (index.js:26-68, 245) is external I/O with no effect on the reply.
- The Stripe payment-intent call (index.js:256-265) is external I/O. Only the amount arithmetic is kept.
- The users, doctors, `/appointmentSpecialty`, `GET /bookings` and `GET /bookings/:id` endpoints (index.js:191-221, 303-390) are pass-through reads, inserts and deletes with no logic.
- Concurrency is left out. The duplicate check and the insert (index.js:235-242) are separate store calls and can race. The model is sequential and claims no atomicity.
- Store failures are left out: a rejected query surfaces as an unhandled error, not a reply.
- Request bodies are modelled with the fields the server reads (plus `price`). Other client-supplied fields are stored verbatim and play no part.
- A missing `paid` field is modelled as `paid = false`.
- Payments.ChargeAmount: models `price` as an integer. JavaScript number semantics (fractional prices, string-to-number coercion) are not modelled.
