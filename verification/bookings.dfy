/** The write path of POST /bookings: refuse a second booking by the same patient
    for the same treatment on the same date, otherwise append the booking.
    The slot is not checked against availability. */
module Bookings {
  import opened Records
  import opened Sequences

  /** `a` and `b` are for the same date, patient email and treatment. */
  predicate SameDayKey(a: Booking, b: Booking) {
    a.appointmentDate == b.appointmentDate && a.email == b.email && a.treatment == b.treatment
  }

  /** Some booking of the ledger has the same date, email and treatment as `b`. */
  predicate HasSameDayBooking(ledger: seq<Booking>, b: Booking) {
    exists x :: x in ledger && SameDayKey(x, b)
  }

  /** No two bookings of the ledger share date, email and treatment. */
  predicate UniqueKeys(ledger: seq<Booking>) {
    forall i, j :: 0 <= i < j < |ledger| ==> !SameDayKey(ledger[i], ledger[j])
  }

  /** No two bookings of the ledger share an id. */
  predicate UniqueIds(ledger: seq<Booking>) {
    forall i, j :: 0 <= i < j < |ledger| ==> ledger[i].id != ledger[j].id
  }

  /** The bookings matching the duplicate query for `b`, in ledger order. */
  function FindSameDay(ledger: seq<Booking>, b: Booking): (r: seq<Booking>)
    ensures IsSubsequence(r, ledger)
    ensures forall x :: x in r <==> x in ledger && SameDayKey(x, b)
  {
    if ledger == [] then []
    else if SameDayKey(ledger[0], b) then [ledger[0]] + FindSameDay(ledger[1..], b)
    else
      var rest := FindSameDay(ledger[1..], b);
      assert rest != [] ==> rest[0] != ledger[0] by {
        if rest != [] { assert rest[0] in rest; }
      }
      rest
  }

  /** The reply to a submission: the insert acknowledgement with the new id, or
      `{acknowledged: false, message}`. */
  datatype BookingResponse = Inserted(insertedId: Id) | Declined(message: string) {
    predicate Acknowledged() { Inserted? }
  }

  /** The ledger after a submission and the reply sent to the client. */
  datatype Submission = Submission(ledger: seq<Booking>, response: BookingResponse)

  /** The explanation sent with a declined submission. */
  function DuplicateMessage(date: string): string {
    "You already have a booking on " + date
  }

  /** POST /bookings. `booking.id` is the id the store assigns on insert. */
  function Submit(ledger: seq<Booking>, booking: Booking): (out: Submission)
    ensures HasSameDayBooking(ledger, booking) ==>
      out.ledger == ledger && out.response == Declined(DuplicateMessage(booking.appointmentDate))
    ensures !HasSameDayBooking(ledger, booking) ==>
      && |out.ledger| == |ledger| + 1
      && out.ledger[..|ledger|] == ledger
      && out.ledger[|ledger|] == booking
      && out.response == Inserted(booking.id)
  {
    var alreadyBooked := FindSameDay(ledger, booking);
    if |alreadyBooked| > 0 then
      assert alreadyBooked[0] in alreadyBooked;
      Submission(ledger, Declined(DuplicateMessage(booking.appointmentDate)))
    else
      assert forall x :: x in ledger && SameDayKey(x, booking) ==> x in alreadyBooked;
      Submission(ledger + [booking], Inserted(booking.id))
  }

  /** A submission is acknowledged exactly when the patient has no booking for
      that treatment on that date yet; the slot plays no part. */
  lemma AcknowledgedIffNoSameDayBooking(ledger: seq<Booking>, booking: Booking)
    ensures Submit(ledger, booking).response.Acknowledged() <==> !HasSameDayBooking(ledger, booking)
  {
  }

  /** Once a booking is accepted, a later submission by the same patient for the
      same treatment and date (any slot, identical or not) is declined and
      leaves the ledger as it is. */
  lemma ResubmissionDeclined(ledger: seq<Booking>, booking: Booking, again: Booking)
    requires Submit(ledger, booking).response.Acknowledged()
    requires SameDayKey(again, booking)
    ensures var after := Submit(ledger, booking).ledger;
      Submit(after, again) == Submission(after, Declined(DuplicateMessage(again.appointmentDate)))
  {
    var after := Submit(ledger, booking).ledger;
    assert after[|ledger|] in after;
    assert SameDayKey(after[|ledger|], again);
  }

  /** A ledger without two bookings of the same (date, email, treatment) keeps
      that property through any submission. */
  lemma SubmitPreservesUniqueKeys(ledger: seq<Booking>, booking: Booking)
    requires UniqueKeys(ledger)
    ensures UniqueKeys(Submit(ledger, booking).ledger)
  {
  }

  /** With a fresh id from the store, submissions keep ids unique. */
  lemma SubmitPreservesUniqueIds(ledger: seq<Booking>, booking: Booking)
    requires UniqueIds(ledger)
    requires forall x :: x in ledger ==> x.id != booking.id
    ensures UniqueIds(Submit(ledger, booking).ledger)
  {
  }
}
