/** How the three endpoints interact through the shared bookings collection. */
module Consistency {
  import opened Records
  import opened Availability
  import opened Bookings
  import opened Payments

  /** After a booking is accepted, its slot no longer appears for its treatment on
      its date. */
  lemma AcceptedSlotUnavailable(options: seq<AppointmentOption>, ledger: seq<Booking>, booking: Booking, i: nat)
    requires i < |options| && options[i].name == booking.treatment
    requires Submit(ledger, booking).response.Acknowledged()
    ensures booking.slot !in AvailableOn(options, Submit(ledger, booking).ledger, booking.appointmentDate)[i].slots
  {
  }

  /** An accepted booking changes no other option's slots, and nothing on other dates. */
  lemma AcceptedBookingLeavesOthers(options: seq<AppointmentOption>, ledger: seq<Booking>,
                                    booking: Booking, date: string, i: nat)
    requires i < |options|
    requires date != booking.appointmentDate || options[i].name != booking.treatment
    ensures AvailableOn(options, Submit(ledger, booking).ledger, date)[i] == AvailableOn(options, ledger, date)[i]
  {
    if Submit(ledger, booking).response.Acknowledged() {
      assert Submit(ledger, booking).ledger == ledger + [booking];
      UnrelatedBookingIgnored(options, ledger, booking, date, i);
    }
  }

  /** The submission does not consult availability: a second patient is accepted
      for a slot another patient already holds, and both bookings hold it. */
  lemma SlotCanBeBookedTwice(ledger: seq<Booking>, first: Booking, second: Booking)
    requires !HasSameDayBooking(ledger, first)
    requires !HasSameDayBooking(ledger, second)
    requires first.email != second.email
    requires first.appointmentDate == second.appointmentDate
    requires first.treatment == second.treatment && first.slot == second.slot
    ensures var one := Submit(ledger, first);
      var two := Submit(one.ledger, second);
      && one.response.Acknowledged() && two.response.Acknowledged()
      && two.ledger == ledger + [first, second]
  {
  }

  /** Recording a payment never changes which slots are available. */
  lemma PaymentKeepsAvailability(options: seq<AppointmentOption>, payments: seq<Payment>,
                                 bookings: seq<Booking>, payment: Payment, date: string)
    ensures AvailableOn(options, RecordPayment(payments, bookings, payment).bookings, date)
         == AvailableOn(options, bookings, date)
  {
    var after := RecordPayment(payments, bookings, payment).bookings;
    forall i, s | 0 <= i < |options| && s in options[i].slots
      ensures SlotTaken(after, date, options[i].name, s) <==> SlotTaken(bookings, date, options[i].name, s)
    {
      if SlotTaken(after, date, options[i].name, s) {
        var b :| b in after && Takes(b, date, options[i].name, s);
        var k :| 0 <= k < |after| && after[k] == b;
        assert bookings[k] in bookings && Takes(bookings[k], date, options[i].name, s);
      }
      if SlotTaken(bookings, date, options[i].name, s) {
        var b :| b in bookings && Takes(b, date, options[i].name, s);
        var k :| 0 <= k < |bookings| && bookings[k] == b;
        assert after[k] in after && Takes(after[k], date, options[i].name, s);
      }
    }
    AvailabilityDependsOnlyOnTaken(options, after, bookings, date);
  }

  /** Recording a payment keeps (date, email, treatment) unique and ids unique. */
  lemma PaymentKeepsUniqueness(payments: seq<Payment>, bookings: seq<Booking>, payment: Payment)
    ensures UniqueKeys(bookings) ==> UniqueKeys(RecordPayment(payments, bookings, payment).bookings)
    ensures UniqueIds(bookings) ==> UniqueIds(RecordPayment(payments, bookings, payment).bookings)
  {
  }

  /** With unique ids, the booking a payment names is exactly the one it marks paid. */
  lemma PaymentMarksNamedBooking(payments: seq<Payment>, bookings: seq<Booking>, payment: Payment, i: nat)
    requires UniqueIds(bookings)
    requires i < |bookings| && bookings[i].id == payment.bookingId
    ensures var after := RecordPayment(payments, bookings, payment).bookings;
      after[i] == bookings[i].(paid := true, transactionId := Some(payment.transactionId))
  {
  }
}
