/** POST /create-payment-intent (the amount only) and POST /payments: store the
    payment confirmation, then mark the booking it names as paid. */
module Payments {
  import opened Records

  /** The amount handed to the payment processor, in minor currency units. */
  function ChargeAmount(price: int): (amount: int)
    ensures amount % 100 == 0
    ensures amount / 100 == price
  {
    price * 100
  }

  /** Index `i` holds the first booking whose id is `id` (the document an
      `updateOne` filter on that id selects). */
  predicate IsFirstWithId(bookings: seq<Booking>, i: int, id: Id) {
    0 <= i < |bookings| && bookings[i].id == id && forall j :: 0 <= j < i ==> bookings[j].id != id
  }

  /** `b` with the two fields the payment update sets. */
  function PaidWith(b: Booking, transactionId: string): Booking {
    b.(paid := true, transactionId := Some(transactionId))
  }

  /** The booking update of POST /payments: the first booking with id `id` gets
      `paid = true` and the transaction id; every other booking, and every other
      field of that booking, is unchanged. With no such booking nothing changes. */
  function MarkPaid(bookings: seq<Booking>, id: Id, transactionId: string): (r: seq<Booking>)
    ensures |r| == |bookings|
    ensures forall i :: 0 <= i < |r| ==>
      r[i] == if IsFirstWithId(bookings, i, id) then PaidWith(bookings[i], transactionId) else bookings[i]
  {
    if bookings == [] then []
    else if bookings[0].id == id then [PaidWith(bookings[0], transactionId)] + bookings[1..]
    else
      var rest := MarkPaid(bookings[1..], id, transactionId);
      assert forall i :: 1 <= i < |bookings| ==>
        (IsFirstWithId(bookings, i, id) <==> IsFirstWithId(bookings[1..], i - 1, id)) by {
        forall i | 1 <= i < |bookings|
          ensures IsFirstWithId(bookings, i, id) <==> IsFirstWithId(bookings[1..], i - 1, id)
        {
          if IsFirstWithId(bookings[1..], i - 1, id) {
            forall j | 0 <= j < i ensures bookings[j].id != id {
              if j > 0 { assert bookings[j] == bookings[1..][j - 1]; }
            }
          }
        }
      }
      [bookings[0]] + rest
  }

  /** The payments collection, the bookings collection, and the reply (the new
      payment's id) after POST /payments. */
  datatype PaymentOutcome = PaymentOutcome(payments: seq<Payment>, bookings: seq<Booking>, insertedId: Id)

  /** POST /payments. The payment is stored first and unconditionally; then the
      booking named by `payment.bookingId` is marked paid, if there is one. */
  function RecordPayment(payments: seq<Payment>, bookings: seq<Booking>, payment: Payment): (out: PaymentOutcome)
    ensures |out.payments| == |payments| + 1
    ensures out.payments[..|payments|] == payments && out.payments[|payments|] == payment
    ensures out.insertedId == payment.id
    ensures |out.bookings| == |bookings|
    ensures forall i :: 0 <= i < |bookings| && IsFirstWithId(bookings, i, payment.bookingId) ==>
      out.bookings[i] == PaidWith(bookings[i], payment.transactionId)
    ensures forall i :: 0 <= i < |bookings| && !IsFirstWithId(bookings, i, payment.bookingId) ==>
      out.bookings[i] == bookings[i]
  {
    PaymentOutcome(payments + [payment], MarkPaid(bookings, payment.bookingId, payment.transactionId), payment.id)
  }

  /** Applying the booking update twice with the same transaction id is the same
      as applying it once. */
  lemma MarkPaidIdempotent(bookings: seq<Booking>, id: Id, transactionId: string)
    ensures MarkPaid(MarkPaid(bookings, id, transactionId), id, transactionId) == MarkPaid(bookings, id, transactionId)
  {
  }

  /** Replaying the same confirmation body stores a second payment record (under
      the fresh id the store assigns it); the booking update itself changes
      nothing the second time. */
  lemma ReplayStoresSecondPayment(payments: seq<Payment>, bookings: seq<Booking>, payment: Payment, id2: Id)
    requires id2 != payment.id
    ensures var once := RecordPayment(payments, bookings, payment);
      var twice := RecordPayment(once.payments, once.bookings, payment.(id := id2));
      && |twice.payments| == |payments| + 2
      && twice.payments[|payments|] == payment
      && twice.payments[|payments| + 1] == payment.(id := id2)
      && twice.insertedId == id2
      && twice.bookings == once.bookings
  {
  }

  /** A confirmation naming no stored booking is still stored, and no booking changes. */
  lemma OrphanPaymentStored(payments: seq<Payment>, bookings: seq<Booking>, payment: Payment)
    requires forall b :: b in bookings ==> b.id != payment.bookingId
    ensures var out := RecordPayment(payments, bookings, payment);
      out.payments == payments + [payment] && out.bookings == bookings
  {
  }

  /** A second confirmation for the same booking overwrites the transaction id
      written by the first. */
  lemma LaterPaymentOverwritesTransaction(payments: seq<Payment>, bookings: seq<Booking>,
                                         first: Payment, second: Payment, i: nat)
    requires IsFirstWithId(bookings, i, first.bookingId)
    requires second.bookingId == first.bookingId
    ensures var once := RecordPayment(payments, bookings, first);
      var twice := RecordPayment(once.payments, once.bookings, second);
      twice.bookings[i].paid && twice.bookings[i].transactionId == Some(second.transactionId)
  {
  }

  /** The update writes only `paid` and `transactionId`: ids, patients, treatments,
      dates, slots and prices stay where they were. A corollary of `MarkPaid`'s
      contract, stated field by field. */
  lemma MarkPaidKeepsOtherFields(bookings: seq<Booking>, id: Id, transactionId: string)
    ensures var r := MarkPaid(bookings, id, transactionId);
      forall i :: 0 <= i < |r| ==>
        r[i] == bookings[i].(paid := r[i].paid, transactionId := r[i].transactionId)
  {
  }
}
