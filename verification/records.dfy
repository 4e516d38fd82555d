/** The documents the server keeps in its four collections, as immutable values.
    Each collection is modelled as a sequence in the store's natural (insertion)
    order; the store-assigned `_id` is a field of the record. */
module Records {

  /** A document identifier (the hexadecimal form of a store object id). */
  type Id = string

  /** A slot label such as "8:00 AM - 9:00 AM". */
  type Slot = string

  datatype Option<+T> = None | Some(value: T)

  /** A treatment in the catalog: its display name, its price in whole currency
      units, and the full list of daily slot labels in catalog order. */
  datatype AppointmentOption = AppointmentOption(name: string, price: int, slots: seq<Slot>)

  /** A booking as the client submits it, plus the fields the server writes.
      `treatment` refers to an `AppointmentOption` by its `name`.
      `paid` is false while the document has no `paid` field. */
  datatype Booking = Booking(
    id: Id,
    email: string,
    treatment: string,
    appointmentDate: string,
    slot: Slot,
    price: int,
    paid: bool,
    transactionId: Option<string>)

  /** A payment confirmation as the client posts it. */
  datatype Payment = Payment(
    id: Id,
    bookingId: Id,
    transactionId: string,
    email: string,
    price: int)
}

/** Order-related facts about sequences shared by the other modules. */
module Sequences {

  /** `xs` can be obtained from `ys` by deleting elements, keeping the order of the rest. */
  predicate IsSubsequence<T(==)>(xs: seq<T>, ys: seq<T>)
    decreases |ys|
  {
    if xs == [] then true
    else if ys == [] then false
    else if xs[0] == ys[0] then IsSubsequence(xs[1..], ys[1..])
    else IsSubsequence(xs, ys[1..])
  }

}
