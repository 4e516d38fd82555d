/** The availability read of GET /appointmentOptions: for one date, every catalog
    option with its slot list narrowed to the slots no booking on that date holds. */
module Availability {
  import opened Records
  import opened Sequences

  /** Booking `b` holds slot `s` of treatment `name` on `date`. */
  predicate Takes(b: Booking, date: string, name: string, s: Slot) {
    b.appointmentDate == date && b.treatment == name && b.slot == s
  }

  /** Some booking of the ledger holds slot `s` of treatment `name` on `date`. */
  predicate SlotTaken(bookings: seq<Booking>, date: string, name: string, s: Slot) {
    exists b :: b in bookings && Takes(b, date, name, s)
  }

  /** The bookings whose date equals `date`, in ledger order (the store query
      on `appointmentDate`). */
  function BookingsOn(bookings: seq<Booking>, date: string): (r: seq<Booking>)
    ensures IsSubsequence(r, bookings)
    ensures forall b :: b in r <==> b in bookings && b.appointmentDate == date
  {
    if bookings == [] then []
    else if bookings[0].appointmentDate == date then [bookings[0]] + BookingsOn(bookings[1..], date)
    else
      var rest := BookingsOn(bookings[1..], date);
      assert rest != [] ==> rest[0] != bookings[0] by {
        if rest != [] { assert rest[0] in rest; }
      }
      rest
  }

  /** The slot labels of the bookings for treatment `name`, one per booking. */
  function BookedSlots(alreadyBooked: seq<Booking>, name: string): (r: seq<Slot>)
    ensures |r| <= |alreadyBooked|
    ensures forall s :: s in r <==> exists b :: b in alreadyBooked && b.treatment == name && b.slot == s
  {
    if alreadyBooked == [] then []
    else
      var b := alreadyBooked[0];
      var rest := BookedSlots(alreadyBooked[1..], name);
      assert forall x :: x in alreadyBooked <==> x == b || x in alreadyBooked[1..] by {
        assert alreadyBooked == [b] + alreadyBooked[1..];
      }
      if b.treatment == name then [b.slot] + rest else rest
  }

  /** The slots of `slots` that are not in `booked`, in their original order. */
  function Remaining(slots: seq<Slot>, booked: seq<Slot>): (r: seq<Slot>)
    ensures IsSubsequence(r, slots)
    ensures forall s :: s in r <==> s in slots && s !in booked
    ensures forall s :: multiset(r)[s] == if s in booked then 0 else multiset(slots)[s]
  {
    if slots == [] then []
    else
      var rest := Remaining(slots[1..], booked);
      assert slots == [slots[0]] + slots[1..];
      if slots[0] in booked then
        assert rest != [] ==> rest[0] != slots[0] by {
          if rest != [] { assert rest[0] in rest; }
        }
        rest
      else
        [slots[0]] + rest
  }

  /** One option with its slots narrowed to those free on the date of `alreadyBooked`. */
  function WithRemainingSlots(option: AppointmentOption, alreadyBooked: seq<Booking>): (r: AppointmentOption)
    ensures r.name == option.name && r.price == option.price
    ensures IsSubsequence(r.slots, option.slots)
    ensures forall s :: s in r.slots <==>
      s in option.slots && !exists b :: b in alreadyBooked && b.treatment == option.name && b.slot == s
    ensures forall s ::
              multiset(r.slots)[s] ==
              if exists b :: b in alreadyBooked && b.treatment == option.name && b.slot == s
              then 0 else multiset(option.slots)[s]
  {
    option.(slots := Remaining(option.slots, BookedSlots(alreadyBooked, option.name)))
  }

  /** The response of GET /appointmentOptions for `date`: the catalog in its own
      order, each option keeping only the slots no booking on `date` holds. */
  function AvailableOn(options: seq<AppointmentOption>, bookings: seq<Booking>, date: string)
    : (r: seq<AppointmentOption>)
    ensures |r| == |options|
    ensures forall i :: 0 <= i < |r| ==> r[i].name == options[i].name && r[i].price == options[i].price
    ensures forall i :: 0 <= i < |r| ==> IsSubsequence(r[i].slots, options[i].slots)
    ensures forall i, s :: 0 <= i < |r| ==>
      (s in r[i].slots <==> s in options[i].slots && !SlotTaken(bookings, date, options[i].name, s))
    ensures forall i, s :: 0 <= i < |r| ==>
      multiset(r[i].slots)[s] == if SlotTaken(bookings, date, options[i].name, s) then 0 else multiset(options[i].slots)[s]
  {
    var alreadyBooked := BookingsOn(bookings, date);
    var r := seq(|options|, i requires 0 <= i < |options| => WithRemainingSlots(options[i], alreadyBooked));
    assert forall i, s :: 0 <= i < |options| ==>
      (SlotTaken(bookings, date, options[i].name, s) <==> s in BookedSlots(alreadyBooked, options[i].name));
    r
  }

  /** `Remaining` depends on the booked labels only through which labels occur. */
  lemma {:induction false} RemainingDependsOnLabels(slots: seq<Slot>, booked1: seq<Slot>, booked2: seq<Slot>)
    requires forall s :: s in slots ==> (s in booked1 <==> s in booked2)
    ensures Remaining(slots, booked1) == Remaining(slots, booked2)
  {
    if slots != [] {
      assert slots[0] in slots;
      RemainingDependsOnLabels(slots[1..], booked1, booked2);
    }
  }

  /** When no slot of `slots` is booked, nothing is removed. */
  lemma {:induction false} RemainingNothingBooked(slots: seq<Slot>, booked: seq<Slot>)
    requires forall s :: s in slots ==> s !in booked
    ensures Remaining(slots, booked) == slots
  {
    if slots != [] {
      assert slots[0] in slots;
      RemainingNothingBooked(slots[1..], booked);
      assert slots == [slots[0]] + slots[1..];
    }
  }

  /** Two ledgers that take the same slots of option `i` on `date` give that option
      the same availability. */
  lemma OptionDependsOnlyOnTaken(options: seq<AppointmentOption>, bookings1: seq<Booking>,
                                 bookings2: seq<Booking>, date: string, i: nat)
    requires i < |options|
    requires forall s :: s in options[i].slots ==>
      (SlotTaken(bookings1, date, options[i].name, s) <==> SlotTaken(bookings2, date, options[i].name, s))
    ensures AvailableOn(options, bookings1, date)[i] == AvailableOn(options, bookings2, date)[i]
  {
    var o := options[i];
    var booked1 := BookedSlots(BookingsOn(bookings1, date), o.name);
    var booked2 := BookedSlots(BookingsOn(bookings2, date), o.name);
    forall s | s in o.slots
      ensures s in booked1 <==> s in booked2
    {
      assert SlotTaken(bookings1, date, o.name, s) <==> s in booked1;
      assert SlotTaken(bookings2, date, o.name, s) <==> s in booked2;
    }
    RemainingDependsOnLabels(o.slots, booked1, booked2);
  }

  /** Two ledgers that take the same slots of the catalog's treatments on `date`
      give the same availability. */
  lemma AvailabilityDependsOnlyOnTaken(options: seq<AppointmentOption>, bookings1: seq<Booking>,
                                       bookings2: seq<Booking>, date: string)
    requires forall i, s :: 0 <= i < |options| && s in options[i].slots ==>
      (SlotTaken(bookings1, date, options[i].name, s) <==> SlotTaken(bookings2, date, options[i].name, s))
    ensures AvailableOn(options, bookings1, date) == AvailableOn(options, bookings2, date)
  {
    forall i | 0 <= i < |options|
      ensures AvailableOn(options, bookings1, date)[i] == AvailableOn(options, bookings2, date)[i]
    {
      OptionDependsOnlyOnTaken(options, bookings1, bookings2, date, i);
    }
  }

  /** A booking for another date, or for a treatment whose name is not exactly the
      option's name, never removes a slot from that option. */
  lemma UnrelatedBookingIgnored(options: seq<AppointmentOption>, bookings: seq<Booking>,
                                extra: Booking, date: string, i: nat)
    requires i < |options|
    requires extra.appointmentDate != date || extra.treatment != options[i].name
    ensures AvailableOn(options, bookings + [extra], date)[i] == AvailableOn(options, bookings, date)[i]
  {
    var o := options[i];
    forall s | s in o.slots
      ensures SlotTaken(bookings + [extra], date, o.name, s) <==> SlotTaken(bookings, date, o.name, s)
    {
      if SlotTaken(bookings + [extra], date, o.name, s) {
        var b :| b in bookings + [extra] && Takes(b, date, o.name, s);
        assert b != extra;
      }
    }
    OptionDependsOnlyOnTaken(options, bookings + [extra], bookings, date, i);
  }

  /** With no booking on `date`, every option keeps its full slot list. */
  lemma NoBookingsKeepsCatalog(options: seq<AppointmentOption>, bookings: seq<Booking>, date: string)
    requires forall b :: b in bookings ==> b.appointmentDate != date
    ensures AvailableOn(options, bookings, date) == options
  {
    AvailabilityDependsOnlyOnTaken(options, bookings, [], date);
    var r := AvailableOn(options, [], date);
    forall i | 0 <= i < |options|
      ensures r[i] == options[i]
    {
      RemainingNothingBooked(options[i].slots, BookedSlots(BookingsOn([], date), options[i].name));
    }
  }

  /** The distinct labels of a slot list. */
  function SlotSet(slots: seq<Slot>): set<Slot>
  {
    set s | s in slots
  }

  /** The slots GET /v2/appointmentOptions reports for one option: the set
      difference of the option's slots and the slots booked for its name on `date`. */
  function SetDifferenceSlots(option: AppointmentOption, bookings: seq<Booking>, date: string): set<Slot>
  {
    SlotSet(option.slots) - set b | b in bookings && b.treatment == option.name && b.appointmentDate == date :: b.slot
  }

  /** The two availability reads agree when compared as sets of labels. */
  lemma AgreesWithSetDifference(options: seq<AppointmentOption>, bookings: seq<Booking>, date: string, i: nat)
    requires i < |options|
    ensures SlotSet(AvailableOn(options, bookings, date)[i].slots) == SetDifferenceSlots(options[i], bookings, date)
  {
  }
}
