/**
 * The two places where the storefront (app.py) composes the managers: a
 * customer's purchase, which pays and then books seat "S1", and an
 * administrator's cancellation, which takes a booking out of the ledger.
 */
module Storefront {
  import opened Wrappers
  import opened Seqs
  import Flights
  import Bookings
  import Payments
  import Customers

  /** The seat every purchase asks for. */
  const PurchaseSeat: string := "S1"

  /** What a purchase did: whether the customer was charged, and whether a booking was made. */
  datatype Outcome = Outcome(charged: bool, booked: bool)

  /** The state of a seat: `None` when the flight has no such seat, otherwise whether it is reserved. */
  function SeatState(seats: map<string, Flights.Seat>, seatNo: string): Option<bool>
  {
    if seatNo in seats then Some(seats[seatNo].isReserved) else None
  }

  /**
   * The purchase as app.py:300-306 performs it: a wallet holding less than the
   * price is refused; otherwise the customer is charged, and a booking is made
   * only if seat S1 exists and is free. The outcome of the booking is not looked
   * at: "Reservation confirmed" follows every charge.
   */
  function PurchaseAsWritten(wallet: int, price: int, s1: Option<bool>): Outcome
  {
    if wallet < price then Outcome(false, false) else Outcome(true, s1 == Some(false))
  }

  /** The purchase as intended: charged exactly when booked, and booked exactly when the wallet covers the price and seat S1 is free. */
  function PurchaseIntended(wallet: int, price: int, s1: Option<bool>): Outcome
  {
    if wallet < price || s1 != Some(false) then Outcome(false, false) else Outcome(true, true)
  }

  /** As written, a customer who can pay for a flight whose seat S1 is taken (by any earlier buyer) is charged and gets no booking. */
  lemma ChargedWithoutBooking(wallet: int, price: int)
    requires price <= wallet
    ensures PurchaseAsWritten(wallet, price, Some(true)) == Outcome(true, false)
    ensures PurchaseAsWritten(wallet, price, None) == Outcome(true, false)
  {
  }

  /** As intended, a charge always comes with a booking, and the two versions agree whenever the written one books. */
  lemma IntendedChargesOnlyWhenBooked(wallet: int, price: int, s1: Option<bool>)
    ensures PurchaseIntended(wallet, price, s1).charged <==> PurchaseIntended(wallet, price, s1).booked
    ensures PurchaseAsWritten(wallet, price, s1).booked ==> PurchaseIntended(wallet, price, s1) == PurchaseAsWritten(wallet, price, s1)
    ensures !PurchaseAsWritten(wallet, price, s1).charged ==> PurchaseIntended(wallet, price, s1) == PurchaseAsWritten(wallet, price, s1)
  {
  }

  /**
   * app.py:300-306: `make_payment`, then `create_booking` of seat S1 for the
   * customer's email, whatever that returns. `confirmed` is whether the
   * confirmation is shown. The wallet, the payment ledger and the booking
   * ledger change as PurchaseAsWritten says.
   */
  method Purchase(customer: Customers.Customer, fm: Flights.FlightManager, bm: Bookings.BookingManager,
                  pm: Payments.PaymentManager, flightId: string, paymentId: string, bookingId: string, date: string)
    returns (confirmed: bool)
    requires flightId in fm.flights
    modifies customer, pm, bm, fm.flights[flightId]
    ensures
      var flight := fm.flights[flightId];
      var o := PurchaseAsWritten(old(customer.wallet), old(flight.price), SeatState(old(flight.seats), PurchaseSeat));
      && confirmed == o.charged
      && flight.Info() == old(flight.Info())
      && flight.seats ==
           (if o.booked then old(flight.seats)[PurchaseSeat := old(flight.seats[PurchaseSeat]).(isReserved := true)]
            else old(flight.seats))
      && customer.wallet == (if o.charged then old(customer.wallet) - old(flight.price) else old(customer.wallet))
      && pm.payments == old(pm.payments) +
           (if o.charged then [Payments.Payment(paymentId, customer.username, old(flight.flightId), old(flight.price), date)] else [])
      && bm.bookings == old(bm.bookings) +
           (if o.booked then [Bookings.Booking(bookingId, customer.email, flightId, PurchaseSeat, date)] else [])
    ensures old(fm.Valid()) ==> fm.Valid()
    ensures old(Bookings.SeatsHeld(fm, bm.bookings)) ==> Bookings.SeatsHeld(fm, bm.bookings)
    ensures old(Bookings.SeatsHeld(fm, bm.bookings)) && old(Bookings.OneSeatOneBooking(bm.bookings)) ==>
      Bookings.OneSeatOneBooking(bm.bookings)
  {
    var flight := fm.flights[flightId];
    var p := pm.MakePayment(customer, flight, paymentId, date);
    if p.Some? {
      ghost var s1 := SeatState(flight.seats, PurchaseSeat);
      var r := bm.CreateBooking(customer.email, fm, flightId, PurchaseSeat, bookingId, date);
      if r.Err? {
        assert r == Err(r.error);
        assert r.error.FlightNotFound? || r.error.InvalidSeat? || r.error.SeatAlreadyReserved?;
      }
      assert r.Ok? <==> s1 == Some(false);
      return true;
    }
    return false;
  }

  /**
   * The purchase as intended: the booking of seat S1 is made before the charge,
   * and only a wallet that covers the price gets as far as booking, so the
   * customer is charged exactly when a booking is made.
   */
  method PurchaseChecked(customer: Customers.Customer, fm: Flights.FlightManager, bm: Bookings.BookingManager,
                         pm: Payments.PaymentManager, flightId: string, paymentId: string, bookingId: string, date: string)
    returns (confirmed: bool)
    requires flightId in fm.flights
    modifies customer, pm, bm, fm.flights[flightId]
    ensures
      var flight := fm.flights[flightId];
      var o := PurchaseIntended(old(customer.wallet), old(flight.price), SeatState(old(flight.seats), PurchaseSeat));
      && confirmed == o.charged
      && flight.Info() == old(flight.Info())
      && flight.seats ==
           (if o.booked then old(flight.seats)[PurchaseSeat := old(flight.seats[PurchaseSeat]).(isReserved := true)]
            else old(flight.seats))
      && customer.wallet == (if o.charged then old(customer.wallet) - old(flight.price) else old(customer.wallet))
      && pm.payments == old(pm.payments) +
           (if o.charged then [Payments.Payment(paymentId, customer.username, old(flight.flightId), old(flight.price), date)] else [])
      && bm.bookings == old(bm.bookings) +
           (if o.booked then [Bookings.Booking(bookingId, customer.email, flightId, PurchaseSeat, date)] else [])
    ensures old(fm.Valid()) ==> fm.Valid()
    ensures old(Bookings.SeatsHeld(fm, bm.bookings)) ==> Bookings.SeatsHeld(fm, bm.bookings)
    ensures old(Bookings.SeatsHeld(fm, bm.bookings)) && old(Bookings.OneSeatOneBooking(bm.bookings)) ==>
      Bookings.OneSeatOneBooking(bm.bookings)
  {
    var flight := fm.flights[flightId];
    if customer.wallet < flight.price {
      return false;
    }
    ghost var s1 := SeatState(flight.seats, PurchaseSeat);
    var r := bm.CreateBooking(customer.email, fm, flightId, PurchaseSeat, bookingId, date);
    if r.Err? {
      assert r == Err(r.error);
      assert r.error.FlightNotFound? || r.error.InvalidSeat? || r.error.SeatAlreadyReserved?;
      return false;
    }
    var p := pm.MakePayment(customer, flight, paymentId, date);
    return true;
  }

  // ---------------------------------------------------------------------------
  // Cancellation

  /**
   * The administrator's cancel at app.py:240-241: the first booking equal to
   * the chosen one leaves the ledger (which is then saved). The flight's seat
   * is not touched: it stays reserved.
   */
  method AdminCancel(bm: Bookings.BookingManager, b: Bookings.Booking)
    requires b in bm.bookings
    modifies bm
    ensures bm.bookings == RemoveFirst(old(bm.bookings), b)
  {
    bm.bookings := RemoveFirst(bm.bookings, b);
  }

  /** Taking a booking out keeps every other booking, each as often as before. */
  lemma CancelKeepsOthers(bs: seq<Bookings.Booking>, b: Bookings.Booking, x: Bookings.Booking)
    requires b in bs
    ensures x != b ==> multiset(RemoveFirst(bs, b))[x] == multiset(bs)[x]
    ensures x in RemoveFirst(bs, b) ==> x in bs
  {
    assert multiset(RemoveFirst(bs, b))[x] <= multiset(bs)[x];
  }

  /** The bookings left after a cancel still hold their seats. */
  lemma CancelKeepsSeatsHeld(fm: Flights.FlightManager, bs: seq<Bookings.Booking>, b: Bookings.Booking)
    requires b in bs
    requires Bookings.SeatsHeld(fm, bs)
    ensures Bookings.SeatsHeld(fm, RemoveFirst(bs, b))
  {
    var rest := RemoveFirst(bs, b);
    forall i | 0 <= i < |rest|
      ensures rest[i].flightId in fm.flights
      ensures rest[i].seatNo in fm.flights[rest[i].flightId].seats
      ensures fm.flights[rest[i].flightId].seats[rest[i].seatNo].isReserved
    {
      CancelKeepsOthers(bs, b, rest[i]);
      var j :| 0 <= j < |bs| && bs[j] == rest[i];
    }
  }

  /**
   * With one booking per seat, no booking is left holding the cancelled
   * booking's seat, while the seat itself stays reserved: the seat can be
   * neither booked again nor found in the ledger.
   */
  lemma CancelOrphansSeat(fm: Flights.FlightManager, bs: seq<Bookings.Booking>, b: Bookings.Booking)
    requires b in bs
    requires Bookings.SeatsHeld(fm, bs) && Bookings.OneSeatOneBooking(bs)
    ensures b.flightId in fm.flights && b.seatNo in fm.flights[b.flightId].seats
    ensures fm.flights[b.flightId].seats[b.seatNo].isReserved
    ensures forall x :: x in RemoveFirst(bs, b) ==> x.flightId != b.flightId || x.seatNo != b.seatNo
  {
    var k := FirstIndex(bs, b);
    var rest := RemoveFirst(bs, b);
    assert rest == bs[..k] + bs[k + 1..];
    forall x | x in rest
      ensures x.flightId != b.flightId || x.seatNo != b.seatNo
    {
      var j :| 0 <= j < |rest| && rest[j] == x;
      if j < k {
        assert x == bs[j];
      } else {
        assert x == bs[j + 1];
      }
    }
  }
}
