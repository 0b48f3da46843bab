/**
 * The booking ledger of booking.py: bookings of a seat on a registered flight,
 * kept in a list that is written whole to bookings.csv after every booking.
 */
module Bookings {
  import opened Wrappers
  import Csv
  import Flights

  /** A booking. `bookingId` and `date` are the generated uuid and timestamp. */
  datatype Booking = Booking(bookingId: string, customerUsername: string, flightId: string, seatNo: string, date: string)

  /** Why `create_booking` refused: the three checks, in the order they run. */
  datatype BookingError = FlightNotFound | InvalidSeat | SeatAlreadyReserved

  // ---------------------------------------------------------------------------
  // bookings.csv records

  /** The row save_bookings writes for a booking. */
  function BookingToRow(b: Booking): Csv.Row
  {
    map[
      "booking_id" := b.bookingId,
      "customer_username" := b.customerUsername,
      "flight_id" := b.flightId,
      "seat_no" := b.seatNo,
      "date" := b.date]
  }

  /** A row load_bookings can read: every column present. */
  predicate IsBookingRow(row: Csv.Row)
  {
    "booking_id" in row && "customer_username" in row && "flight_id" in row && "seat_no" in row && "date" in row
  }

  /** The booking load_bookings rebuilds from a row, with the stored id and date. */
  function BookingFromRow(row: Csv.Row): Booking
    requires IsBookingRow(row)
  {
    Booking(row["booking_id"], row["customer_username"], row["flight_id"], row["seat_no"], row["date"])
  }

  /** Every column of a booking reads back as written. */
  lemma BookingRowRoundTrip(b: Booking)
    ensures IsBookingRow(BookingToRow(b)) && BookingFromRow(BookingToRow(b)) == b
  {
  }

  // ---------------------------------------------------------------------------
  // The list_bookings filter

  /** The filter of list_bookings: no name selects everything, a name selects that customer's bookings. */
  predicate Selects(customerUsername: Option<string>, b: Booking)
  {
    customerUsername.None? || b.customerUsername == customerUsername.value
  }

  /** The bookings the filter selects, in ledger order. */
  function Selected(bs: seq<Booking>, customerUsername: Option<string>): seq<Booking>
  {
    if bs == [] then []
    else
      var init := Selected(bs[..|bs| - 1], customerUsername);
      if Selects(customerUsername, bs[|bs| - 1]) then init + [bs[|bs| - 1]] else init
  }

  /** A booking is listed exactly when it is in the ledger and the filter selects it. */
  lemma {:induction false} SelectedMembers(bs: seq<Booking>, customerUsername: Option<string>)
    ensures forall b :: b in Selected(bs, customerUsername) <==> b in bs && Selects(customerUsername, b)
  {
    if bs != [] {
      SelectedMembers(bs[..|bs| - 1], customerUsername);
      assert bs == bs[..|bs| - 1] + [bs[|bs| - 1]];
    }
  }

  /** Selecting from a ledger split in two selects from each part, keeping their order. */
  lemma {:induction false} SelectedAppend(xs: seq<Booking>, ys: seq<Booking>, customerUsername: Option<string>)
    ensures Selected(xs + ys, customerUsername) == Selected(xs, customerUsername) + Selected(ys, customerUsername)
  {
    if ys != [] {
      var zs := xs + ys;
      assert zs[..|zs| - 1] == xs + ys[..|ys| - 1];
      SelectedAppend(xs, ys[..|ys| - 1], customerUsername);
    } else {
      assert xs + ys == xs;
    }
  }

  /** Without a name, every booking is listed, in order. */
  lemma {:induction false} SelectedAll(bs: seq<Booking>)
    ensures Selected(bs, None) == bs
  {
    if bs != [] {
      SelectedAll(bs[..|bs| - 1]);
      assert bs == bs[..|bs| - 1] + [bs[|bs| - 1]];
    }
  }

  // ---------------------------------------------------------------------------
  // What the ledger promises about seats

  /** Every booking holds its seat: the flight is registered and the booked seat is marked reserved. */
  ghost predicate SeatsHeld(fm: Flights.FlightManager, bs: seq<Booking>)
    reads fm, fm.flights.Values
  {
    forall i :: 0 <= i < |bs| ==>
      && bs[i].flightId in fm.flights
      && bs[i].seatNo in fm.flights[bs[i].flightId].seats
      && fm.flights[bs[i].flightId].seats[bs[i].seatNo].isReserved
  }

  /** One seat, one booking: no two bookings name the same flight and seat. */
  predicate OneSeatOneBooking(bs: seq<Booking>)
  {
    forall i, j :: 0 <= i < j < |bs| ==> bs[i].flightId != bs[j].flightId || bs[i].seatNo != bs[j].seatNo
  }

  // ---------------------------------------------------------------------------
  // The ledger

  /** `BookingManager`: the bookings in the order they were made or read. */
  class BookingManager {
    var bookings: seq<Booking>

    /** `BookingManager.__init__` with `load_bookings`: one booking per row, in file order. A missing file is no rows. */
    constructor (rows: seq<Csv.Row>)
      requires forall i :: 0 <= i < |rows| ==> IsBookingRow(rows[i])
      ensures |bookings| == |rows|
      ensures forall i :: 0 <= i < |rows| ==> bookings[i] == BookingFromRow(rows[i])
    {
      bookings := [];
      new;
      var i := 0;
      while i < |rows|
        invariant 0 <= i <= |rows|
        invariant |bookings| == i
        invariant forall k :: 0 <= k < i ==> bookings[k] == BookingFromRow(rows[k])
      {
        bookings := bookings + [BookingFromRow(rows[i])];
        i := i + 1;
      }
    }

    /** `save_bookings`: one row per booking, in ledger order. */
    method SaveBookings() returns (rows: seq<Csv.Row>)
      ensures |rows| == |bookings|
      ensures forall i :: 0 <= i < |bookings| ==> rows[i] == BookingToRow(bookings[i])
    {
      rows := [];
      var i := 0;
      while i < |bookings|
        invariant 0 <= i <= |bookings|
        invariant |rows| == i
        invariant forall k :: 0 <= k < i ==> rows[k] == BookingToRow(bookings[k])
      {
        rows := rows + [BookingToRow(bookings[i])];
        i := i + 1;
      }
    }

    /** Saving and loading again gives back every booking, with its id and date, in order. */
    method SaveThenLoad() returns (reloaded: BookingManager)
      ensures reloaded.bookings == bookings
    {
      var rows := SaveBookings();
      forall i | 0 <= i < |rows|
        ensures IsBookingRow(rows[i]) && BookingFromRow(rows[i]) == bookings[i]
      {
        BookingRowRoundTrip(bookings[i]);
      }
      reloaded := new BookingManager(rows);
    }

    /**
     * `create_booking`. The flight must be registered, the seat must be one of
     * its seats, and the seat must be free, checked in that order; a refusal
     * changes nothing. On success the seat is marked reserved in the registry's
     * own flight and one booking is appended.
     */
    method CreateBooking(customerUsername: string, fm: Flights.FlightManager, flightId: string, seatNo: string,
                         bookingId: string, date: string) returns (r: Result<Booking, BookingError>)
      modifies this, if flightId in fm.flights then {fm.flights[flightId]} else {}
      ensures r == Err(FlightNotFound) <==> flightId !in fm.flights
      ensures flightId in fm.flights ==>
        (r == Err(InvalidSeat) <==> seatNo !in old(fm.flights[flightId].seats))
      ensures flightId in fm.flights && seatNo in old(fm.flights[flightId].seats) ==>
        (r == Err(SeatAlreadyReserved) <==> old(fm.flights[flightId].seats[seatNo].isReserved))
      ensures r.Err? ==> bookings == old(bookings)
      ensures r.Err? && flightId in fm.flights ==> unchanged(fm.flights[flightId])
      ensures r.Ok? ==> r.value == Booking(bookingId, customerUsername, flightId, seatNo, date)
      ensures r.Ok? ==> bookings == old(bookings) + [r.value]
      ensures r.Ok? ==>
        fm.flights[flightId].seats ==
        old(fm.flights[flightId].seats)[seatNo := old(fm.flights[flightId].seats[seatNo]).(isReserved := true)]
      ensures r.Ok? ==> fm.flights[flightId].Info() == old(fm.flights[flightId].Info())
      ensures old(fm.Valid()) ==> fm.Valid()
      ensures old(SeatsHeld(fm, bookings)) ==> SeatsHeld(fm, bookings)
      ensures old(SeatsHeld(fm, bookings)) && OneSeatOneBooking(old(bookings)) ==> OneSeatOneBooking(bookings)
    {
      if flightId !in fm.flights {
        return Err(FlightNotFound);
      }
      var flight := fm.flights[flightId];
      if seatNo !in flight.seats {
        return Err(InvalidSeat);
      }
      if flight.seats[seatNo].isReserved {
        return Err(SeatAlreadyReserved);
      }
      ghost var held := SeatsHeld(fm, bookings);
      ghost var before := bookings;
      ghost var seatsBefore := flight.seats;
      flight.seats := flight.seats[seatNo := flight.seats[seatNo].(isReserved := true)];
      var booking := Booking(bookingId, customerUsername, flightId, seatNo, date);
      bookings := bookings + [booking];
      if held {
        forall i | 0 <= i < |before|
          ensures before[i].flightId != flightId || before[i].seatNo != seatNo
        {
          if before[i].flightId == flightId {
            assert seatsBefore[before[i].seatNo].isReserved;
          }
        }
      }
      return Ok(booking);
    }

    /** `list_bookings`: the selected bookings, in ledger order. */
    method ListBookings(customerUsername: Option<string>) returns (listed: seq<Booking>)
      ensures listed == Selected(bookings, customerUsername)
    {
      listed := [];
      var i := 0;
      while i < |bookings|
        invariant 0 <= i <= |bookings|
        invariant listed == Selected(bookings[..i], customerUsername)
      {
        assert bookings[..i + 1][..i] == bookings[..i];
        if Selects(customerUsername, bookings[i]) {
          listed := listed + [bookings[i]];
        }
        i := i + 1;
      }
      assert bookings[..|bookings|] == bookings;
    }
  }
}
