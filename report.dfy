/**
 * The statistics of report.py: how many customers and admins the account files
 * hold, how many flights and bookings the managers hold, and how many bookings
 * each flight has. The files are read when a count is asked for; here their
 * rows are passed in, `None` standing for a missing file.
 */
module Reports {
  import opened Wrappers
  import opened Seqs
  import Csv
  import Customers
  import Admins
  import Flights
  import Bookings

  // ---------------------------------------------------------------------------
  // Account counts

  /** The number of rows holding exactly the given role. */
  function CountRole(rows: seq<Customers.UserRow>, role: string): nat
  {
    if rows == [] then 0
    else CountRole(rows[..|rows| - 1], role) + (if rows[|rows| - 1].role == role then 1 else 0)
  }

  /** No more rows counted than there are; all of them exactly when every row has the role, none exactly when no row has it. */
  lemma {:induction false} CountRoleBounds(rows: seq<Customers.UserRow>, role: string)
    ensures CountRole(rows, role) <= |rows|
    ensures CountRole(rows, role) == |rows| <==> forall i :: 0 <= i < |rows| ==> rows[i].role == role
    ensures CountRole(rows, role) == 0 <==> forall i :: 0 <= i < |rows| ==> rows[i].role != role
  {
    if rows != [] {
      var init := rows[..|rows| - 1];
      CountRoleBounds(init, role);
      assert forall i :: 0 <= i < |init| ==> init[i] == rows[i];
    }
  }

  /** Counting over rows appended to a file adds their own count. */
  lemma {:induction false} CountRoleAppend(rows: seq<Customers.UserRow>, more: seq<Customers.UserRow>, role: string)
    ensures CountRole(rows + more, role) == CountRole(rows, role) + CountRole(more, role)
  {
    if more != [] {
      var all := rows + more;
      assert all[..|all| - 1] == rows + more[..|more| - 1];
      CountRoleAppend(rows, more[..|more| - 1], role);
    } else {
      assert rows + more == rows;
    }
  }

  /** `load_customers_count`: the rows of users.csv whose role is exactly "customer"; 0 without the file. */
  function LoadCustomersCount(users: Option<seq<Customers.UserRow>>): nat
  {
    match users
    case None => 0
    case Some(rows) => CountRole(rows, Customers.CustomerRole)
  }

  /** Registering with the default role adds one to the customer count; any other role adds nothing. */
  lemma RegisterCounted(rows: seq<Customers.UserRow>, row: Customers.UserRow)
    ensures LoadCustomersCount(Some(rows + [row])) ==
      LoadCustomersCount(Some(rows)) + (if row.role == Customers.CustomerRole then 1 else 0)
  {
    CountRoleAppend(rows, [row], Customers.CustomerRole);
    assert [row][..0] == [];
  }

  /** `load_admins_count`: every row of admins.csv; 0 without the file. */
  function LoadAdminsCount(adminRows: Option<seq<Csv.Row>>): nat
  {
    match adminRows
    case None => 0
    case Some(rows) => |rows|
  }

  /** Loading never files more admins than the file has rows: rows repeating a username collapse into one. */
  lemma {:induction false} LoadAdminsAtMostRows(rows: seq<Csv.Row>)
    requires forall i :: 0 <= i < |rows| ==> Admins.IsAdminRow(rows[i])
    ensures |Admins.LoadAdmins(rows)| <= LoadAdminsCount(Some(rows))
  {
    if rows != [] {
      var init := rows[..|rows| - 1];
      LoadAdminsAtMostRows(init);
      var m := Admins.LoadAdmins(init);
      var a := Admins.AdminFromRow(rows[|rows| - 1]);
      assert Admins.LoadAdmins(rows) == m[a.username := a];
      assert m[a.username := a].Keys == m.Keys + {a.username};
    }
  }

  /** After _save_admins, the count of admins.csv is exactly the number of admins. */
  lemma SavedAdminsCount(admins: map<string, Admins.Admin>, rows: seq<Csv.Row>, names: seq<string>)
    requires Admins.ListsAll(admins, rows, names)
    ensures LoadAdminsCount(Some(rows)) == |admins|
  {
    DistinctCardinality(names);
    assert (set u | u in names) == admins.Keys;
  }

  // ---------------------------------------------------------------------------
  // Bookings per flight

  /** The number of bookings of the given flight id. */
  function CountFor(bs: seq<Bookings.Booking>, flightId: string): nat
  {
    if bs == [] then 0
    else CountFor(bs[..|bs| - 1], flightId) + (if bs[|bs| - 1].flightId == flightId then 1 else 0)
  }

  /** A flight has bookings exactly when some booking names it, and never more than there are bookings. */
  lemma {:induction false} CountForBounds(bs: seq<Bookings.Booking>, flightId: string)
    ensures CountFor(bs, flightId) <= |bs|
    ensures CountFor(bs, flightId) > 0 <==> exists i :: 0 <= i < |bs| && bs[i].flightId == flightId
  {
    if bs != [] {
      var init := bs[..|bs| - 1];
      CountForBounds(init, flightId);
      assert forall i :: 0 <= i < |init| ==> init[i] == bs[i];
    }
  }

  /** The bookings of the given flights, added up over the flights. */
  function SumCounts(ids: seq<string>, bs: seq<Bookings.Booking>): nat
  {
    if ids == [] then 0 else SumCounts(ids[..|ids| - 1], bs) + CountFor(bs, ids[|ids| - 1])
  }

  /** Nothing is counted in an empty ledger. */
  lemma {:induction false} SumCountsEmpty(ids: seq<string>)
    ensures SumCounts(ids, []) == 0
  {
    if ids != [] {
      SumCountsEmpty(ids[..|ids| - 1]);
    }
  }

  /** One more booking adds one to the sum over distinct flights when its flight is among them. */
  lemma {:induction false} SumCountsAppend(ids: seq<string>, bs: seq<Bookings.Booking>, b: Bookings.Booking)
    requires Distinct(ids)
    ensures SumCounts(ids, bs + [b]) == SumCounts(ids, bs) + (if b.flightId in ids then 1 else 0)
  {
    if ids != [] {
      var init := ids[..|ids| - 1];
      assert Distinct(init);
      SumCountsAppend(init, bs, b);
      var all := bs + [b];
      assert all[..|all| - 1] == bs;
      assert ids == init + [ids[|ids| - 1]];
    }
  }

  /**
   * The per-flight counts add up to the number of bookings when the flights are
   * distinct and every booking names one of them (as every booking the ledger
   * made does: its flight was registered).
   */
  lemma {:induction false} SumCountsAll(ids: seq<string>, bs: seq<Bookings.Booking>)
    requires Distinct(ids)
    requires forall i :: 0 <= i < |bs| ==> bs[i].flightId in ids
    ensures SumCounts(ids, bs) == |bs|
  {
    if bs == [] {
      SumCountsEmpty(ids);
    } else {
      var init := bs[..|bs| - 1];
      SumCountsAll(ids, init);
      SumCountsAppend(ids, init, bs[|bs| - 1]);
      assert init + [bs[|bs| - 1]] == bs;
    }
  }

  /** The dictionary bookings_per_flight builds: over the flights in order, each flight number mapped to its flight's count, a later flight with the same number replacing an earlier one. */
  function Tally(entries: seq<(string, Flights.FlightInfo)>, bs: seq<Bookings.Booking>): map<string, nat>
  {
    if entries == [] then map[]
    else
      var e := entries[|entries| - 1];
      Tally(entries[..|entries| - 1], bs)[e.1.flightNumber := CountFor(bs, e.0)]
  }

  /** The report lists exactly the flight numbers of the flights. */
  lemma {:induction false} TallyKeys(entries: seq<(string, Flights.FlightInfo)>, bs: seq<Bookings.Booking>)
    ensures forall n :: n in Tally(entries, bs) <==> exists i :: 0 <= i < |entries| && entries[i].1.flightNumber == n
  {
    if entries != [] {
      var init := entries[..|entries| - 1];
      TallyKeys(init, bs);
      assert forall i :: 0 <= i < |init| ==> init[i] == entries[i];
    }
  }

  /** The count shown for a flight number is that of the last flight holding it. */
  lemma {:induction false} TallyLastWins(entries: seq<(string, Flights.FlightInfo)>, bs: seq<Bookings.Booking>, i: nat)
    requires i < |entries|
    requires forall j :: i < j < |entries| ==> entries[j].1.flightNumber != entries[i].1.flightNumber
    ensures entries[i].1.flightNumber in Tally(entries, bs)
    ensures Tally(entries, bs)[entries[i].1.flightNumber] == CountFor(bs, entries[i].0)
  {
    var last := |entries| - 1;
    if i < last {
      var init := entries[..last];
      assert init[i] == entries[i];
      forall j | i < j < |init|
        ensures init[j].1.flightNumber != init[i].1.flightNumber
      {
        assert init[j] == entries[j];
      }
      TallyLastWins(init, bs, i);
    }
  }

  /** One more flight of the registry, in order, files its count under its number. */
  lemma TallyStep(fm: Flights.FlightManager, bs: seq<Bookings.Booking>, i: nat)
    requires fm.Valid() && i < |fm.order|
    ensures fm.order[i] in fm.flights
    ensures Tally(fm.EntriesOf(fm.order[..i + 1]), bs) ==
      Tally(fm.EntriesOf(fm.order[..i]), bs)[fm.flights[fm.order[i]].flightNumber := CountFor(bs, fm.order[i])]
  {
    var done := fm.order[..i + 1];
    assert done[..i] == fm.order[..i];
  }

  // ---------------------------------------------------------------------------
  // The report

  /** `ReportManager`: the flight and booking managers it reports on; either may be missing. */
  class ReportManager {
    const flightManager: Flights.FlightManager?
    const bookingManager: Bookings.BookingManager?

    constructor (flightManager: Flights.FlightManager?, bookingManager: Bookings.BookingManager?)
      ensures this.flightManager == flightManager && this.bookingManager == bookingManager
    {
      this.flightManager := flightManager;
      this.bookingManager := bookingManager;
    }

    /** `flights_count`: the registered flights; 0 without a flight manager. */
    function FlightsCount(): nat
      reads flightManager
    {
      if flightManager == null then 0 else |flightManager.flights|
    }

    /** The flight count is 0 without a registry, and otherwise the number of ids in registration order, each counted once. */
    lemma FlightsCountIsOrder()
      requires flightManager != null ==> flightManager.Valid()
      ensures FlightsCount() == if flightManager == null then 0 else |flightManager.order|
    {
      if flightManager != null {
        var fm := flightManager;
        DistinctCardinality(fm.order);
        assert (set id | id in fm.order) == fm.flights.Keys;
      }
    }

    /** `bookings_count`: the bookings in the ledger; 0 without a booking manager. */
    function BookingsCount(): nat
      reads bookingManager
    {
      if bookingManager == null then 0 else |bookingManager.bookings|
    }

    /**
     * Every booking of the ledger is counted against exactly one registered
     * flight: the per-flight counts add up to the booking count while the
     * bookings hold their seats.
     */
    lemma BookingsAllCounted()
      requires flightManager != null && bookingManager != null
      requires flightManager.Valid()
      requires Bookings.SeatsHeld(flightManager, bookingManager.bookings)
      ensures SumCounts(flightManager.order, bookingManager.bookings) == BookingsCount()
    {
      var bs := bookingManager.bookings;
      forall i | 0 <= i < |bs|
        ensures bs[i].flightId in flightManager.order
      {
        assert bs[i].flightId in flightManager.flights;
      }
      SumCountsAll(flightManager.order, bs);
    }

    /**
     * `bookings_per_flight`: empty when either manager is missing; otherwise,
     * over the flights in registration order, each flight number mapped to the
     * number of bookings of that flight.
     */
    method BookingsPerFlight() returns (result: map<string, nat>)
      requires flightManager != null ==> flightManager.Valid()
      ensures flightManager == null || bookingManager == null ==> result == map[]
      ensures flightManager != null && bookingManager != null ==>
        result == Tally(flightManager.Entries(), bookingManager.bookings)
    {
      if flightManager == null || bookingManager == null {
        return map[];
      }
      var fm := flightManager;
      var bs := bookingManager.bookings;
      result := map[];
      var i := 0;
      while i < |fm.order|
        invariant 0 <= i <= |fm.order|
        invariant result == Tally(fm.EntriesOf(fm.order[..i]), bs)
      {
        var id := fm.order[i];
        var flight := fm.flights[id];
        TallyStep(fm, bs, i);
        result := result[flight.flightNumber := CountFor(bs, id)];
        i := i + 1;
      }
      assert fm.order[..i] == fm.order;
    }
  }
}
