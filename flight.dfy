/**
 * The flight registry of flight.py: flights with a fixed seat map, and the
 * manager that adds, edits and deletes them for an administrator and writes
 * the whole registry to flights.csv after every change.
 */
module Flights {
  import opened Wrappers
  import opened Seqs
  import Csv

  /** Seats a flight gets when no count is given. */
  const DefaultSeatCount: int := 150
  /** Airline of a flight built without one. */
  const DefaultAirline: string := "Unknown"
  /** The only role allowed to change the registry. */
  const AdminRole: string := "admin"

  // ---------------------------------------------------------------------------
  // Seats

  /** A seat: its label and whether it is taken. */
  datatype Seat = Seat(seatNo: string, isReserved: bool)

  /** The label of the n-th seat: "S1", "S2", ... */
  function SeatLabel(n: nat): string
  {
    "S" + Csv.NatToString(n)
  }

  /** Two seat numbers never share a label. */
  lemma SeatLabelInjective(m: nat, n: nat)
    requires SeatLabel(m) == SeatLabel(n)
    ensures m == n
  {
    assert SeatLabel(m)[1..] == Csv.NatToString(m);
    assert SeatLabel(n)[1..] == Csv.NatToString(n);
    Csv.NatToStringInjective(m, n);
  }

  /** The labels S1 .. S<count>; none when count is not positive, as `range(1, count + 1)` is then empty. */
  function SeatLabels(count: int): set<string>
  {
    set n: nat | 1 <= n <= count :: SeatLabel(n)
  }

  /** The seat map a new flight starts with: every label maps to an unreserved seat carrying that label. */
  function SeatMap(count: int): map<string, Seat>
  {
    map key | key in SeatLabels(count) :: Seat(key, false)
  }

  /** There are exactly `count` labels S1 .. S<count>. */
  lemma {:induction false} SeatLabelsCardinality(count: nat)
    ensures |SeatLabels(count)| == count
  {
    if count > 0 {
      SeatLabelsCardinality(count - 1);
      assert SeatLabels(count) == SeatLabels(count - 1) + {SeatLabel(count)};
      if SeatLabel(count) in SeatLabels(count - 1) {
        var n: nat :| 1 <= n <= count - 1 && SeatLabel(n) == SeatLabel(count);
        SeatLabelInjective(n, count);
      }
    }
  }

  /** A new seat map has exactly `count` seats, keyed S1 .. S<count>, each unreserved and carrying its own label. */
  lemma SeatMapShape(count: int)
    ensures |SeatMap(count)| == if count < 0 then 0 else count
    ensures forall n: nat :: SeatLabel(n) in SeatMap(count) <==> 1 <= n <= count
    ensures forall key :: key in SeatMap(count) ==> exists n: nat :: 1 <= n <= count && key == SeatLabel(n)
    ensures forall key :: key in SeatMap(count) ==> SeatMap(count)[key] == Seat(key, false)
  {
    var m := SeatMap(count);
    assert m.Keys == SeatLabels(count);
    if count >= 0 {
      SeatLabelsCardinality(count);
    } else {
      assert SeatLabels(count) == {};
    }
    forall n: nat | SeatLabel(n) in m
      ensures 1 <= n <= count
    {
      var k: nat :| 1 <= k <= count && SeatLabel(k) == SeatLabel(n);
      SeatLabelInjective(k, n);
    }
  }

  // ---------------------------------------------------------------------------
  // Flights and their editable attributes

  /** The attributes of a flight that are written to flights.csv. Money is in cents. */
  datatype FlightInfo = FlightInfo(
    flightId: string,
    flightNumber: string,
    origin: string,
    destination: string,
    price: int,
    date: string,
    departureTime: string,
    duration: string,
    airline: string)

  /** A value handed to `edit_flight` for one attribute. */
  datatype Value = Text(text: string) | Amount(cents: int)

  /** One keyword argument of `edit_flight`: attribute name and new value. */
  datatype Update = Update(field: string, value: Value)

  /** The text attributes a flight has. */
  const TextFields: set<string> :=
    {"flight_id", "flight_number", "origin", "destination", "date", "departure_time", "duration", "airline"}

  /** Every attribute `edit_flight` may set. */
  const EditableFields: set<string> := TextFields + {"price"}

  /** The update names an attribute of a flight and carries a value of that attribute's kind. */
  predicate Fits(u: Update)
  {
    match u.value
    case Text(_) => u.field in TextFields
    case Amount(_) => u.field == "price"
  }

  /** The current value of the named attribute, if a flight has one by that name. */
  function Field(info: FlightInfo, name: string): (v: Option<Value>)
    ensures v.Some? <==> name in EditableFields
  {
    if name == "flight_id" then Some(Text(info.flightId))
    else if name == "flight_number" then Some(Text(info.flightNumber))
    else if name == "origin" then Some(Text(info.origin))
    else if name == "destination" then Some(Text(info.destination))
    else if name == "price" then Some(Amount(info.price))
    else if name == "date" then Some(Text(info.date))
    else if name == "departure_time" then Some(Text(info.departureTime))
    else if name == "duration" then Some(Text(info.duration))
    else if name == "airline" then Some(Text(info.airline))
    else None
  }

  /** One `setattr`, skipped when the name is not an attribute (the `hasattr` test). */
  function SetField(info: FlightInfo, u: Update): FlightInfo
  {
    match u.value
    case Text(t) =>
      if u.field == "flight_id" then info.(flightId := t)
      else if u.field == "flight_number" then info.(flightNumber := t)
      else if u.field == "origin" then info.(origin := t)
      else if u.field == "destination" then info.(destination := t)
      else if u.field == "date" then info.(date := t)
      else if u.field == "departure_time" then info.(departureTime := t)
      else if u.field == "duration" then info.(duration := t)
      else if u.field == "airline" then info.(airline := t)
      else info
    case Amount(a) =>
      if u.field == "price" then info.(price := a) else info
  }

  /** The updates applied one after another, in the order given. */
  function ApplyUpdates(info: FlightInfo, updates: seq<Update>): FlightInfo
  {
    if updates == [] then info
    else SetField(ApplyUpdates(info, updates[..|updates| - 1]), updates[|updates| - 1])
  }

  /** The value the last fitting update for `name` assigns, or `default` when none does. */
  function LastWrite(updates: seq<Update>, name: string, default: Option<Value>): Option<Value>
  {
    if updates == [] then default
    else
      var u := updates[|updates| - 1];
      if u.field == name && Fits(u) then Some(u.value) else LastWrite(updates[..|updates| - 1], name, default)
  }

  /** One `setattr` changes the named attribute, when it fits, and no other. */
  lemma SetFieldEffect(info: FlightInfo, u: Update, name: string)
    ensures Field(SetField(info, u), name) == if u.field == name && Fits(u) then Some(u.value) else Field(info, name)
  {
  }

  /** After an edit, each attribute holds the value of the last update naming it, or its old value. */
  lemma {:induction false} EditedAttribute(info: FlightInfo, updates: seq<Update>, name: string)
    ensures Field(ApplyUpdates(info, updates), name) == LastWrite(updates, name, Field(info, name))
  {
    if updates != [] {
      var init := updates[..|updates| - 1];
      EditedAttribute(info, init, name);
      SetFieldEffect(ApplyUpdates(info, init), updates[|updates| - 1], name);
    }
  }

  /** Updates whose names a flight does not have change nothing. */
  lemma {:induction false} UnknownUpdatesIgnored(info: FlightInfo, updates: seq<Update>)
    requires forall i :: 0 <= i < |updates| ==> updates[i].field !in EditableFields
    ensures ApplyUpdates(info, updates) == info
  {
    if updates != [] {
      UnknownUpdatesIgnored(info, updates[..|updates| - 1]);
      assert updates[|updates| - 1].field !in EditableFields;
    }
  }

  /** A flight. Its attributes are edited in place and its seat map is updated in place by bookings. */
  class Flight {
    var flightId: string
    var flightNumber: string
    var origin: string
    var destination: string
    var price: int
    var date: string
    var departureTime: string
    var duration: string
    var airline: string
    var seats: map<string, Seat>

    /** The attributes that are persisted. */
    function Info(): FlightInfo
      reads this
    {
      FlightInfo(flightId, flightNumber, origin, destination, price, date, departureTime, duration, airline)
    }

    /** A new flight; `flightId` stands for the generated uuid. Its seat map is built whole, all seats free. */
    constructor (flightId: string, flightNumber: string, origin: string, destination: string,
                 price: int, date: string, departureTime: string, duration: string,
                 airline: string := DefaultAirline, seatCount: int := DefaultSeatCount)
      ensures Info() == FlightInfo(flightId, flightNumber, origin, destination, price, date, departureTime, duration, airline)
      ensures seats == SeatMap(seatCount)
    {
      this.flightId := flightId;
      this.flightNumber := flightNumber;
      this.origin := origin;
      this.destination := destination;
      this.price := price;
      this.date := date;
      this.departureTime := departureTime;
      this.duration := duration;
      this.airline := airline;
      this.seats := SeatMap(seatCount);
    }

    /** `setattr(flight, key, value)` guarded by `hasattr`: the seat map is never touched. */
    method SetAttribute(u: Update)
      modifies this
      ensures Info() == SetField(old(Info()), u)
      ensures seats == old(seats)
    {
      match u.value
      case Text(t) =>
        if u.field == "flight_id" { flightId := t; }
        else if u.field == "flight_number" { flightNumber := t; }
        else if u.field == "origin" { origin := t; }
        else if u.field == "destination" { destination := t; }
        else if u.field == "date" { date := t; }
        else if u.field == "departure_time" { departureTime := t; }
        else if u.field == "duration" { duration := t; }
        else if u.field == "airline" { airline := t; }
      case Amount(a) =>
        if u.field == "price" { price := a; }
    }
  }

  // ---------------------------------------------------------------------------
  // flights.csv records

  /** The row save_flights writes for a flight. */
  function FlightToRow(f: FlightInfo): Csv.Row
  {
    map[
      "flight_id" := f.flightId,
      "flight_number" := f.flightNumber,
      "origin" := f.origin,
      "destination" := f.destination,
      "price" := Csv.IntToString(f.price),
      "date" := f.date,
      "departure_time" := f.departureTime,
      "duration" := f.duration,
      "airline" := f.airline]
  }

  /** A row load_flights can read: every column present and a well-formed price. */
  predicate IsFlightRow(row: Csv.Row)
  {
    && "flight_id" in row && "flight_number" in row && "origin" in row && "destination" in row
    && "price" in row && "date" in row && "departure_time" in row && "duration" in row && "airline" in row
    && Csv.IsIntText(row["price"])
  }

  /** The attributes load_flights takes from a row. */
  function FlightFromRow(row: Csv.Row): FlightInfo
    requires IsFlightRow(row)
  {
    FlightInfo(row["flight_id"], row["flight_number"], row["origin"], row["destination"],
               Csv.ParseInt(row["price"]), row["date"], row["departure_time"], row["duration"], row["airline"])
  }

  /** The flight load_flights builds for a decoded row: its attributes, and the default seat map. */
  method FlightOf(info: FlightInfo) returns (flight: Flight)
    ensures fresh(flight)
    ensures flight.Info() == info && flight.seats == SeatMap(DefaultSeatCount)
  {
    flight := new Flight(info.flightId, info.flightNumber, info.origin, info.destination, info.price,
                         info.date, info.departureTime, info.duration, info.airline);
  }

  /** Every persisted attribute reads back as written. */
  lemma FlightRowRoundTrip(f: FlightInfo)
    ensures IsFlightRow(FlightToRow(f))
    ensures FlightFromRow(FlightToRow(f)) == f
  {
    Csv.IntRoundTrip(f.price);
  }

  /** The attributes of every row, in file order. */
  function DecodeRows(rows: seq<Csv.Row>): (infos: seq<FlightInfo>)
    requires forall i :: 0 <= i < |rows| ==> IsFlightRow(rows[i])
    ensures |infos| == |rows| && forall i :: 0 <= i < |rows| ==> infos[i] == FlightFromRow(rows[i])
  {
    if rows == [] then [] else DecodeRows(rows[..|rows| - 1]) + [FlightFromRow(rows[|rows| - 1])]
  }

  /**
   * The keys a dictionary holds after `flights[r.flight_id] = ...` for the first
   * `n` records, in the dictionary's order: a repeated id keeps its first place.
   */
  function SeenIds(infos: seq<FlightInfo>, n: nat): seq<string>
    requires n <= |infos|
  {
    if n == 0 then []
    else
      var ids := SeenIds(infos, n - 1);
      if infos[n - 1].flightId in ids then ids else ids + [infos[n - 1].flightId]
  }

  /** What the same assignments leave per id after the first `n` records: the last record with that id. */
  function Latest(infos: seq<FlightInfo>, n: nat): map<string, FlightInfo>
    requires n <= |infos|
  {
    if n == 0 then map[] else Latest(infos, n - 1)[infos[n - 1].flightId := infos[n - 1]]
  }

  /** Loading never lists an id twice, and lists exactly the ids it keeps a record for. */
  lemma {:induction false} SeenIdsDistinct(infos: seq<FlightInfo>, n: nat)
    requires n <= |infos|
    ensures Distinct(SeenIds(infos, n))
    ensures forall id :: id in SeenIds(infos, n) <==> id in Latest(infos, n)
  {
    if n > 0 {
      SeenIdsDistinct(infos, n - 1);
    }
  }

  /** Every record loading keeps is filed under its own id. */
  lemma {:induction false} LatestKeys(infos: seq<FlightInfo>, n: nat)
    requires n <= |infos|
    ensures forall id :: id in Latest(infos, n) ==> Latest(infos, n)[id].flightId == id
  {
    if n > 0 {
      LatestKeys(infos, n - 1);
    }
  }

  /** No two records share an id. */
  predicate DistinctIds(infos: seq<FlightInfo>)
  {
    forall j, k :: 0 <= j < k < |infos| ==> infos[j].flightId != infos[k].flightId
  }

  /** When no id repeats, loading keeps every id, in file order. */
  lemma {:induction false} LoadOrderDistinct(infos: seq<FlightInfo>, n: nat)
    requires n <= |infos| && DistinctIds(infos)
    ensures |SeenIds(infos, n)| == n
    ensures forall k :: 0 <= k < n ==> SeenIds(infos, n)[k] == infos[k].flightId
  {
    if n > 0 {
      LoadOrderDistinct(infos, n - 1);
      var ids := SeenIds(infos, n - 1);
      assert infos[n - 1].flightId !in ids by {
        forall k | 0 <= k < |ids|
          ensures ids[k] != infos[n - 1].flightId
        {
          assert ids[k] == infos[k].flightId;
        }
      }
    }
  }

  /** When no id repeats, loading keeps every record as it was read. */
  lemma {:induction false} LoadLatestDistinct(infos: seq<FlightInfo>, n: nat)
    requires n <= |infos| && DistinctIds(infos)
    ensures forall k :: 0 <= k < n ==> infos[k].flightId in Latest(infos, n)
    ensures forall k :: 0 <= k < n ==> Latest(infos, n)[infos[k].flightId] == infos[k]
  {
    if n > 0 {
      LoadLatestDistinct(infos, n - 1);
    }
  }

  // ---------------------------------------------------------------------------
  // The registry

  /** The parameter names of `edit_flight(self, admin, flight_id, **updates)`: a keyword with one of them raises TypeError before the body runs. */
  const EditParameters: set<string> := {"self", "admin", "flight_id"}

  /** Updates that can be passed to `edit_flight` as keyword arguments. */
  predicate KeywordUpdates(updates: seq<Update>)
  {
    forall i :: 0 <= i < |updates| ==> updates[i].field !in EditParameters
  }

  /** Who asks the registry for a change; only the role is looked at. */
  datatype Actor = Actor(role: string)

  /** `FlightManager`: flights keyed by id, in the dictionary's insertion order. */
  class FlightManager {
    var flights: map<string, Flight>
    /** The keys of `flights` in insertion order (the iteration order of the dictionary). */
    var order: seq<string>

    /** The key order lists each key of the dictionary once, and every flight is filed under its own id. */
    ghost predicate Valid()
      reads this, flights.Values
    {
      && Distinct(order)
      && (forall id :: id in order <==> id in flights)
      && KeysMatchIds()
    }

    /**
     * Every flight is filed under its own id. Loading and adding file a flight
     * under its id, and `edit_flight` cannot rename one: a `flight_id` keyword
     * binds to its own parameter and never reaches `**updates`.
     */
    predicate KeysMatchIds()
      reads this, flights.Values
    {
      forall id :: id in flights ==> flights[id].flightId == id
    }

    /** The given keys with the attributes of their flights. */
    function EntriesOf(ids: seq<string>): (es: seq<(string, FlightInfo)>)
      reads this, flights.Values
      requires forall i :: 0 <= i < |ids| ==> ids[i] in flights
      ensures |es| == |ids|
      ensures forall i :: 0 <= i < |ids| ==> es[i] == (ids[i], flights[ids[i]].Info())
    {
      if ids == [] then [] else EntriesOf(ids[..|ids| - 1]) + [(ids[|ids| - 1], flights[ids[|ids| - 1]].Info())]
    }

    /** `flights.items()`, in iteration order. */
    function Entries(): seq<(string, FlightInfo)>
      reads this, flights.Values
      requires Valid()
    {
      EntriesOf(order)
    }

    /**
     * The registry holds what loading the first `n` records gives: their ids in
     * first-seen order and the last record per id.
     */
    ghost predicate LoadedFrom(infos: seq<FlightInfo>, n: nat)
      reads this, flights.Values
      requires n <= |infos|
    {
      && order == SeenIds(infos, n)
      && Infos() == Latest(infos, n)
    }

    /** The attributes of every registered flight, by key. */
    ghost function Infos(): (m: map<string, FlightInfo>)
      reads this, flights.Values
      ensures m.Keys == flights.Keys
      ensures forall id :: id in m ==> m[id] == flights[id].Info()
    {
      map id | id in flights :: flights[id].Info()
    }

    /** `FlightManager.__init__` with `load_flights`: one flight per row, each with a fresh default seat map. A missing file is no rows. */
    constructor (rows: seq<Csv.Row>)
      requires forall i :: 0 <= i < |rows| ==> IsFlightRow(rows[i])
      ensures Valid()
      ensures order == SeenIds(DecodeRows(rows), |rows|)
      ensures Infos() == Latest(DecodeRows(rows), |rows|)
      ensures forall id :: id in flights ==> flights[id].seats == SeatMap(DefaultSeatCount)
    {
      flights := map[];
      order := [];
      new;
      var infos := DecodeRows(rows);
      LoadAll(infos);
      LoadedValid(infos, |infos|);
    }

    /** The loop of `load_flights`, over the decoded rows. */
    method LoadAll(infos: seq<FlightInfo>)
      requires flights == map[] && order == []
      modifies this
      ensures LoadedFrom(infos, |infos|)
      ensures forall id :: id in flights ==> flights[id].seats == SeatMap(DefaultSeatCount)
    {
      var i := 0;
      while i < |infos|
        invariant i <= |infos| && LoadedFrom(infos, i)
        invariant forall id :: id in flights ==> flights[id].seats == SeatMap(DefaultSeatCount)
      {
        var flight := FlightOf(infos[i]);
        FileLoaded(flight, infos, i);
        i := i + 1;
      }
    }

    /** What loading leaves is a well-formed registry. */
    lemma LoadedValid(infos: seq<FlightInfo>, n: nat)
      requires n <= |infos| && LoadedFrom(infos, n)
      ensures Valid()
    {
      SeenIdsDistinct(infos, n);
      LoadedKeysMatch(infos, n);
    }

    /** After loading, every flight is filed under its own id. */
    lemma LoadedKeysMatch(infos: seq<FlightInfo>, n: nat)
      requires n <= |infos| && LoadedFrom(infos, n)
      ensures KeysMatchIds()
    {
      LatestKeys(infos, n);
      forall id | id in flights
        ensures flights[id].flightId == id
      {
        assert flights[id].Info() == Latest(infos, n)[id];
      }
    }

    /** One step of `load_flights`: `flights[r.flight_id] = Flight(...)` for record `i`. */
    method FileLoaded(flight: Flight, ghost infos: seq<FlightInfo>, ghost i: nat)
      requires i < |infos| && LoadedFrom(infos, i)
      requires flight.Info() == infos[i]
      modifies this
      ensures LoadedFrom(infos, i + 1)
      ensures flights == old(flights)[flight.flightId := flight]
    {
      LoadedValid(infos, i);
      ghost var before := Infos();
      File(flight);
      ghost var after := before[flight.flightId := flight.Info()];
      assert Infos().Keys == after.Keys;
      forall id | id in after
        ensures Infos()[id] == after[id]
      {
      }
      assert Infos() == after;
    }

    /** `save_flights`: one row per flight, in iteration order. */
    method SaveFlights() returns (rows: seq<Csv.Row>)
      requires Valid()
      ensures |rows| == |order|
      ensures forall i :: 0 <= i < |order| ==> rows[i] == FlightToRow(flights[order[i]].Info())
    {
      rows := [];
      var i := 0;
      while i < |order|
        invariant 0 <= i <= |order|
        invariant |rows| == i
        invariant forall k :: 0 <= k < i ==> rows[k] == FlightToRow(flights[order[k]].Info())
      {
        rows := rows + [FlightToRow(flights[order[i]].Info())];
        i := i + 1;
      }
    }

    /**
     * Saving and loading again gives the same ids in the same order and the same
     * attributes, but every seat map is the default one: reservations are not persisted.
     */
    method SaveThenLoad() returns (reloaded: FlightManager)
      requires Valid()
      ensures reloaded.Valid() && reloaded.order == order
      ensures forall id :: id in flights ==> id in reloaded.flights && reloaded.flights[id].Info() == flights[id].Info()
      ensures forall id :: id in reloaded.flights ==> reloaded.flights[id].seats == SeatMap(DefaultSeatCount)
    {
      var rows := SaveFlights();
      forall i | 0 <= i < |rows|
        ensures IsFlightRow(rows[i]) && FlightFromRow(rows[i]) == flights[order[i]].Info()
      {
        FlightRowRoundTrip(flights[order[i]].Info());
      }
      ghost var infos := DecodeRows(rows);
      LoadOrderDistinct(infos, |infos|);
      LoadLatestDistinct(infos, |infos|);
      assert SeenIds(infos, |infos|) == order;
      reloaded := new FlightManager(rows);
      forall id | id in flights
        ensures id in reloaded.flights && reloaded.flights[id].Info() == flights[id].Info()
      {
        var i :| 0 <= i < |order| && order[i] == id;
        assert infos[i] == flights[id].Info();
      }
    }

    /** `flights[flight.flight_id] = flight`: a new key goes last, an existing key keeps its place. */
    method File(flight: Flight)
      requires Valid()
      modifies this
      ensures Valid()
      ensures flights == old(flights)[flight.flightId := flight]
      ensures order == if flight.flightId in old(flights) then old(order) else old(order) + [flight.flightId]
    {
      if flight.flightId !in flights {
        order := order + [flight.flightId];
      }
      flights := flights[flight.flightId := flight];
    }

    /** `add_flight`: refused for a non-admin; otherwise files the flight under its id, replacing any flight with that id. */
    method AddFlight(actor: Actor, flight: Flight) returns (ok: bool)
      requires Valid()
      modifies this
      ensures Valid()
      ensures ok <==> actor.role == AdminRole
      ensures !ok ==> flights == old(flights) && order == old(order)
      ensures ok ==> flights == old(flights)[flight.flightId := flight]
      ensures ok ==> order == if flight.flightId in old(flights) then old(order) else old(order) + [flight.flightId]
    {
      if actor.role != AdminRole {
        return false;
      }
      File(flight);
      return true;
    }

    /**
     * `edit_flight`: the role check comes first, then the lookup; on success the
     * updates are applied in order to the filed flight and nothing else changes.
     * The updates arrive as keyword arguments, so none names a parameter.
     */
    method EditFlight(actor: Actor, flightId: string, updates: seq<Update>) returns (ok: bool)
      requires Valid()
      requires KeywordUpdates(updates)
      modifies if flightId in flights then {flights[flightId]} else {}
      ensures Valid()
      ensures ok <==> actor.role == AdminRole && flightId in flights
      ensures flights == old(flights) && order == old(order)
      ensures !ok && flightId in flights ==> unchanged(flights[flightId])
      ensures ok ==> flights[flightId].Info() == ApplyUpdates(old(flights[flightId].Info()), updates)
      ensures ok ==> flights[flightId].seats == old(flights[flightId].seats)
    {
      if actor.role != AdminRole {
        return false;
      }
      if flightId !in flights {
        return false;
      }
      var flight := flights[flightId];
      var i := 0;
      while i < |updates|
        invariant 0 <= i <= |updates|
        invariant flight.Info() == ApplyUpdates(old(flight.Info()), updates[..i])
        invariant flight.seats == old(flight.seats)
        invariant Valid()
      {
        assert updates[..i + 1][..i] == updates[..i];
        flight.SetAttribute(updates[i]);
        i := i + 1;
      }
      assert updates[..|updates|] == updates;
      return true;
    }

    /** `delete_flight`: refused for a non-admin or an unknown id; otherwise removes exactly that id. */
    method DeleteFlight(actor: Actor, flightId: string) returns (ok: bool)
      requires Valid()
      modifies this
      ensures Valid()
      ensures ok <==> actor.role == AdminRole && flightId in old(flights)
      ensures !ok ==> flights == old(flights) && order == old(order)
      ensures ok ==> flights == old(flights) - {flightId} && order == Without(old(order), flightId)
    {
      if actor.role != AdminRole {
        return false;
      }
      if flightId in flights {
        flights := flights - {flightId};
        order := Without(order, flightId);
        return true;
      }
      return false;
    }
  }
}
