# Airline booking core, modelled in Dafny

This project models the in-memory logic of a small airline booking system: the
flight registry, the booking ledger, the payment ledger, the customer and
administrator account stores, and the statistics report. It also models the
two places where the storefront combines them: a customer's purchase (pay, then
book seat S1) and an administrator's cancellation of a booking.

Each source module becomes one Dafny module.

| Dafny module (file) | models |
|---|---|
| `Flights` (flight.dfy) | `Seat`, `Flight` with its seat map and editable attributes, and `FlightManager`. The manager keeps the dictionary of flights plus its insertion order, because saving and reporting iterate the dictionary in that order. It adds, edits and deletes flights for an administrator, loads flights.csv and saves it. |
| `Bookings` (booking.dfy) | `Booking` and `BookingManager`: the three checks of `create_booking` in their order, the seat flag it flips in the registry's own flight, the `list_bookings` filter, and loading and saving bookings.csv. |
| `Payments` (payment.dfy) | `Payment` and `PaymentManager`: `make_payment` debits the customer's wallet in place and appends to the ledger. Also the `list_payments` filter and loading and saving payments.csv. |
| `Customers` (customer.dfy) | The users.csv row store: case-insensitive email comparison, `register` (a duplicate scan, then an append), and `login` as a first-match search. |
| `Admins` (admin.dfy) | The admin dictionary keyed by exact username: `_load_admins` keeps stored digests verbatim and later rows win; `_save_admins`; `add_admin`; `login`. |
| `Reports` (report.dfy) | The counts of `ReportManager` and `bookings_per_flight`, which are keyed by flight number, with a later flight overwriting an earlier one. |
| `Storefront` (storefront.dfy) | The purchase at app.py:300-306 and the cancel at app.py:240-241. |
| `Csv`, `Seqs`, `Wrappers` | A CSV row as a map from column to text, decimal text of integers, sequence helpers (`list.remove`, key deletion order), and `Option`/`Result`. |

Stores are fields the methods reassign:

- the `flights` dictionary is a `map` plus an `order` sequence;
- the bookings and payments lists are `seq`s;
- the users.csv rows are a `seq` of rows;
- the admins dictionary is a `map`.

A flight is a class because its attributes and seats are changed in place. A customer is a class because its wallet is debited in place.

SHA-256 is an uninterpreted function `hash: string -> string`, given to each account store when it is built. Money is an integer number of cents. Generated uuids and timestamps are parameters.

## Model

| member | source | states |
|---|---|---|
| Csv.IntRoundTrip | payment.py:30-47 | The decimal text written for an amount reads back as the same amount. |
| Seqs.Without | flight.py:121 | Deleting a key keeps the other keys in their order. It never adds an element, and it keeps the keys distinct. |
| Seqs.RemoveFirst | app.py:240 | `list.remove` removes one occurrence: the length drops by one and the multiset loses exactly that element. |
| Flights.SeatLabelInjective | flight.py:35 | Different seat numbers give different labels "S<n>". |
| Flights.SeatLabelsCardinality | flight.py:35 | `range(1, n + 1)` yields exactly n distinct labels. |
| Flights.SeatMapShape | flight.py:10-35 | A new seat map has exactly `seat_count` seats (none when the count is not positive). They are keyed S1..S<count>, and each carries its own label and is unreserved. |
| Flights.Field | flight.py:108 | A flight has an attribute exactly for the nine persisted names; every other name fails `hasattr`. |
| Flights.SetFieldEffect | flight.py:107-109 | One guarded `setattr` changes the named attribute to the given value, and nothing else. |
| Flights.EditedAttribute | flight.py:107-109 | After the updates run, every attribute holds the value of the last update naming it, or its old value if no update names it. |
| Flights.UnknownUpdatesIgnored | flight.py:107-109 | Updates naming no attribute of a flight leave it unchanged. |
| Flights.Flight.constructor | flight.py:16-35 | A new flight has the given attributes, airline "Unknown" and 150 seats by default, and the full unreserved seat map. |
| Flights.Flight.SetAttribute | flight.py:108-109 | `setattr` changes exactly the named attribute and never the seat map. |
| Flights.FlightRowRoundTrip | flight.py:44-84 | Every column `save_flights` writes, the price included, is read back by `load_flights` as the same attribute. |
| Flights.DecodeRows | flight.py:48-58 | Decoding gives one record per row, in file order. |
| Flights.FlightOf | flight.py:49-59 | A loaded flight has the row's attributes and its id, and a fresh default seat map. |
| Flights.SeenIdsDistinct | flight.py:48-60 | The dictionary's key order after loading lists no id twice, and lists exactly the ids that have a flight. |
| Flights.LatestKeys | flight.py:59-60 | Each loaded flight is filed under its own id. |
| Flights.LoadOrderDistinct | flight.py:48-60 | When no id repeats in the file, the key order is the file order. |
| Flights.LoadLatestDistinct | flight.py:48-60 | When no id repeats in the file, every record is kept as read. |
| Flights.FlightManager.EntriesOf | flight.py:73 | Iterating the flights pairs each key with that flight's current attributes, in key order. |
| Flights.FlightManager.constructor | flight.py:39-62 | Loading keeps each id's first position and its last record, and gives every flight the default seat map. A missing file means no rows. |
| Flights.FlightManager.LoadAll | flight.py:48-60 | The load loop leaves exactly what the records give. |
| Flights.FlightManager.FileLoaded | flight.py:59-60 | One load step files one flight and keeps the loaded state. |
| Flights.FlightManager.LoadedValid | flight.py:60 | After loading, the key order and the dictionary agree, with no duplicates. |
| Flights.FlightManager.LoadedKeysMatch | flight.py:59-60 | After loading, every flight is filed under its own id. |
| Flights.FlightManager.SaveFlights | flight.py:64-84 | One row per flight, in iteration order. |
| Flights.FlightManager.SaveThenLoad | flight.py:44-84 | For any well-formed registry, saving then loading keeps the ids, their order and all nine attributes. Every seat comes back unreserved: reservations are not persisted. |
| Flights.FlightManager.File | flight.py:91 | `flights[id] = flight`: a new key goes last, and an existing key keeps its place and gets the new flight. |
| Flights.FlightManager.AddFlight | flight.py:86-94 | Refused, with no change, exactly for a non-admin. Otherwise the flight is filed under its id, replacing any flight with that id; all other entries are kept. |
| Flights.FlightManager.EditFlight | flight.py:96-113 | Takes only updates that can arrive as `**updates`, so none names `self`, `admin` or `flight_id`. Succeeds exactly for an admin and a known id, with no change otherwise. The updates are applied in order to that flight only; no flight is added or removed, and the seats are untouched. Every flight stays filed under its own id. |
| Flights.FlightManager.DeleteFlight | flight.py:115-127 | Succeeds exactly for an admin and a known id, and then removes exactly that id. Otherwise nothing changes. |
| Bookings.BookingRowRoundTrip | booking.py:22-46 | Every column of a booking reads back as written. |
| Bookings.SelectedMembers | booking.py:75-78 | A booking is listed exactly when it is in the ledger and the filter is empty or names its customer. |
| Bookings.SelectedAppend | booking.py:76-77 | Listing a ledger split in two lists each part, in order. |
| Bookings.SelectedAll | booking.py:75-78 | Without a name, every booking is listed, in order. |
| Bookings.BookingManager.constructor | booking.py:17-32 | One booking per row, in file order, with the stored id and date. |
| Bookings.BookingManager.SaveBookings | booking.py:34-46 | One row per booking, in ledger order. |
| Bookings.BookingManager.SaveThenLoad | booking.py:22-46 | Saving then loading gives back the same ledger. |
| Bookings.BookingManager.CreateBooking | booking.py:48-73 | The refusals come in order: unknown flight, then unknown seat, then reserved seat, each an exact condition, and none changes anything. On success, only that seat becomes reserved, the flight's attributes are unchanged, and exactly one booking is appended with the given customer, flight and seat. The ledger keeps "every booking holds a reserved seat" and "one seat, one booking". |
| Bookings.BookingManager.ListBookings | booking.py:75-78 | The filter's selection, in ledger order. |
| Payments.PaymentRowRoundTrip | payment.py:25-49 | Every column of a payment, the amount included, reads back as written. |
| Payments.SelectedMembers | payment.py:63-66 | A payment is listed exactly when it is in the ledger and the filter is empty or names its customer. |
| Payments.TotalAppend | payment.py:58 | Appending payments adds exactly their amounts to the ledger total. |
| Payments.PaymentManager.constructor | payment.py:20-35 | One payment per row, in file order. |
| Payments.PaymentManager.SavePayments | payment.py:37-49 | One row per payment, in ledger order. |
| Payments.PaymentManager.SaveThenLoad | payment.py:25-49 | Saving then loading gives back the same ledger. |
| Payments.PaymentManager.MakePayment | payment.py:51-61 | Refused, with no change, exactly when the wallet is below the price. Otherwise the wallet drops by exactly the price, and one payment for that customer, flight and amount is appended. A non-negative wallet stays non-negative. The ledger total grows by exactly what the wallet lost. |
| Payments.PaymentManager.ListPayments | payment.py:63-66 | The filter's selection, in ledger order. |
| Customers.SameEmailIgnoresCase | customer.py:32 | Emails that differ only in letter case compare equal. |
| Customers.FirstMatch | customer.py:52-55 | The first row whose email matches in any case and whose digest is the given one. When there is none, no row qualifies. |
| Customers.LoginRowStable | customer.py:50-58 | Rows appended after the first accepted row do not change what login finds. |
| Customers.RegisteredLogsIn | customer.py:25-58 | After a successful registration, login with any casing of the email and the same password finds the new row. |
| Customers.Customer.constructor | customer.py:8-11 | A customer with the given name, email and role; its username is the email and its wallet the storefront's starting balance. |
| Customers.UserStore.constructor | customer.py:18-22 | The store holds the file's rows; a missing file is created empty. |
| Customers.UserStore.Register | customer.py:25-43 | Refused, with no change, exactly when some row has the email in any case; names are not checked. Otherwise exactly one row (name, email, digest, role) is appended after all others, and a customer with that name, email and role is returned. |
| Customers.UserStore.Login | customer.py:46-58 | Returns nothing exactly when no row accepts; otherwise a customer built from the first accepting row. |
| Admins.LoadAdminsKeys | admin.py:24-33 | Loading files admins under exactly the usernames the rows hold. |
| Admins.LoadAdminsLastWins | admin.py:29-33 | The admin under a username comes from the last row with that username, and its digest is copied from the file without being hashed again. |
| Admins.LoadAdminsKeyed | admin.py:33 | Each loaded admin is filed under its own username. |
| Admins.AdminRowRoundTrip | admin.py:30-46 | Every column of an admin, the stored digest included, reads back as written. |
| Admins.SavedAdminReloads | admin.py:24-46 | Loading what was saved gives back each saved admin under its username. |
| Admins.SavedKeysReload | admin.py:24-46 | Loading what was saved gives back exactly the saved usernames. |
| Admins.SavedAdminsReload | admin.py:24-46 | Loading what `_save_admins` wrote gives back the same dictionary, whatever order the rows were written in. |
| Admins.Authenticate | admin.py:58-67 | Login succeeds exactly when the exact username is present and the stored digest equals the given one, and it returns the stored admin. |
| Admins.AuthenticateOthers | admin.py:58-67 | Adding an admin does not change any other username's login. |
| Admins.AdminManager.constructor | admin.py:19-33 | The dictionary `_load_admins` builds from the rows, keyed by username. |
| Admins.AdminManager.SaveAdmins | admin.py:35-46 | One row per admin: as many rows as admins, each row is the row of an admin, and every admin's row is written. |
| Admins.AdminManager.SaveThenLoad | admin.py:24-46 | Saving then loading gives back the same admins under the same usernames. |
| Admins.AdminManager.AddAdmin | admin.py:48-56 | Refused, with no change, exactly when the username is taken. Otherwise one admin with the password's digest is added under it, and other entries are kept. That username and password then log in as the new admin. |
| Admins.AdminManager.Login | admin.py:58-67 | Succeeds exactly when the username is present and the password's digest equals the stored one, and returns the stored admin. |
| Reports.CountRoleBounds | report.py:17 | The customer count never exceeds the rows. It counts all of them exactly when every row has the role, and none exactly when no row has it. |
| Reports.CountRoleAppend | report.py:17 | Counting appended rows adds their own count. |
| Reports.RegisterCounted | report.py:13-20 | A registration with role "customer" adds one to the customer count; any other role adds nothing. |
| Reports.LoadAdminsAtMostRows | report.py:22-29 | The admins count (all rows) is never below the number of admins loaded from the same file. |
| Reports.SavedAdminsCount | report.py:22-29 | After a save, the admins count equals the number of admins. |
| Reports.CountForBounds | report.py:47 | A flight's count is positive exactly when some booking names it, and never exceeds the bookings. |
| Reports.SumCountsAppend | report.py:47 | A new booking adds one to the per-flight counts when its flight is among the (distinct) flights. |
| Reports.SumCountsAll | report.py:45-49 | The per-flight counts add up to the number of bookings when every booking names one of the distinct flights. |
| Reports.TallyKeys | report.py:45-49 | `bookings_per_flight` has exactly the flight numbers of the registered flights as keys. |
| Reports.TallyLastWins | report.py:46-48 | The count under a flight number is that of the last flight, in iteration order, with that number. |
| Reports.TallyStep | report.py:46-48 | One more flight, in order, files its count under its number. |
| Reports.ReportManager.constructor | report.py:6-11 | The report holds the given managers; either may be missing. |
| Reports.ReportManager.FlightsCountIsOrder | report.py:31-34 | `flights_count` is 0 without a registry, and otherwise the number of distinct ids. |
| Reports.ReportManager.BookingsAllCounted | report.py:36-49 | While every booking holds its seat, the per-flight counts add up to `bookings_count`. |
| Reports.ReportManager.BookingsPerFlight | report.py:41-49 | Empty when either manager is missing. Otherwise the tally over the flights in iteration order: each number maps to its flight's booking count, and a later flight overwrites. |
| Storefront.ChargedWithoutBooking | app.py:300-306 | As written, a customer who can pay for a flight whose seat S1 is taken or missing is charged and gets no booking. |
| Storefront.IntendedChargesOnlyWhenBooked | app.py:300-306 | In the corrected purchase, a charge comes exactly with a booking. It agrees with the written purchase whenever that one books or does not charge. |
| Storefront.Purchase | app.py:300-306 | Pay, then book S1, ignoring the booking's result. Wallet, payments and bookings change exactly as the as-written outcome says. The flight's attributes are unchanged, and its seat S1 becomes reserved exactly when a booking is made. The registry's invariant, "every booking holds a reserved seat" and "one seat, one booking" are kept. |
| Storefront.PurchaseChecked | app.py:300-306 | Corrected purchase. Wallet, payments and bookings change exactly as the intended outcome says: charged if and only if booked. The flight's attributes are unchanged, and its seat S1 becomes reserved exactly when a booking is made. The registry's invariant, "every booking holds a reserved seat" and "one seat, one booking" are kept. |
| Storefront.AdminCancel | app.py:240-241 | The first equal booking leaves the ledger; nothing else changes. |
| Storefront.CancelKeepsOthers | app.py:240 | A cancel keeps every other booking, with its multiplicity. |
| Storefront.CancelKeepsSeatsHeld | app.py:240-241 | The bookings left still hold reserved seats. |
| Storefront.CancelOrphansSeat | app.py:240-241 | With one booking per seat, the cancelled booking's seat stays reserved, yet no remaining booking holds it. |

## Left out

- File I/O, the CSV text format, `os.path.exists` and `ensure_file`. Each store is its rows, and a missing file is no rows.
- A row missing a column, or whose price or amount is not a number, makes the source raise. The loaders therefore require well-formed rows.
- Money is integer cents. Python's float arithmetic on `price` and `wallet`, and the float text written to the CSV files, are not modelled. `Csv.IntToString` stands for that text.
- `uuid.uuid4()` and `datetime.now()` are parameters of the operations that use them.
- SHA-256 is an uninterpreted function.
- Every `print`: `list_flights` (only prints), `generate_report` (only prints the counts) and the diagnostics of every method. `list_bookings` and `list_payments` are modelled as returning the records they would print.
- ticket.py: only looks records up and prints them.
- The Streamlit widgets, session state and reruns of app.py, and the default-admin bootstrap at app.py:14-15.
- Python's dynamic attribute patching:
  - the actor is `Actor(role)`;
  - a customer gets `username` (the email) and a wallet of 10000.0 (1000000 cents) when built, where the storefront attaches them after login (app.py:111-112, app.py:297-298).
- Flights.FlightManager.EditFlight: an update named `self`, `admin` or `flight_id` is not accepted. Python raises TypeError for such a keyword before the body runs; the model does not represent that exception.
- Flights.Flight.SetAttribute: an update whose value is of the wrong kind (text for the price, a number for a text attribute) is ignored; `setattr` would store it.
- Flights.Flight.SetAttribute: "seats" and the other attributes every Python object has are not editable, although `hasattr` accepts them.
- Customers.Lower: lower-casing is ASCII-only. Python's `str.lower` also folds non-ASCII letters.
- Admins.AdminManager.SaveAdmins: rows are written in an unspecified order. The dictionary's insertion order is not modelled, so the contract says only that each admin is written once.
- Storefront.AdminCancel: removes the first booking equal in every field. Python compares `Booking` objects by identity. These differ only if two bookings share their generated id.
- Seats are values in a flight's seat map. Flipping a seat reassigns that map entry. Python's `Seat` objects are never shared between flights, so no aliasing is lost.
- `if not self.flight_manager` in report.py is modelled as a null test. A manager object is always truthy.
- Admin login compares the exact username, as admin.py:59 does. Only customer login (customer.py) ignores letter case.

## Findings

| source | as written | input that shows it | evidently intended | confidence | as-written member | corrected member |
|---|---|---|---|---|---|---|
| app.py:300-306 | The customer is charged first. `create_booking` for seat "S1" follows, its result is ignored, and "Reservation confirmed" is shown. | Two customers who can afford flight F each buy it. The second is charged the full price, `create_booking` refuses because S1 is reserved, and no booking is made. | A charge only when the booking is made: app.py:307 tells every charged customer "Reservation confirmed.", which holds only if every charge comes with a booking. | high, not executed | Storefront.Purchase (exhibited by Storefront.ChargedWithoutBooking) | Storefront.PurchaseChecked (proved by Storefront.IntendedChargesOnlyWhenBooked) |
