/**
 * The payment ledger of payment.py: a payment debits the price of a flight from
 * the customer's wallet and is appended to a list written whole to payments.csv.
 * Money is in cents.
 */
module Payments {
  import opened Wrappers
  import Csv
  import Flights
  import Customers

  /** A payment. `paymentId` and `date` are the generated uuid and timestamp. */
  datatype Payment = Payment(paymentId: string, customerUsername: string, flightId: string, amount: int, date: string)

  // ---------------------------------------------------------------------------
  // payments.csv records

  /** The row save_payments writes for a payment; the amount is written as decimal text. */
  function PaymentToRow(p: Payment): Csv.Row
  {
    map[
      "payment_id" := p.paymentId,
      "customer_username" := p.customerUsername,
      "flight_id" := p.flightId,
      "amount" := Csv.IntToString(p.amount),
      "date" := p.date]
  }

  /** A row load_payments can read: every column present and a well-formed amount. */
  predicate IsPaymentRow(row: Csv.Row)
  {
    && "payment_id" in row && "customer_username" in row && "flight_id" in row && "amount" in row && "date" in row
    && Csv.IsIntText(row["amount"])
  }

  /** The payment load_payments rebuilds from a row, with the stored id and date. */
  function PaymentFromRow(row: Csv.Row): Payment
    requires IsPaymentRow(row)
  {
    Payment(row["payment_id"], row["customer_username"], row["flight_id"], Csv.ParseInt(row["amount"]), row["date"])
  }

  /** Every column of a payment, the amount included, reads back as written. */
  lemma PaymentRowRoundTrip(p: Payment)
    ensures IsPaymentRow(PaymentToRow(p)) && PaymentFromRow(PaymentToRow(p)) == p
  {
    Csv.IntRoundTrip(p.amount);
  }

  // ---------------------------------------------------------------------------
  // The list_payments filter

  /** The filter of list_payments: no name selects everything, a name selects that customer's payments. */
  predicate Selects(customerUsername: Option<string>, p: Payment)
  {
    customerUsername.None? || p.customerUsername == customerUsername.value
  }

  /** The payments the filter selects, in ledger order. */
  function Selected(ps: seq<Payment>, customerUsername: Option<string>): seq<Payment>
  {
    if ps == [] then []
    else
      var init := Selected(ps[..|ps| - 1], customerUsername);
      if Selects(customerUsername, ps[|ps| - 1]) then init + [ps[|ps| - 1]] else init
  }

  /** A payment is listed exactly when it is in the ledger and the filter selects it. */
  lemma {:induction false} SelectedMembers(ps: seq<Payment>, customerUsername: Option<string>)
    ensures forall p :: p in Selected(ps, customerUsername) <==> p in ps && Selects(customerUsername, p)
  {
    if ps != [] {
      SelectedMembers(ps[..|ps| - 1], customerUsername);
      assert ps == ps[..|ps| - 1] + [ps[|ps| - 1]];
    }
  }

  /** The sum of the amounts in a ledger. */
  function Total(ps: seq<Payment>): int
  {
    if ps == [] then 0 else Total(ps[..|ps| - 1]) + ps[|ps| - 1].amount
  }

  /** Appending a payment adds exactly its amount to the ledger's total. */
  lemma {:induction false} TotalAppend(ps: seq<Payment>, qs: seq<Payment>)
    ensures Total(ps + qs) == Total(ps) + Total(qs)
  {
    if qs != [] {
      var all := ps + qs;
      assert all[..|all| - 1] == ps + qs[..|qs| - 1];
      TotalAppend(ps, qs[..|qs| - 1]);
    } else {
      assert ps + qs == ps;
    }
  }

  // ---------------------------------------------------------------------------
  // The ledger

  /** `PaymentManager`: the payments in the order they were made or read. */
  class PaymentManager {
    var payments: seq<Payment>

    /** `PaymentManager.__init__` with `load_payments`: one payment per row, in file order. A missing file is no rows. */
    constructor (rows: seq<Csv.Row>)
      requires forall i :: 0 <= i < |rows| ==> IsPaymentRow(rows[i])
      ensures |payments| == |rows|
      ensures forall i :: 0 <= i < |rows| ==> payments[i] == PaymentFromRow(rows[i])
    {
      payments := [];
      new;
      var i := 0;
      while i < |rows|
        invariant 0 <= i <= |rows|
        invariant |payments| == i
        invariant forall k :: 0 <= k < i ==> payments[k] == PaymentFromRow(rows[k])
      {
        payments := payments + [PaymentFromRow(rows[i])];
        i := i + 1;
      }
    }

    /** `save_payments`: one row per payment, in ledger order. */
    method SavePayments() returns (rows: seq<Csv.Row>)
      ensures |rows| == |payments|
      ensures forall i :: 0 <= i < |payments| ==> rows[i] == PaymentToRow(payments[i])
    {
      rows := [];
      var i := 0;
      while i < |payments|
        invariant 0 <= i <= |payments|
        invariant |rows| == i
        invariant forall k :: 0 <= k < i ==> rows[k] == PaymentToRow(payments[k])
      {
        rows := rows + [PaymentToRow(payments[i])];
        i := i + 1;
      }
    }

    /** Saving and loading again gives back every payment, with its id, amount and date, in order. */
    method SaveThenLoad() returns (reloaded: PaymentManager)
      ensures reloaded.payments == payments
    {
      var rows := SavePayments();
      forall i | 0 <= i < |rows|
        ensures IsPaymentRow(rows[i]) && PaymentFromRow(rows[i]) == payments[i]
      {
        PaymentRowRoundTrip(payments[i]);
      }
      reloaded := new PaymentManager(rows);
    }

    /**
     * `make_payment`: refused, changing nothing, when the wallet holds less than
     * the price; otherwise the wallet loses exactly the price and one payment of
     * that amount is appended. A wallet that was not negative stays so.
     */
    method MakePayment(customer: Customers.Customer, flight: Flights.Flight, paymentId: string, date: string)
      returns (p: Option<Payment>)
      modifies this, customer
      ensures p.None? <==> old(customer.wallet) < flight.price
      ensures p.None? ==> customer.wallet == old(customer.wallet) && payments == old(payments)
      ensures p.Some? ==> customer.wallet == old(customer.wallet) - flight.price
      ensures p.Some? ==> p.value == Payment(paymentId, customer.username, flight.flightId, flight.price, date)
      ensures p.Some? ==> payments == old(payments) + [p.value]
      ensures old(customer.wallet) >= 0 ==> customer.wallet >= 0
      ensures Total(payments) == Total(old(payments)) + (old(customer.wallet) - customer.wallet)
    {
      if customer.wallet < flight.price {
        return None;
      }
      customer.wallet := customer.wallet - flight.price;
      var payment := Payment(paymentId, customer.username, flight.flightId, flight.price, date);
      TotalAppend(payments, [payment]);
      payments := payments + [payment];
      return Some(payment);
    }

    /** `list_payments`: the selected payments, in ledger order. */
    method ListPayments(customerUsername: Option<string>) returns (listed: seq<Payment>)
      ensures listed == Selected(payments, customerUsername)
    {
      listed := [];
      var i := 0;
      while i < |payments|
        invariant 0 <= i <= |payments|
        invariant listed == Selected(payments[..i], customerUsername)
      {
        assert payments[..i + 1][..i] == payments[..i];
        if Selects(customerUsername, payments[i]) {
          listed := listed + [payments[i]];
        }
        i := i + 1;
      }
      assert payments[..|payments|] == payments;
    }
  }
}
