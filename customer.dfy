/**
 * The customer accounts of customer.py: rows of users.csv holding a name, an
 * email, the SHA-256 digest of the password and a role. Emails are compared
 * case-insensitively; registration appends a row, login finds the first
 * matching row.
 */
module Customers {
  import opened Wrappers

  /** The role a registration gets when none is given. */
  const CustomerRole: string := "customer"
  /** The balance the storefront gives a customer object that has none: 10000.0, in cents. */
  const DefaultWallet: int := 1000000

  /** One row of users.csv. */
  datatype UserRow = UserRow(name: string, email: string, passwordHash: string, role: string)

  // ---------------------------------------------------------------------------
  // Email comparison

  /** `str.lower` on one character, for the ASCII letters. */
  function LowerChar(c: char): char
  {
    if 'A' <= c <= 'Z' then (c as int + 32) as char else c
  }

  /** `str.lower`, for ASCII text. */
  function Lower(s: string): (r: string)
    ensures |r| == |s|
    ensures forall i :: 0 <= i < |s| ==> r[i] == LowerChar(s[i])
  {
    seq(|s|, i requires 0 <= i < |s| => LowerChar(s[i]))
  }

  /** `a.lower() == b.lower()`. */
  predicate SameEmail(a: string, b: string)
  {
    Lower(a) == Lower(b)
  }

  /** Emails differing only in the case of letters are the same email. */
  lemma {:induction false} SameEmailIgnoresCase(a: string, b: string)
    requires |a| == |b|
    requires forall i :: 0 <= i < |a| ==> a[i] == b[i] || LowerChar(a[i]) == b[i] || a[i] == LowerChar(b[i])
    ensures SameEmail(a, b)
  {
    forall i | 0 <= i < |a|
      ensures Lower(a)[i] == Lower(b)[i]
    {
      assert LowerChar(LowerChar(a[i])) == LowerChar(a[i]);
      assert LowerChar(LowerChar(b[i])) == LowerChar(b[i]);
    }
  }

  /** Some row already holds the email, in any case. */
  predicate EmailTaken(rows: seq<UserRow>, email: string)
  {
    exists i :: 0 <= i < |rows| && SameEmail(rows[i].email, email)
  }

  // ---------------------------------------------------------------------------
  // Login as a search

  /** The row login accepts: same email in any case, and the stored digest equals the given one. */
  predicate Accepts(row: UserRow, email: string, digest: string)
  {
    SameEmail(row.email, email) && row.passwordHash == digest
  }

  /** The position of the first row login accepts, if any. */
  function FirstMatch(rows: seq<UserRow>, email: string, digest: string): (r: Option<nat>)
    ensures r.Some? ==> r.value < |rows| && Accepts(rows[r.value], email, digest)
    ensures r.Some? ==> forall j :: 0 <= j < r.value ==> !Accepts(rows[j], email, digest)
    ensures r.None? <==> forall j :: 0 <= j < |rows| ==> !Accepts(rows[j], email, digest)
  {
    if rows == [] then None
    else if Accepts(rows[0], email, digest) then Some(0)
    else
      match FirstMatch(rows[1..], email, digest)
      case None => None
      case Some(k) => Some(k + 1)
  }

  /** `Customer.login` over the rows: the first accepted row, or nothing. */
  function LoginRow(rows: seq<UserRow>, email: string, digest: string): Option<UserRow>
  {
    match FirstMatch(rows, email, digest)
    case None => None
    case Some(i) => Some(rows[i])
  }

  /** Rows appended after an accepted row do not change what login finds. */
  lemma {:induction false} LoginRowStable(rows: seq<UserRow>, more: seq<UserRow>, email: string, digest: string)
    requires LoginRow(rows, email, digest).Some?
    ensures LoginRow(rows + more, email, digest) == LoginRow(rows, email, digest)
  {
    var i := FirstMatch(rows, email, digest).value;
    var all := rows + more;
    forall j | 0 <= j < i
      ensures !Accepts(all[j], email, digest)
    {
      assert all[j] == rows[j];
    }
    assert all[i] == rows[i];
  }

  /**
   * A freshly registered account logs in with its password and any casing of
   * its email: no earlier row has that email, so the new row is the first match.
   */
  lemma RegisteredLogsIn(rows: seq<UserRow>, row: UserRow, email: string, digest: string)
    requires !EmailTaken(rows, row.email)
    requires SameEmail(email, row.email) && digest == row.passwordHash
    ensures LoginRow(rows + [row], email, digest) == Some(row)
  {
    var all := rows + [row];
    forall j | 0 <= j < |rows|
      ensures !Accepts(all[j], email, digest)
    {
      assert all[j] == rows[j];
      assert !SameEmail(rows[j].email, row.email);
    }
    assert Accepts(all[|rows|], email, digest);
  }

  // ---------------------------------------------------------------------------
  // The objects

  /**
   * A signed-in user: `Customer(name, email, role)`. The storefront attaches a
   * `username` (the email) and a `wallet` to it; the wallet is debited in place.
   */
  class Customer {
    const name: string
    const email: string
    const role: string
    const username: string
    var wallet: int

    constructor (name: string, email: string, role: string)
      ensures this.name == name && this.email == email && this.role == role
      ensures username == email && wallet == DefaultWallet
    {
      this.name := name;
      this.email := email;
      this.role := role;
      username := email;
      wallet := DefaultWallet;
    }
  }

  /** users.csv: its rows in file order, and the password digest function (SHA-256 in hex). */
  class UserStore {
    var rows: seq<UserRow>
    const hash: string -> string

    /** A missing file is created with only its header: no rows. */
    constructor (rows: seq<UserRow>, hash: string -> string)
      ensures this.rows == rows && this.hash == hash
    {
      this.rows := rows;
      this.hash := hash;
    }

    /**
     * `Customer.register`: refused when some row has the email in any case
     * (names may repeat); otherwise one row is appended after all others.
     */
    method Register(name: string, email: string, password: string, role: string := CustomerRole)
      returns (c: Customer?)
      modifies this
      ensures c == null <==> EmailTaken(old(rows), email)
      ensures c == null ==> rows == old(rows)
      ensures c != null ==> rows == old(rows) + [UserRow(name, email, hash(password), role)]
      ensures c != null ==> fresh(c) && c.name == name && c.email == email && c.role == role
    {
      var i := 0;
      while i < |rows|
        invariant 0 <= i <= |rows|
        invariant forall k :: 0 <= k < i ==> !SameEmail(rows[k].email, email)
      {
        if Lower(rows[i].email) == Lower(email) {
          return null;
        }
        i := i + 1;
      }
      rows := rows + [UserRow(name, email, hash(password), role)];
      c := new Customer(name, email, role);
    }

    /** `Customer.login`: a customer built from the first row with the email, in any case, and the password's digest. */
    method Login(email: string, password: string) returns (c: Customer?)
      ensures c == null <==> LoginRow(rows, email, hash(password)).None?
      ensures c != null ==> fresh(c)
      ensures c != null ==> var row := LoginRow(rows, email, hash(password)).value;
        c.name == row.name && c.email == row.email && c.role == row.role
    {
      var digest := hash(password);
      var i := 0;
      while i < |rows|
        invariant 0 <= i <= |rows|
        invariant forall k :: 0 <= k < i ==> !Accepts(rows[k], email, digest)
      {
        if Lower(rows[i].email) == Lower(email) && rows[i].passwordHash == digest {
          assert FirstMatch(rows, email, digest) == Some(i);
          c := new Customer(rows[i].name, rows[i].email, rows[i].role);
          return;
        }
        i := i + 1;
      }
      return null;
    }
  }
}
