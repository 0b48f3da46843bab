/**
 * The administrator accounts of admin.py: admins keyed by their exact username,
 * each holding the SHA-256 digest of its password. admins.csv stores the
 * digests, which loading keeps as they are.
 */
module Admins {
  import opened Wrappers
  import Csv
  import Seqs

  /** An administrator. `adminId` is the generated uuid; `passwordHash` is a digest, never the password. */
  datatype Admin = Admin(adminId: string, username: string, name: string, passwordHash: string)

  // ---------------------------------------------------------------------------
  // admins.csv records

  /** A row _load_admins can read: every column present. */
  predicate IsAdminRow(row: Csv.Row)
  {
    "admin_id" in row && "username" in row && "name" in row && "password_hash" in row
  }

  /** The admin _load_admins rebuilds from a row: the stored id, and the stored digest as it is. */
  function AdminFromRow(row: Csv.Row): Admin
    requires IsAdminRow(row)
  {
    Admin(row["admin_id"], row["username"], row["name"], row["password_hash"])
  }

  /** The dictionary _load_admins builds: each row filed under its username, a later row replacing an earlier one. */
  function LoadAdmins(rows: seq<Csv.Row>): map<string, Admin>
    requires forall i :: 0 <= i < |rows| ==> IsAdminRow(rows[i])
  {
    if rows == [] then map[]
    else
      var a := AdminFromRow(rows[|rows| - 1]);
      LoadAdmins(rows[..|rows| - 1])[a.username := a]
  }

  /** Row `i` exists, names every column, and holds username `u`. */
  predicate UsernameAt(rows: seq<Csv.Row>, i: int, u: string)
  {
    0 <= i < |rows| && IsAdminRow(rows[i]) && rows[i]["username"] == u
  }

  /** Loading files an admin under exactly the usernames the rows hold. */
  lemma {:induction false} LoadAdminsKeys(rows: seq<Csv.Row>)
    requires forall i :: 0 <= i < |rows| ==> IsAdminRow(rows[i])
    ensures forall u :: u in LoadAdmins(rows) <==> exists i :: UsernameAt(rows, i, u)
  {
    if rows != [] {
      var last := |rows| - 1;
      var init := rows[..last];
      LoadAdminsKeys(init);
      assert LoadAdmins(rows) == LoadAdmins(init)[rows[last]["username"] := AdminFromRow(rows[last])];
      forall u | u in LoadAdmins(rows)
        ensures exists i :: UsernameAt(rows, i, u)
      {
        if u == rows[last]["username"] {
          assert UsernameAt(rows, last, u);
        } else {
          assert u in LoadAdmins(init);
          var i :| UsernameAt(init, i, u);
          assert init[i] == rows[i];
          assert UsernameAt(rows, i, u);
        }
      }
      forall u | exists i :: UsernameAt(rows, i, u)
        ensures u in LoadAdmins(rows)
      {
        var i :| UsernameAt(rows, i, u);
        if i < last {
          assert UsernameAt(init, i, u);
        }
      }
    }
  }

  /**
   * The admin filed under a username is the one of the last row with that
   * username, its digest copied from the file without hashing it again.
   */
  lemma {:induction false} LoadAdminsLastWins(rows: seq<Csv.Row>, i: nat, u: string)
    requires forall k :: 0 <= k < |rows| ==> IsAdminRow(rows[k])
    requires UsernameAt(rows, i, u)
    requires forall j :: i < j ==> !UsernameAt(rows, j, u)
    ensures u in LoadAdmins(rows)
    ensures LoadAdmins(rows)[u] == AdminFromRow(rows[i])
    ensures LoadAdmins(rows)[u].passwordHash == rows[i]["password_hash"]
  {
    var last := |rows| - 1;
    if i < last {
      var init := rows[..last];
      assert UsernameAt(init, i, u);
      forall j | i < j
        ensures !UsernameAt(init, j, u)
      {
        if j < last {
          assert init[j] == rows[j];
          assert !UsernameAt(rows, j, u);
        }
      }
      LoadAdminsLastWins(init, i, u);
      assert !UsernameAt(rows, last, u);
    }
  }

  /** Every admin is filed under its own username, as `_load_admins` and `add_admin` file them. */
  predicate KeyedByUsername(admins: map<string, Admin>)
  {
    forall u :: u in admins ==> admins[u].username == u
  }

  /** Loading files each admin under its own username. */
  lemma {:induction false} LoadAdminsKeyed(rows: seq<Csv.Row>)
    requires forall i :: 0 <= i < |rows| ==> IsAdminRow(rows[i])
    ensures KeyedByUsername(LoadAdmins(rows))
  {
    if rows != [] {
      LoadAdminsKeyed(rows[..|rows| - 1]);
    }
  }

  /** The row _save_admins writes for an admin. */
  function AdminToRow(a: Admin): Csv.Row
  {
    map["admin_id" := a.adminId, "username" := a.username, "name" := a.name, "password_hash" := a.passwordHash]
  }

  /** Every column of an admin reads back as written, the digest included. */
  lemma AdminRowRoundTrip(a: Admin)
    ensures IsAdminRow(AdminToRow(a)) && AdminFromRow(AdminToRow(a)) == a
  {
  }

  /** `rows` lists every admin of `admins` exactly once, the i-th being the one filed under `names[i]`. */
  ghost predicate ListsAll(admins: map<string, Admin>, rows: seq<Csv.Row>, names: seq<string>)
  {
    && |names| == |rows|
    && Seqs.Distinct(names)
    && (forall u :: u in names <==> u in admins)
    && forall k :: 0 <= k < |rows| ==> names[k] in admins && rows[k] == AdminToRow(admins[names[k]])
  }

  /** Row k of what _save_admins wrote holds username `names[k]`. */
  lemma SavedRowsNamed(admins: map<string, Admin>, rows: seq<Csv.Row>, names: seq<string>)
    requires KeyedByUsername(admins)
    requires ListsAll(admins, rows, names)
    ensures forall k :: 0 <= k < |rows| ==> UsernameAt(rows, k, names[k])
    ensures forall k :: 0 <= k < |rows| ==> IsAdminRow(rows[k])
  {
    forall k | 0 <= k < |rows|
      ensures UsernameAt(rows, k, names[k])
    {
      assert rows[k] == AdminToRow(admins[names[k]]);
    }
  }

  /** No row after the one _save_admins wrote for `names[k]` holds that username again. */
  lemma SavedUsernameOnce(admins: map<string, Admin>, rows: seq<Csv.Row>, names: seq<string>, k: nat)
    requires KeyedByUsername(admins)
    requires ListsAll(admins, rows, names)
    requires k < |names|
    ensures forall j :: k < j ==> !UsernameAt(rows, j, names[k])
  {
    SavedRowsNamed(admins, rows, names);
    forall j | k < j
      ensures !UsernameAt(rows, j, names[k])
    {
      if j < |rows| {
        assert UsernameAt(rows, j, names[j]);
      }
    }
  }

  /** The admin loading files under a saved username is the one saved under it. */
  lemma SavedAdminReloads(admins: map<string, Admin>, rows: seq<Csv.Row>, names: seq<string>, k: nat)
    requires KeyedByUsername(admins)
    requires ListsAll(admins, rows, names)
    requires k < |names|
    ensures forall i :: 0 <= i < |rows| ==> IsAdminRow(rows[i])
    ensures names[k] in LoadAdmins(rows) && LoadAdmins(rows)[names[k]] == admins[names[k]]
  {
    SavedRowsNamed(admins, rows, names);
    SavedUsernameOnce(admins, rows, names, k);
    LoadAdminsLastWins(rows, k, names[k]);
    AdminRowRoundTrip(admins[names[k]]);
  }

  /** Loading what _save_admins wrote files admins under exactly the saved usernames. */
  lemma SavedKeysReload(admins: map<string, Admin>, rows: seq<Csv.Row>, names: seq<string>)
    requires KeyedByUsername(admins)
    requires ListsAll(admins, rows, names)
    ensures forall i :: 0 <= i < |rows| ==> IsAdminRow(rows[i])
    ensures LoadAdmins(rows).Keys == admins.Keys
  {
    SavedRowsNamed(admins, rows, names);
    LoadAdminsKeys(rows);
    forall u | u in LoadAdmins(rows)
      ensures u in admins
    {
      var i :| UsernameAt(rows, i, u);
      assert UsernameAt(rows, i, names[i]);
    }
    forall u | u in admins
      ensures u in LoadAdmins(rows)
    {
      var k :| 0 <= k < |names| && names[k] == u;
      assert UsernameAt(rows, k, u);
    }
  }

  /**
   * Loading what _save_admins wrote gives back the same dictionary: every admin
   * under its username, with its id, name and stored digest, in whatever order
   * the rows were written.
   */
  lemma {:induction false} SavedAdminsReload(admins: map<string, Admin>, rows: seq<Csv.Row>, names: seq<string>)
    requires KeyedByUsername(admins)
    requires ListsAll(admins, rows, names)
    ensures forall k :: 0 <= k < |rows| ==> IsAdminRow(rows[k])
    ensures LoadAdmins(rows) == admins
  {
    SavedKeysReload(admins, rows, names);
    var loaded := LoadAdmins(rows);
    forall u | u in admins
      ensures loaded[u] == admins[u]
    {
      var k :| 0 <= k < |names| && names[k] == u;
      SavedAdminReloads(admins, rows, names, k);
    }
  }

  // ---------------------------------------------------------------------------
  // Login as a lookup

  /** `login` over a dictionary of admins and the digest of the given password. */
  function Authenticate(admins: map<string, Admin>, username: string, digest: string): (r: Option<Admin>)
    ensures r.Some? <==> username in admins && admins[username].passwordHash == digest
    ensures r.Some? ==> r.value == admins[username]
  {
    if username !in admins then None
    else if admins[username].passwordHash != digest then None
    else Some(admins[username])
  }

  /** Adding one admin leaves the logins of every other username as they were. */
  lemma AuthenticateOthers(admins: map<string, Admin>, a: Admin, username: string, digest: string)
    requires username != a.username
    ensures Authenticate(admins[a.username := a], username, digest) == Authenticate(admins, username, digest)
  {
  }

  // ---------------------------------------------------------------------------
  // The store

  /** `AdminManager`: admins by username, and the password digest function (SHA-256 in hex). */
  class AdminManager {
    var admins: map<string, Admin>
    const hash: string -> string

    /** The class invariant: every admin filed under its own username. */
    predicate Valid()
      reads this
    {
      KeyedByUsername(admins)
    }

    /** `AdminManager.__init__` with `_load_admins`. A missing file is no rows. */
    constructor (rows: seq<Csv.Row>, hash: string -> string)
      requires forall i :: 0 <= i < |rows| ==> IsAdminRow(rows[i])
      ensures admins == LoadAdmins(rows) && this.hash == hash
      ensures Valid()
    {
      admins := map[];
      this.hash := hash;
      new;
      var i := 0;
      while i < |rows|
        invariant 0 <= i <= |rows|
        invariant admins == LoadAdmins(rows[..i])
      {
        assert rows[..i + 1][..i] == rows[..i];
        var admin := AdminFromRow(rows[i]);
        admins := admins[admin.username := admin];
        i := i + 1;
      }
      assert rows[..|rows|] == rows;
      LoadAdminsKeyed(rows);
    }

    /** `_save_admins`: one row per admin, each admin written once. */
    method SaveAdmins() returns (rows: seq<Csv.Row>, ghost names: seq<string>)
      ensures ListsAll(admins, rows, names)
      ensures |rows| == |admins|
      ensures forall k :: 0 <= k < |rows| ==> exists u :: u in admins && rows[k] == AdminToRow(admins[u])
      ensures forall u :: u in admins ==> AdminToRow(admins[u]) in rows
    {
      rows := [];
      names := [];
      var left := admins.Keys;
      while left != {}
        invariant left <= admins.Keys
        invariant |names| == |rows| && Seqs.Distinct(names)
        invariant forall u :: u in names <==> u in admins && u !in left
        invariant forall k :: 0 <= k < |rows| ==> names[k] in admins && rows[k] == AdminToRow(admins[names[k]])
        decreases left
      {
        var u :| u in left;
        rows := rows + [AdminToRow(admins[u])];
        names := names + [u];
        left := left - {u};
      }
      Seqs.DistinctCardinality(names);
      assert (set u | u in names) == admins.Keys;
      forall u | u in admins
        ensures AdminToRow(admins[u]) in rows
      {
        var k :| 0 <= k < |names| && names[k] == u;
        assert rows[k] == AdminToRow(admins[u]);
      }
    }

    /** Saving and loading again gives back the same admins under the same usernames. */
    method SaveThenLoad() returns (reloaded: AdminManager)
      requires Valid()
      ensures reloaded.admins == admins
    {
      var rows, names := SaveAdmins();
      SavedAdminsReload(admins, rows, names);
      reloaded := new AdminManager(rows, hash);
    }

    /**
     * `add_admin`: refused, changing nothing, when the username is taken;
     * otherwise a new admin holding the password's digest is filed under it,
     * and that username and password then log in as it.
     */
    method AddAdmin(username: string, password: string, name: string, adminId: string) returns (a: Option<Admin>)
      requires Valid()
      modifies this
      ensures Valid()
      ensures a.None? <==> username in old(admins)
      ensures a.None? ==> admins == old(admins)
      ensures a.Some? ==> a.value == Admin(adminId, username, name, hash(password))
      ensures a.Some? ==> admins == old(admins)[username := a.value]
      ensures a.Some? ==> Login(username, password) == a
    {
      if username in admins {
        return None;
      }
      var admin := Admin(adminId, username, name, hash(password));
      admins := admins[username := admin];
      return Some(admin);
    }

    /** `login`: the admin filed under exactly this username, when the password's digest is the stored one. */
    function Login(username: string, password: string): (a: Option<Admin>)
      reads this
      ensures a.Some? <==> username in admins && admins[username].passwordHash == hash(password)
      ensures a.Some? ==> a.value == admins[username]
    {
      Authenticate(admins, username, hash(password))
    }
  }
}
