/**
 * The two tables the backend touches, the `users` table and the `usage_logs`
 * table, held as rows in insertion order. A `fetch_optional` lookup returns the
 * first matching row; an `UPDATE ... WHERE id = $1` changes every row with that id.
 */
module Database {

  import opened Basics
  import opened Calendar
  import opened Models

  /** No two rows share an id (the primary key of `users`). */
  predicate UniqueIds(users: seq<User>)
  {
    forall i, j :: 0 <= i < j < |users| ==> users[i].id != users[j].id
  }

  /** No two rows share an email. */
  predicate UniqueEmails(users: seq<User>)
  {
    forall i, j :: 0 <= i < j < |users| ==> users[i].email != users[j].email
  }

  /** `SELECT * FROM users WHERE id = $1` with `fetch_optional`: the first row with that id. */
  function FindById(users: seq<User>, id: Uuid): (r: Option<User>)
    ensures r.Some? ==> r.value in users && r.value.id == id
    ensures r.None? <==> forall u :: u in users ==> u.id != id
  {
    if users == [] then None
    else if users[0].id == id then Some(users[0])
    else FindById(users[1..], id)
  }

  /** `SELECT ... FROM users WHERE email = $1` with `fetch_optional`: the first row with that email. */
  function FindByEmail(users: seq<User>, email: string): (r: Option<User>)
    ensures r.Some? ==> r.value in users && r.value.email == email
    ensures r.None? <==> forall u :: u in users ==> u.email != email
  {
    if users == [] then None
    else if users[0].email == email then Some(users[0])
    else FindByEmail(users[1..], email)
  }

  /** With unique ids, the row found by id is the only row with that id. */
  lemma {:induction false} FindByIdUnique(users: seq<User>, i: nat)
    requires UniqueIds(users) && i < |users|
    ensures FindById(users, users[i].id) == Some(users[i])
  {
    if i > 0 {
      assert users[0].id != users[i].id;
      assert UniqueIds(users[1..]) by {
        forall a, b | 0 <= a < b < |users[1..]|
          ensures users[1..][a].id != users[1..][b].id
        {
          assert users[1..][a] == users[a + 1] && users[1..][b] == users[b + 1];
        }
      }
      FindByIdUnique(users[1..], i - 1);
    }
  }

  /** `UPDATE users SET ... WHERE id = $1`: `change` applied to every row with that id, in place. */
  function UpdateWhere(users: seq<User>, id: Uuid, change: User -> User): (r: seq<User>)
    ensures |r| == |users|
    ensures forall i :: 0 <= i < |users| ==> r[i] == if users[i].id == id then change(users[i]) else users[i]
  {
    seq(|users|, i requires 0 <= i < |users| => if users[i].id == id then change(users[i]) else users[i])
  }

  /** An update that keeps each row's id keeps the ids unique. */
  lemma UpdateWhereKeepsIds(users: seq<User>, id: Uuid, change: User -> User)
    requires UniqueIds(users)
    requires forall u :: change(u).id == u.id
    ensures UniqueIds(UpdateWhere(users, id, change))
  {
    var r := UpdateWhere(users, id, change);
    forall i, j | 0 <= i < j < |r|
      ensures r[i].id != r[j].id
    {
      assert r[i].id == users[i].id && r[j].id == users[j].id;
    }
  }

  /**
   * The usage counter of a row plus one. The `else` branch only keeps the function
   * total for the `I32` column type: `IncrementUsage` applies it to no row at the
   * maximum, since there the statement fails instead.
   */
  function Bump(u: User): (v: User)
    ensures v.usageCount == if u.usageCount < I32Max then u.usageCount + 1 else u.usageCount
    ensures v == u.(usageCount := v.usageCount)
  {
    if u.usageCount < I32Max then u.(usageCount := u.usageCount + 1) else u
  }

  /**
   * `UPDATE users SET usage_count = usage_count + 1 WHERE id = $1`: the sum is
   * computed in `integer` (32-bit), so a row already at the maximum makes the
   * whole statement fail and no row changes.
   */
  function IncrementUsage(users: seq<User>, id: Uuid): (r: Option<seq<User>>)
    ensures r.None? <==> exists u :: u in users && u.id == id && u.usageCount == I32Max
    ensures r.Some? ==> |r.value| == |users|
    ensures r.Some? ==> forall i :: 0 <= i < |users| ==>
      r.value[i] == if users[i].id == id then users[i].(usageCount := users[i].usageCount + 1) else users[i]
  {
    if exists u :: u in users && u.id == id && u.usageCount == I32Max then None
    else
      var r := UpdateWhere(users, id, Bump);
      assert forall i :: 0 <= i < |users| && users[i].id == id ==> users[i].usageCount < I32Max by {
        forall i | 0 <= i < |users| && users[i].id == id
          ensures users[i].usageCount < I32Max
        {
          assert users[i] in users;
        }
      }
      Some(r)
  }

  /** The database: both tables, mutated in place by the handlers. */
  class Store {
    var users: seq<User>
    var usageLogs: seq<UsageLog>

    /** The primary key holds. */
    ghost predicate Valid()
      reads this
    {
      UniqueIds(users)
    }

    constructor (users: seq<User>, usageLogs: seq<UsageLog>)
      requires UniqueIds(users)
      ensures Valid()
      ensures this.users == users && this.usageLogs == usageLogs
    {
      this.users := users;
      this.usageLogs := usageLogs;
    }

    /** `UPDATE users SET usage_count = 0, usage_reset_date = $1 WHERE id = $2`. */
    method ResetUsage(id: Uuid, nextReset: DateTime)
      requires Valid()
      modifies this
      ensures Valid()
      ensures users == UpdateWhere(old(users), id, (u: User) => u.(usageCount := 0, usageResetDate := nextReset))
      ensures usageLogs == old(usageLogs)
    {
      UpdateWhereKeepsIds(users, id, (u: User) => u.(usageCount := 0, usageResetDate := nextReset));
      users := UpdateWhere(users, id, (u: User) => u.(usageCount := 0, usageResetDate := nextReset));
    }

    /** `UPDATE users SET last_login_at = NOW() WHERE id = $1`. */
    method TouchLastLogin(id: Uuid, now: DateTime)
      requires Valid()
      modifies this
      ensures Valid()
      ensures users == UpdateWhere(old(users), id, (u: User) => u.(lastLoginAt := Some(now)))
      ensures usageLogs == old(usageLogs)
    {
      UpdateWhereKeepsIds(users, id, (u: User) => u.(lastLoginAt := Some(now)));
      users := UpdateWhere(users, id, (u: User) => u.(lastLoginAt := Some(now)));
    }

    /** The increment statement: it either changes every row with the id or fails and changes nothing. */
    method Increment(id: Uuid) returns (ok: bool)
      requires Valid()
      modifies this
      ensures Valid()
      ensures ok <==> IncrementUsage(old(users), id).Some?
      ensures users == if ok then IncrementUsage(old(users), id).value else old(users)
      ensures usageLogs == old(usageLogs)
    {
      var r := IncrementUsage(users, id);
      if r.Some? {
        UpdateWhereKeepsIds(users, id, Bump);
        users := r.value;
        ok := true;
      } else {
        ok := false;
      }
    }

    /** `INSERT INTO usage_logs (user_id, action) VALUES ($1, $2)`. */
    method AppendLog(entry: UsageLog)
      modifies this
      ensures users == old(users)
      ensures usageLogs == old(usageLogs) + [entry]
    {
      usageLogs := usageLogs + [entry];
    }

    /**
     * `INSERT INTO users ... RETURNING *`: the primary key refuses a row whose id
     * is taken; otherwise the row is appended and returned.
     */
    method InsertUser(row: User) returns (inserted: bool)
      requires Valid()
      modifies this
      ensures Valid()
      ensures inserted <==> FindById(old(users), row.id).None?
      ensures users == if inserted then old(users) + [row] else old(users)
      ensures usageLogs == old(usageLogs)
    {
      if FindById(users, row.id).None? {
        users := users + [row];
        inserted := true;
      } else {
        inserted := false;
      }
    }
  }
}
