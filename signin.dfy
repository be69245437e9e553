/**
 * The sign-in endpoint's decision: a status chain (400 missing input, 401
 * unknown user, 403 disabled account, 401 wrong password) over a lookup by
 * username or email, and the last-login update of the matched row.
 */
module Signin {
  import opened Wrappers
  import opened Users

  const MSG_REQUIRED := "Username and password are required."
  const MSG_INVALID := "Invalid credentials."
  const MSG_DISABLED := "Account is disabled. Contact your administrator."

  const OK: nat := 200

  /** `WHERE username = $1 OR email = $1` */
  predicate LoginMatches(row: UserRow, login: string) {
    row.username == login || row.email == login
  }

  /**
   * The answers `... WHERE username = $1 OR email = $1 LIMIT 1` may give.
   * Without `ORDER BY` the database may return any matching row, so the
   * lookup is a relation: `found` names some matching row, or is nothing
   * and no row matches.
   */
  predicate IsLookup(rows: seq<UserRow>, login: string, found: Option<nat>) {
    match found
    case None => forall i | 0 <= i < |rows| :: !LoginMatches(rows[i], login)
    case Some(i) => i < |rows| && LoginMatches(rows[i], login)
  }

  /** `result.rows[0]`: the row a lookup answer names, if any. */
  function Selected(rows: seq<UserRow>, found: Option<nat>): (r: Option<UserRow>)
    ensures r.Some? <==> found.Some? && found.value < |rows|
    ensures r.Some? ==> r.value == rows[found.value]
  {
    if found.Some? && found.value < |rows| then Some(rows[found.value]) else None
  }

  /**
   * The status chain over the row the lookup returned. `check(password, hash)`
   * stands for the password-hash comparison. On success the result is that row.
   */
  function Decide(login: string, password: string, user: Option<UserRow>, check: (string, string) -> bool): (r: Result<UserRow, Failure>)
    ensures r.Ok? <==>
      login != "" && password != "" && user.Some? && user.value.isActive && check(password, user.value.passwordHash)
    ensures r.Ok? ==> r.value == user.value
    ensures r.Err? ==> r.error.status == 400 || r.error.status == 401 || r.error.status == 403
  {
    if login == "" || password == "" then Err(Failure(400, MSG_REQUIRED))
    else match user
      case None => Err(Failure(401, MSG_INVALID))
      case Some(u) =>
        if !u.isActive then Err(Failure(403, MSG_DISABLED))
        else if !check(password, u.passwordHash) then Err(Failure(401, MSG_INVALID))
        else Ok(u)
  }

  /** `UPDATE ... SET last_login_at = now WHERE id = $1`: every row with that id is stamped, and nothing else changes. */
  function StampLogin(rows: seq<UserRow>, id: nat, now: int): (r: seq<UserRow>)
    ensures |r| == |rows|
    ensures forall k | 0 <= k < |rows| :: r[k] == rows[k].(lastLoginAt := r[k].lastLoginAt)
    ensures forall k | 0 <= k < |rows| :: r[k].lastLoginAt == if rows[k].id == id then Some(now) else rows[k].lastLoginAt
  {
    seq(|rows|, k requires 0 <= k < |rows| => if rows[k].id == id then rows[k].(lastLoginAt := Some(now)) else rows[k])
  }

  // ---------------------------------------------------------------------
  // Properties of the lookup and the chain

  /** An empty login or password is 400 before any lookup, whatever the lookup would return. */
  lemma MissingInputIs400(login: string, password: string, user: Option<UserRow>, check: (string, string) -> bool)
    requires login == "" || password == ""
    ensures Decide(login, password, user, check) == Err(Failure(400, MSG_REQUIRED))
  {
  }

  /** A login that is neither a username nor an email of any row finds nothing, and is 401. */
  lemma UnknownUserIs401(rows: seq<UserRow>, login: string, password: string, check: (string, string) -> bool, found: Option<nat>)
    requires login != "" && password != ""
    requires forall i | 0 <= i < |rows| :: rows[i].username != login && rows[i].email != login
    requires IsLookup(rows, login, found)
    ensures found == None
    ensures Decide(login, password, Selected(rows, found), check) == Err(Failure(401, MSG_INVALID))
  {
  }

  /** The login is looked up in both columns: a row whose username or email it is may be returned, and "nothing" may not. */
  lemma LookupByUsernameOrEmail(rows: seq<UserRow>, login: string, i: nat)
    requires i < |rows| && (rows[i].username == login || rows[i].email == login)
    ensures IsLookup(rows, login, Some(i))
    ensures !IsLookup(rows, login, None)
  {
  }

  /** With unique usernames, unique emails and no username that is another row's email, the lookup has one answer. */
  lemma UnambiguousLookup(rows: seq<UserRow>, login: string, i: nat, j: nat)
    requires UniqueLogins(rows) && NoCrossLogins(rows)
    requires IsLookup(rows, login, Some(i)) && IsLookup(rows, login, Some(j))
    ensures i == j
  {
  }

  /** A disabled account is 403 whether or not the password is right: the password is never compared. */
  lemma DisabledIs403(login: string, password: string, user: UserRow, check: (string, string) -> bool)
    requires login != "" && password != "" && !user.isActive
    ensures Decide(login, password, Some(user), check) == Err(Failure(403, MSG_DISABLED))
  {
  }

  /** A wrong password for an active account gets exactly the reply an unknown user gets. */
  lemma WrongPasswordLooksUnknown(login: string, password: string, user: UserRow, check: (string, string) -> bool)
    requires login != "" && password != ""
    requires user.isActive && !check(password, user.passwordHash)
    ensures Decide(login, password, Some(user), check) == Decide(login, password, None, check)
    ensures Decide(login, password, Some(user), check) == Err(Failure(401, MSG_INVALID))
  {
  }

  /** With unique ids, the update touches the matched row's `lastLoginAt` and nothing else. */
  lemma StampLoginTouchesOneRow(rows: seq<UserRow>, i: nat, now: int)
    requires UniqueIds(rows) && i < |rows|
    ensures StampLogin(rows, rows[i].id, now) == rows[i := rows[i].(lastLoginAt := Some(now))]
  {
    var r := StampLogin(rows, rows[i].id, now);
    forall k | 0 <= k < |rows|
      ensures r[k] == rows[i := rows[i].(lastLoginAt := Some(now))][k]
    {
      if k != i {
        assert rows[k].id != rows[i].id;
      }
    }
  }

  /** Without unique ids the update stamps every row sharing the id. */
  lemma StampLoginWithSharedId(a: UserRow, b: UserRow, now: int)
    requires a.id == b.id
    ensures StampLogin([a, b], a.id, now) == [a.(lastLoginAt := Some(now)), b.(lastLoginAt := Some(now))]
  {
  }
}
