/**
 * The `superadmin_users` table as an object whose row sequence the sign-up
 * and sign-in endpoints update: sign-up appends one row or none, sign-in
 * stamps the last login of one row or of none.
 */
module Database {
  import opened Wrappers
  import opened Users
  import Signup
  import Signin

  class UserTable {
    var rows: seq<UserRow>
    /** The next value of the `id` SERIAL sequence. */
    var nextId: nat

    ghost predicate Valid()
      reads this
    {
      && UniqueIds(rows)
      && UniqueLogins(rows)
      && (forall i | 0 <= i < |rows| :: rows[i].id < nextId)
    }

    constructor ()
      ensures Valid() && rows == [] && nextId == 1
    {
      rows := [];
      nextId := 1;
    }

    /**
     * POST /api/auth/signup. `hash` stands for the password hashing. A
     * rejected request leaves the table as it was; an accepted one appends
     * exactly one row, answers 201 with that row's public fields, and writes
     * a session with its claims.
     */
    method SignUp(req: Signup.SignupRequest, hash: string -> string) returns (reply: Reply)
      requires Valid()
      modifies this
      ensures Valid()
      ensures Signup.Decide(old(rows), req).Err? ==>
        reply == ErrorReply(Signup.Decide(old(rows), req).error) && rows == old(rows) && nextId == old(nextId)
      ensures Signup.Decide(old(rows), req).Ok? ==>
        var row := Signup.NewRow(req, old(nextId), Signup.Decide(old(rows), req).value, hash(req.password));
        && rows == old(rows) + [row]
        && nextId == old(nextId) + 1
        && reply == UserReply(Signup.CREATED, row)
    {
      var decision := Signup.Decide(rows, req);
      match decision {
        case Err(f) =>
          reply := ErrorReply(f);
        case Ok(role) =>
          var row := Signup.NewRow(req, nextId, role, hash(req.password));
          Signup.InsertKeepsLoginsUnique(rows, req, nextId, role, hash(req.password));
          rows := rows + [row];
          nextId := nextId + 1;
          reply := UserReply(Signup.CREATED, row);
      }
    }

    /**
     * POST /api/auth/signin. `check` stands for the password-hash comparison
     * and `now` for the database clock. With both inputs present the table is
     * searched, and `found` is the row the database returned: any row whose
     * username or email is the login. A rejected request leaves the table as
     * it was; an accepted one changes only that row's last login, answers 200
     * with its public fields and writes a session with its claims.
     */
    method SignIn(login: string, password: string, check: (string, string) -> bool, now: int) returns (found: Option<nat>, reply: Reply)
      requires Valid()
      modifies this
      ensures Valid() && nextId == old(nextId)
      ensures login != "" && password != "" ==> Signin.IsLookup(old(rows), login, found)
      ensures found.Some? ==> found.value < |old(rows)|
      ensures Signin.Decide(login, password, Signin.Selected(old(rows), found), check).Err? ==>
        reply == ErrorReply(Signin.Decide(login, password, Signin.Selected(old(rows), found), check).error) && rows == old(rows)
      ensures Signin.Decide(login, password, Signin.Selected(old(rows), found), check).Ok? ==>
        found.Some?
        && rows == old(rows)[found.value := old(rows)[found.value].(lastLoginAt := Some(now))]
        && reply == UserReply(Signin.OK, old(rows)[found.value])
    {
      found := None;
      if login != "" && password != "" && exists i | 0 <= i < |rows| :: Signin.LoginMatches(rows[i], login) {
        var i :| 0 <= i < |rows| && Signin.LoginMatches(rows[i], login);
        found := Some(i);
      }
      var decision := Signin.Decide(login, password, Signin.Selected(rows, found), check);
      match decision {
        case Err(f) =>
          reply := ErrorReply(f);
        case Ok(user) =>
          var i := found.value;
          Signin.StampLoginTouchesOneRow(rows, i, now);
          rows := Signin.StampLogin(rows, user.id, now);
          reply := UserReply(Signin.OK, user);
      }
    }
  }

  /** On an empty table, signing up and then signing in with the same username and password succeeds with the requested role. */
  method SignUpThenSignIn(req: Signup.SignupRequest, hash: string -> string, check: (string, string) -> bool, now: int)
    returns (signedUp: Reply, signedIn: Reply)
    requires Signup.Decide([], req).Ok?
    requires check(req.password, hash(req.password))
    ensures signedUp.status == Signup.CREATED && signedIn.status == Signin.OK
    ensures signedIn.session.Some? && signedIn.session.value.role == Signup.RequestedRole(req)
    ensures signedIn.body.UserBody? && signedIn.body.user.username == req.username
  {
    var table := new UserTable();
    signedUp := table.SignUp(req, hash);
    ghost var rows := table.rows;
    assert Signin.LoginMatches(rows[0], req.username);
    var found;
    found, signedIn := table.SignIn(req.username, req.password, check, now);
    assert found == Some(0);
  }

  /**
   * On any table, a user who signs up can then sign in with the same username
   * and password, provided the username is no existing row's email: the new
   * row is then the only row the lookup can return.
   */
  lemma SignUpThenSignInOnAnyTable(rows: seq<UserRow>, req: Signup.SignupRequest, id: nat, passwordHash: string, found: Option<nat>, check: (string, string) -> bool)
    requires Signup.Decide(rows, req).Ok?
    requires forall i | 0 <= i < |rows| :: rows[i].email != req.username
    requires check(req.password, passwordHash)
    requires Signin.IsLookup(rows + [Signup.NewRow(req, id, Signup.Decide(rows, req).value, passwordHash)], req.username, found)
    ensures found == Some(|rows|)
    ensures Signin.Decide(req.username, req.password, Signin.Selected(rows + [Signup.NewRow(req, id, Signup.Decide(rows, req).value, passwordHash)], found), check).Ok?
  {
    var rows' := rows + [Signup.NewRow(req, id, Signup.Decide(rows, req).value, passwordHash)];
    assert !Signup.Duplicate(rows, req.username, req.email);
    forall i | 0 <= i < |rows|
      ensures !Signin.LoginMatches(rows'[i], req.username)
    {
      assert rows'[i] == rows[i];
    }
    assert Signin.LoginMatches(rows'[|rows|], req.username);
  }

  const ALICE := Signup.SignupRequest("alice", "bob@x.io", "Alice", "A", "alicepass", None, None)
  const BOB := Signup.SignupRequest("bob@x.io", "bob@y.io", "Bob", "B", "bobpass12", None, None)

  /**
   * The duplicate test compares usernames with usernames and emails with
   * emails only, so the collision below can happen: Alice signs up with the
   * email `bob@x.io`, then Bob with the username `bob@x.io`. Both requests
   * are valid, and with the identity as hash and equality as the comparison
   * they meet every demand of `CollidingSignIn`.
   */
  lemma CrossColumnCollision(passwordHash: string)
    ensures Signup.Validate(ALICE).Ok? && Signup.Validate(BOB).Ok?
    ensures !Signup.Duplicate([Signup.NewRow(ALICE, 1, "user", passwordHash)], BOB.username, BOB.email)
    ensures BOB.username == ALICE.email && ALICE.username != ALICE.email && BOB.email != ALICE.email
    ensures BOB.password != ALICE.password
  {
    Signup.CollisionEmails();
    assert Signup.RequiredPresent(ALICE) && |ALICE.password| >= Signup.MIN_PASSWORD_LENGTH;
    assert Signup.RequiredPresent(BOB) && |BOB.password| >= Signup.MIN_PASSWORD_LENGTH;
    assert Signup.RequestedRole(ALICE) == Signup.RequestedRole(BOB) == "user";
    AliceRowIsNoDuplicate(passwordHash);
  }

  /** Alice's row has neither Bob's username nor Bob's email. */
  lemma AliceRowIsNoDuplicate(passwordHash: string)
    ensures !Signup.Duplicate([Signup.NewRow(ALICE, 1, "user", passwordHash)], BOB.username, BOB.email)
  {
    var row := Signup.NewRow(ALICE, 1, "user", passwordHash);
    assert row.username != BOB.username && row.email != BOB.email;
  }

  /**
   * The collision on a table: one user signs up, a second signs up with the
   * first one's email as username, and the second signs in. If the database
   * returns the first user's row the sign-in is 401; if it returns the
   * second's it succeeds.
   */
  method CollidingSignIn(first: Signup.SignupRequest, second: Signup.SignupRequest, hash: string -> string, check: (string, string) -> bool, now: int)
    returns (found: Option<nat>, reply: Reply)
    requires Signup.Validate(first).Ok? && Signup.Validate(second).Ok?
    requires second.username == first.email && first.username != first.email && second.email != first.email
    requires check(second.password, hash(second.password)) && !check(second.password, hash(first.password))
    ensures found == Some(0) || found == Some(1)
    ensures found == Some(0) ==> reply == ErrorReply(Failure(401, Signin.MSG_INVALID))
    ensures found == Some(1) ==> reply.status == Signin.OK && reply.body.UserBody? && reply.body.user.email == second.email
  {
    var table := new UserTable();
    var signedUp := table.SignUp(first, hash);
    ghost var rows := table.rows;
    assert !Signup.Duplicate(rows, second.username, second.email);
    signedUp := table.SignUp(second, hash);
    assert Signin.LoginMatches(table.rows[0], second.username) && Signin.LoginMatches(table.rows[1], second.username);
    found, reply := table.SignIn(second.username, second.password, check, now);
  }
}
