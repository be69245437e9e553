/**
 * The sign-up endpoint's decision: an early-return validation chain
 * (required fields, password length, email shape, role allow-list), then
 * the duplicate check against the table, then the row to insert.
 */
module Signup {
  import opened Wrappers
  import opened Users

  /**
   * The JSON body. A required field that is absent is the empty string (both
   * are falsy); `role` and `phone` keep absence apart from emptiness.
   */
  datatype SignupRequest = SignupRequest(
    username: string,
    email: string,
    firstName: string,
    lastName: string,
    password: string,
    role: Option<string>,
    phone: Option<string>)

  const ALLOWED_ROLES: seq<string> := ["superadmin", "admin", "user"]
  const DEFAULT_ROLE := "user"
  const MIN_PASSWORD_LENGTH := 8

  const MSG_REQUIRED := "All required fields must be filled."
  const MSG_PASSWORD := "Password must be at least 8 characters."
  const MSG_EMAIL := "Invalid email address."
  const MSG_ROLE := "Invalid role."
  const MSG_DUPLICATE := "Username or email already exists."

  const CREATED: nat := 201

  /** The destructuring default `role = 'user'` applies only when the role is absent. */
  function RequestedRole(req: SignupRequest): string {
    req.role.GetOr(DEFAULT_ROLE)
  }

  predicate RequiredPresent(req: SignupRequest) {
    req.username != "" && req.email != "" && req.firstName != "" && req.lastName != "" && req.password != ""
  }

  // ---------------------------------------------------------------------
  // The email pattern ^[^\s@]+@[^\s@]+\.[^\s@]+$

  /** JavaScript's `\s`: the ECMAScript white space and line terminator code points. */
  predicate IsWhitespace(c: char) {
    var n := c as int;
    n == 0x09 || n == 0x0A || n == 0x0B || n == 0x0C || n == 0x0D || n == 0x20 || n == 0xA0
    || n == 0x1680 || (0x2000 <= n <= 0x200A) || n == 0x2028 || n == 0x2029
    || n == 0x202F || n == 0x205F || n == 0x3000 || n == 0xFEFF
  }

  /** The class `[^\s@]`. */
  predicate Plain(c: char) {
    !IsWhitespace(c) && c != '@'
  }

  /** `[^\s@]*` over the whole of `s`. */
  predicate AllPlain(s: string) {
    forall i | 0 <= i < |s| :: Plain(s[i])
  }

  /** The pattern read as a split: three non-empty runs of plain characters joined by `@` and `.`. */
  predicate MatchesEmailRegex(e: string) {
    exists a, d | 0 < a < |e| && a + 1 < d < |e| - 1 ::
      e[a] == '@' && e[d] == '.' && AllPlain(e[..a]) && AllPlain(e[a + 1..d]) && AllPlain(e[d + 1..])
  }

  /** The domain has a `.` that is neither its first nor its last character. */
  predicate HasInnerDot(domain: string) {
    exists i | 0 < i < |domain| - 1 :: domain[i] == '.'
  }

  /** What the pattern means in plain words: no white space, exactly one `@`, a non-empty local part, an inner dot in the domain. */
  predicate EmailShape(e: string) {
    (forall i | 0 <= i < |e| :: !IsWhitespace(e[i]))
    && exists k | 0 < k < |e| ::
         e[k] == '@'
         && (forall j | 0 <= j < |e| && j != k :: e[j] != '@')
         && HasInnerDot(e[k + 1..])
  }

  /** The pattern and its plain-words reading accept the same strings. */
  lemma EmailRegexIsShape(e: string)
    ensures MatchesEmailRegex(e) <==> EmailShape(e)
  {
    if MatchesEmailRegex(e) {
      RegexMatchHasShape(e);
    }
    if EmailShape(e) {
      ShapeMatchesRegex(e);
    }
  }

  lemma RegexMatchHasShape(e: string)
    requires MatchesEmailRegex(e)
    ensures EmailShape(e)
  {
    var a, d :| 0 < a < |e| && a + 1 < d < |e| - 1 && e[a] == '@' && e[d] == '.'
      && AllPlain(e[..a]) && AllPlain(e[a + 1..d]) && AllPlain(e[d + 1..]);
    forall j | 0 <= j < |e| && j != a
      ensures Plain(e[j])
    {
      if j < a {
        assert e[..a][j] == e[j];
      } else if j < d {
        assert e[a + 1..d][j - a - 1] == e[j];
      } else if j > d {
        assert e[d + 1..][j - d - 1] == e[j];
      }
    }
    assert e[a + 1..][d - a - 1] == '.';
    assert HasInnerDot(e[a + 1..]);
  }

  lemma ShapeMatchesRegex(e: string)
    requires EmailShape(e)
    ensures MatchesEmailRegex(e)
  {
    var k :| 0 < k < |e| && e[k] == '@' && (forall j | 0 <= j < |e| && j != k :: e[j] != '@') && HasInnerDot(e[k + 1..]);
    var i :| 0 < i < |e[k + 1..]| - 1 && e[k + 1..][i] == '.';
    var d := k + 1 + i;
    assert e[d] == '.';
    AllPlainSlice(e, 0, k, k);
    AllPlainSlice(e, k + 1, d, k);
    AllPlainSlice(e, d + 1, |e|, k);
    assert e[..k] == e[0..k];
  }

  /** A slice of white-space-free characters that skips the one `@` is plain. */
  lemma AllPlainSlice(e: string, lo: nat, hi: nat, k: nat)
    requires lo <= hi <= |e| && (k < lo || hi <= k)
    requires forall i | 0 <= i < |e| :: !IsWhitespace(e[i])
    requires forall j | 0 <= j < |e| && j != k :: e[j] != '@'
    ensures AllPlain(e[lo..hi])
  {
    forall j | 0 <= j < hi - lo
      ensures Plain(e[lo..hi][j])
    {
      assert e[lo..hi][j] == e[lo + j];
    }
  }

  /** Sample addresses on both sides of the pattern. */
  lemma EmailExamples()
    ensures EmailShape("ab@cd.ef")
    ensures !EmailShape("ab@cd")
    ensures !EmailShape("@cd.ef")
    ensures !EmailShape("a@b@c.d")
  {
    EmailFromParts("ab", "cd", "ef");
    assert "ab" + "@" + "cd" + "." + "ef" == "ab@cd.ef";
    assert "a@b@c.d"[1] == '@' && "a@b@c.d"[3] == '@';
    assert "@cd.ef"[0] == '@';
  }

  /** Three non-empty plain runs joined by `@` and `.` form an address of the right shape. */
  lemma EmailFromParts(local: string, host: string, tld: string)
    requires local != "" && host != "" && tld != ""
    requires AllPlain(local) && AllPlain(host) && AllPlain(tld)
    ensures EmailShape(local + "@" + host + "." + tld)
  {
    var e := local + "@" + host + "." + tld;
    var a, d := |local|, |local| + 1 + |host|;
    assert e[a] == '@' && e[d] == '.';
    assert e[..a] == local && e[a + 1..d] == host && e[d + 1..] == tld;
    EmailRegexIsShape(e);
  }

  /** Two accepted addresses whose local part is the same. */
  lemma CollisionEmails()
    ensures EmailShape("bob@x.io") && EmailShape("bob@y.io")
  {
    EmailFromParts("bob", "x", "io");
    assert "bob" + "@" + "x" + "." + "io" == "bob@x.io";
    EmailFromParts("bob", "y", "io");
    assert "bob" + "@" + "y" + "." + "io" == "bob@y.io";
  }

  // ---------------------------------------------------------------------
  // The chain

  /** The validation chain; on success it yields the role to store. */
  function Validate(req: SignupRequest): (r: Result<string, Failure>)
    ensures r.Ok? <==>
      RequiredPresent(req) && |req.password| >= MIN_PASSWORD_LENGTH && EmailShape(req.email) && RequestedRole(req) in ALLOWED_ROLES
    ensures r.Ok? ==> r.value == RequestedRole(req)
    ensures r.Err? ==> r.error.status == 400
  {
    EmailRegexIsShape(req.email);
    if !RequiredPresent(req) then Err(Failure(400, MSG_REQUIRED))
    else if |req.password| < MIN_PASSWORD_LENGTH then Err(Failure(400, MSG_PASSWORD))
    else if !MatchesEmailRegex(req.email) then Err(Failure(400, MSG_EMAIL))
    else if RequestedRole(req) !in ALLOWED_ROLES then Err(Failure(400, MSG_ROLE))
    else Ok(RequestedRole(req))
  }

  /** `SELECT id ... WHERE username = $1 OR email = $2`: some row has the username or the email. */
  predicate Duplicate(rows: seq<UserRow>, username: string, email: string) {
    exists i | 0 <= i < |rows| :: rows[i].username == username || rows[i].email == email
  }

  /** The whole decision: validation, then the duplicate check. */
  function Decide(rows: seq<UserRow>, req: SignupRequest): (r: Result<string, Failure>)
    ensures r.Ok? <==> Validate(req).Ok? && !Duplicate(rows, req.username, req.email)
    ensures r.Ok? ==> r.value == RequestedRole(req) && r.value in ALLOWED_ROLES
  {
    match Validate(req)
    case Err(f) => Err(f)
    case Ok(role) =>
      if Duplicate(rows, req.username, req.email) then Err(Failure(409, MSG_DUPLICATE)) else Ok(role)
  }

  /** `phone || null` */
  function StoredPhone(phone: Option<string>): (r: Option<string>)
    ensures r.None? <==> phone.None? || phone.value == ""
    ensures r.Some? ==> r == phone
  {
    match phone
    case None => None
    case Some(p) => if p == "" then None else Some(p)
  }

  /** The inserted row: the request's fields, the password's hash and the role; new rows are active and have never logged in. */
  function NewRow(req: SignupRequest, id: nat, role: string, passwordHash: string): UserRow {
    UserRow(id, req.username, req.email, req.firstName, req.lastName, passwordHash, role, StoredPhone(req.phone), true, None)
  }

  // ---------------------------------------------------------------------
  // Properties of the chain

  /** Any empty required field is reported first, whatever else is wrong and whatever the table holds. */
  lemma RequiredFieldsCheckedFirst(rows: seq<UserRow>, req: SignupRequest)
    requires !RequiredPresent(req)
    ensures Decide(rows, req) == Err(Failure(400, MSG_REQUIRED))
  {
  }

  /** With the required fields present, the length error is reported exactly for passwords shorter than 8. */
  lemma PasswordLengthCheckedSecond(rows: seq<UserRow>, req: SignupRequest)
    requires RequiredPresent(req)
    ensures Decide(rows, req) == Err(Failure(400, MSG_PASSWORD)) <==> |req.password| < MIN_PASSWORD_LENGTH
  {
  }

  /** With the earlier checks passed, the email error is reported exactly for addresses of the wrong shape. */
  lemma EmailCheckedThird(rows: seq<UserRow>, req: SignupRequest)
    requires RequiredPresent(req) && |req.password| >= MIN_PASSWORD_LENGTH
    ensures Decide(rows, req) == Err(Failure(400, MSG_EMAIL)) <==> !EmailShape(req.email)
  {
    EmailRegexIsShape(req.email);
  }

  /** With the earlier checks passed, the role error is reported exactly for a role outside the allow-list. */
  lemma RoleCheckedFourth(rows: seq<UserRow>, req: SignupRequest)
    requires RequiredPresent(req) && |req.password| >= MIN_PASSWORD_LENGTH && EmailShape(req.email)
    ensures Decide(rows, req) == Err(Failure(400, MSG_ROLE)) <==> RequestedRole(req) !in ALLOWED_ROLES
  {
    EmailRegexIsShape(req.email);
  }

  /** An absent role is `user`; a present empty or unknown role is rejected. */
  lemma RoleDefaults(rows: seq<UserRow>, req: SignupRequest)
    requires RequiredPresent(req) && |req.password| >= MIN_PASSWORD_LENGTH && EmailShape(req.email)
    ensures req.role.None? ==> Validate(req) == Ok(DEFAULT_ROLE)
    ensures req.role == Some("") ==> Decide(rows, req) == Err(Failure(400, MSG_ROLE))
    ensures req.role == Some("owner") ==> Decide(rows, req) == Err(Failure(400, MSG_ROLE))
  {
    RoleCheckedFourth(rows, req);
  }

  /** A valid request conflicts, with 409, exactly when a row has its username or its email. */
  lemma DuplicateCheckedLast(rows: seq<UserRow>, req: SignupRequest)
    requires Validate(req).Ok?
    ensures Decide(rows, req) == Err(Failure(409, MSG_DUPLICATE)) <==> Duplicate(rows, req.username, req.email)
  {
  }

  /** Inserting after a successful decision keeps usernames unique and emails unique. */
  lemma InsertKeepsLoginsUnique(rows: seq<UserRow>, req: SignupRequest, id: nat, role: string, passwordHash: string)
    requires UniqueLogins(rows) && Decide(rows, req).Ok?
    ensures UniqueLogins(rows + [NewRow(req, id, role, passwordHash)])
  {
    var rows' := rows + [NewRow(req, id, role, passwordHash)];
    forall i, j | 0 <= i < |rows'| && 0 <= j < |rows'| && i != j
      ensures rows'[i].username != rows'[j].username && rows'[i].email != rows'[j].email
    {
      if i == |rows| {
        assert !(rows[j].username == req.username || rows[j].email == req.email);
      } else if j == |rows| {
        assert !(rows[i].username == req.username || rows[i].email == req.email);
      }
    }
  }
}
