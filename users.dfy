/**
 * The rows of the `superadmin_users` table and the shapes the sign-up and
 * sign-in endpoints answer with.
 */
module Users {
  import opened Wrappers

  /** One row of `superadmin_users`; `lastLoginAt` is a timestamp supplied by the caller's clock. */
  datatype UserRow = UserRow(
    id: nat,
    username: string,
    email: string,
    firstName: string,
    lastName: string,
    passwordHash: string,
    role: string,
    phone: Option<string>,
    isActive: bool,
    lastLoginAt: Option<int>)

  /** The user object in a success body: the row without its hash, phone or flags. */
  datatype PublicUser = PublicUser(id: nat, username: string, email: string, firstName: string, lastName: string, role: string)

  /** The claims handed to the session writer. */
  datatype SessionClaims = SessionClaims(userId: nat, email: string, firstName: string, lastName: string, authProvider: string, role: string)

  /** An error status with its message. */
  datatype Failure = Failure(status: nat, message: string)

  datatype Body = UserBody(user: PublicUser) | ErrorBody(error: string)

  /** An HTTP reply and the session it writes, if any. */
  datatype Reply = Reply(status: nat, body: Body, session: Option<SessionClaims>)

  const AUTH_PROVIDER := "credentials"

  function PublicOf(row: UserRow): PublicUser {
    PublicUser(row.id, row.username, row.email, row.firstName, row.lastName, row.role)
  }

  function ClaimsOf(row: UserRow): SessionClaims {
    SessionClaims(row.id, row.email, row.firstName, row.lastName, AUTH_PROVIDER, row.role)
  }

  /** A success reply for `row`: its public fields in the body and its claims in the session. */
  function UserReply(status: nat, row: UserRow): Reply {
    Reply(status, UserBody(PublicOf(row)), Some(ClaimsOf(row)))
  }

  /** An error reply writes no session. */
  function ErrorReply(f: Failure): Reply {
    Reply(f.status, ErrorBody(f.message), None)
  }

  /** The SERIAL ids of the rows are distinct. */
  ghost predicate UniqueIds(rows: seq<UserRow>) {
    forall i, j | 0 <= i < |rows| && 0 <= j < |rows| && i != j :: rows[i].id != rows[j].id
  }

  /** No two rows share a username, and no two share an email. */
  ghost predicate UniqueLogins(rows: seq<UserRow>) {
    forall i, j | 0 <= i < |rows| && 0 <= j < |rows| && i != j ::
      rows[i].username != rows[j].username && rows[i].email != rows[j].email
  }

  /** No row's username is another row's email. Sign-up does not enforce this. */
  ghost predicate NoCrossLogins(rows: seq<UserRow>) {
    forall i, j | 0 <= i < |rows| && 0 <= j < |rows| && i != j :: rows[i].username != rows[j].email
  }
}
