# Access control of the warehouse superadmin portal

This project models the parts of the superadmin portal that make decisions:

- the edge middleware, which decides for each request path and session cookie whether the request goes on (`Next`), is sent to `/` or `/unauthorized`, or is sent to `/login?redirect=<path>`;
- the sign-up endpoint, which validates the form (required fields, password length, email pattern, role allow-list), rejects duplicate usernames and emails, and appends a row to the `superadmin_users` table;
- the sign-in endpoint, which answers 400, 401, 403, 401 or 200, looks the login up by username or email, and stamps the last login of the matched row. The lookup has no `ORDER BY`, so the database may return any matching row;
- the sidebar's rule for which menu item is highlighted, and the avatar initials and role label.

Modules, one per source file plus shared pieces:

- `Wrappers` (`wrappers.dfy`): `Option` and `Result`.
- `Strings` (`strings.dfy`): `StartsWith` and a few facts about it.
- `Middleware` (`middleware.dfy`): the route tables, the route predicates, the decision chain `Route`, and `Middleware`, which runs `Route` on the verified cookie. It also holds an independent reference: `Classify` returns the route category in precedence order, and `DecisionTable` gives the outcome for each category, session state and privilege. `RouteFollowsDecisionTable` proves the two agree. Roles become the closed enumeration `Privilege`, and every unknown string maps to `User`.
- `Users` (`users.dfy`): the table row, the public user object, the session claims, and the reply shape. A `Reply` has a status, a body and the session it writes.
- `Signup` (`signup.dfy`): the validation chain `Validate`, the whole decision `Decide` (validation, then the duplicate check), the inserted row `NewRow`, and the email pattern. The pattern is given two ways: as its regular-expression split (`MatchesEmailRegex`) and in plain words (`EmailShape`). `EmailRegexIsShape` proves they accept the same strings.
- `Signin` (`signin.dfy`): the lookup relation `IsLookup` (every answer the query may give), the status chain `Decide` over the row the lookup returned, and the last-login update `StampLogin`.
- `Database` (`database.dfy`): class `UserTable`. It holds the row sequence and the next SERIAL id. `SignUp` and `SignIn` are methods that update the table as the endpoints do; `SignIn` picks any matching row and returns which one it picked. Its invariant says ids are unique, usernames are unique, and emails are unique. The module also relates the two endpoints: sign-up then sign-in succeeds whenever the new username is no existing email; with a collision, the outcome depends on which row the database returns.
- `Sidebar` (`sidebar.dfy`): the menu table, `IsActive`, the avatar initials and the role label.

Collaborators the code cannot see are parameters:

- JWT verification is `verify: string -> Option<Payload>`.
- Password hashing is `hash: string -> string`.
- The password comparison is `check: (string, string) -> bool`.
- The database clock is `now: int`.

The bypass rules are raw prefixes plus "contains a dot", so `/api/auth/meX` and `/admin/x.json` skip every check. Roles are arbitrary strings compared exactly; the closed enumeration `Privilege` is only the reference that the chain is proved against.

Sign-up's duplicate test compares usernames with usernames and emails with emails, never a username with an email. So one row's username can be another row's email, and a sign-in with that login then depends on the row the database returns. `Database.CrossColumnCollision` and `Database.CollidingSignIn` show this.

A required field that is absent from the JSON body is modelled as the empty string. Both are falsy, so the source treats them the same. `role` is an `Option` because the source treats absent and empty differently: only an absent role defaults to `user`. `phone` is an `Option` so that absence can be represented; absent and empty phones are both stored as null.

## Model

| member | source | states |
|---|---|---|
| `Middleware.GetSessionPayload` | middleware.ts:46-55 | a session exists exactly when the cookie is present, non-empty and verifies; it is then the verified payload |
| `Middleware.Middleware` | middleware.ts:75-111 | bypass paths give `Next`; a non-bypass, non-auth-only path without a verified session gives `RedirectLogin(pathname)` |
| `Middleware.UnderPrefix` | middleware.ts:61-71 | the separator-aware match: the path equals `p` or starts with `p + '/'`; `UnderPrefixAt` states it in index terms |
| `Middleware.IsPublicRoute` | middleware.ts:15-18 | membership in the `PUBLIC_ROUTES` set, an exact match (lines 57-59) |
| `Middleware.IsAuthOnlyRoute` | middleware.ts:61-63 | some entry of `AUTH_ONLY_ROUTES` (line 10) has the path under it |
| `Middleware.IsSuperAdminRoute` | middleware.ts:65-67 | some entry of `SUPERADMIN_ONLY_PREFIXES` (lines 23-25) has the path under it |
| `Middleware.IsAdminRoute` | middleware.ts:69-71 | some entry of `ADMIN_PREFIXES` (lines 30-34) has the path under it |
| `Middleware.IsBypass` | middleware.ts:79-86 | the path starts, as a raw prefix, with one of the five bypass prefixes, or contains a `.` |
| `Middleware.RoleOf` | middleware.ts:113 | the session's role, or `user` when the claim is missing |
| `Middleware.Route` | middleware.ts:77-133 | the first-match chain over those predicates; `RouteFollowsDecisionTable` and the lemmas below give its meaning |
| `Middleware.PrivilegeOf` | middleware.ts:113-129 | only the exact strings `superadmin` and `admin` carry privilege; every other role string counts as `user` |
| `Middleware.RouteFollowsDecisionTable` | middleware.ts:75-133 | for every path and session, the if-chain gives the outcome of the category/session/privilege decision table |
| `Middleware.UnderPrefixAt` | middleware.ts:61-71 | a path is under `p` iff it equals `p`, or is longer with `p` followed by `/` |
| `Middleware.SiblingNotUnderPrefix` | middleware.ts:61-71 | `p` followed by any character other than `/` is never under `p` |
| `Middleware.SiblingExamples` | middleware.ts:23-71 | `/administration` and `/adminfoo` are not superadmin routes; `/usersX` is not an admin route; `/admin`, `/admin/reports` and `/users/7` are |
| `Middleware.BypassAlwaysNext` | middleware.ts:79-88 | a bypass path gives `Next` for every cookie and every verifier |
| `Middleware.BypassIsRawPrefix` | middleware.ts:79-88 | `/admin/x.json`, `/api/auth/meX` and `/favicon.ico` give `Next` with or without a session |
| `Middleware.SessionPresence` | middleware.ts:46-99 | on a non-bypass auth-only path the answer is a redirect to `/` exactly when a non-empty cookie verifies |
| `Middleware.AuthOnlyRedirectsLoggedIn` | middleware.ts:94-99 | on a non-bypass auth-only path: with a session `Redirect("/")`, without one `Next` |
| `Middleware.PublicBranchUnreachable` | middleware.ts:94-104 | every path in `PUBLIC_ROUTES` (lines 15-18) is auth-only, so the public branch never decides |
| `Middleware.NoSessionRedirectsToLogin` | middleware.ts:107-111 | a non-bypass, non-auth-only path without a session redirects to login, with the path as `redirect` |
| `Middleware.SuperAdminGate` | middleware.ts:113-121 | on a non-bypass superadmin path with a session: `Next` iff the role is `superadmin`, otherwise `Redirect("/unauthorized")` |
| `Middleware.AdminGate` | middleware.ts:124-129 | on a non-bypass admin path with a session: `Next` iff the role is `admin` or `superadmin`, otherwise `Redirect("/unauthorized")` |
| `Middleware.OtherPathsNeedOnlyASession` | middleware.ts:131-132 | every remaining path with a session gives `Next` |
| `Middleware.MissingRoleIsUser` | middleware.ts:113 | a missing role claim is the role `user` |
| `Middleware.RoleMattersOnlyByPrivilege` | middleware.ts:113-129 | two sessions whose roles have the same privilege get the same outcome on every path |
| `Middleware.UnknownRoleNeverElevated` | middleware.ts:113-129 | a role other than `admin` or `superadmin`, known or not, is treated exactly like a missing role |
| `Middleware.MorePrivilegeNeverLessAccess` | middleware.ts:113-132 | if a role may continue on a path, every role of equal or higher privilege may too |
| `Middleware.SuperAdminRedirectedOnlyFromAuthOnly` | middleware.ts:94-132 | a logged-in superadmin is redirected only from non-bypass auth-only paths, and only to `/` |
| `Middleware.Scenarios` | middleware.ts:75-132 | `/users` without a session goes to login; on `/admin/reports` an `admin` goes to `/unauthorized` and a `superadmin` continues; on `/login` a session goes to `/`; `/favicon.ico` continues |
| `Users.PublicOf` | app/api/auth/signin/route.ts:60-69 | the success body's user: id, username, email, first and last name, role; no hash, phone or flags (also app/api/auth/signup/route.ts:80-92) |
| `Users.ClaimsOf` | app/api/auth/signin/route.ts:51-58 | the claims handed to `createSession`: id, email, names, auth provider `credentials`, role (also app/api/auth/signup/route.ts:71-78) |
| `Users.UserReply` | app/api/auth/signup/route.ts:71-92 | a success reply: the status, the row's public fields as body, and a session with its claims |
| `Users.ErrorReply` | app/api/auth/signin/route.ts:29-31 | an error reply: the status and message, and no session written |
| `Signup.EmailRegexIsShape` | app/api/auth/signup/route.ts:37-40 | the pattern matches exactly the strings with no white space, exactly one `@`, a non-empty local part, and a `.` in the domain that is neither its first nor its last character |
| `Signup.RegexMatchHasShape` | app/api/auth/signup/route.ts:37-40 | every match of the pattern has that shape |
| `Signup.ShapeMatchesRegex` | app/api/auth/signup/route.ts:37-40 | every string of that shape matches the pattern |
| `Signup.MatchesEmailRegex` | app/api/auth/signup/route.ts:37 | `^[^\s@]+@[^\s@]+\.[^\s@]+$` as a split: an `@` and a later `.` cut the string into three non-empty runs without white space or `@` |
| `Signup.EmailFromParts` | app/api/auth/signup/route.ts:37-40 | three non-empty plain runs joined by `@` and `.` are always an accepted address |
| `Signup.EmailExamples` | app/api/auth/signup/route.ts:37-40 | `ab@cd.ef` is accepted; `ab@cd`, `@cd.ef` and `a@b@c.d` are rejected |
| `Signup.RequestedRole` | app/api/auth/signup/route.ts:18 | the destructuring default `role = 'user'`: an absent role is `user`; a present one, even empty, is kept |
| `Signup.RequiredPresent` | app/api/auth/signup/route.ts:23 | all five required fields are non-empty |
| `Signup.Validate` | app/api/auth/signup/route.ts:18-44 | validation passes iff the required fields are present, the password has at least 8 characters, the email has the shape above and the role (default `user`) is allowed; it then yields that role; every failure is a 400 |
| `Signup.Decide` | app/api/auth/signup/route.ts:23-56 | sign-up is accepted iff validation passes and no row has the username or the email; an accepted role is in the allow-list |
| `Signup.Duplicate` | app/api/auth/signup/route.ts:47-51 | some row has the request's username as username or its email as email |
| `Signup.NewRow` | app/api/auth/signup/route.ts:59-67 | the inserted row: the request's fields, the password's hash, the checked role, the stored phone; active and never logged in |
| `Signup.StoredPhone` | app/api/auth/signup/route.ts:66 | an absent or empty phone is stored as null; any other phone is stored as given |
| `Signup.RequiredFieldsCheckedFirst` | app/api/auth/signup/route.ts:23-28 | any empty required field gives 400 "All required fields must be filled.", whatever else is wrong and whatever the table holds |
| `Signup.PasswordLengthCheckedSecond` | app/api/auth/signup/route.ts:30-35 | once the fields are present, the length error is given iff the password is shorter than 8, so length 8 passes |
| `Signup.EmailCheckedThird` | app/api/auth/signup/route.ts:37-40 | once the earlier checks pass, the email error is given iff the address does not have the shape |
| `Signup.RoleCheckedFourth` | app/api/auth/signup/route.ts:42-44 | once the earlier checks pass, "Invalid role." is given iff the role is outside the allow-list |
| `Signup.RoleDefaults` | app/api/auth/signup/route.ts:7-44 | an absent role becomes `user`; the present roles `""` and `owner` give 400 "Invalid role." (the general case is `Signup.RoleCheckedFourth`) |
| `Signup.DuplicateCheckedLast` | app/api/auth/signup/route.ts:47-56 | a valid request gives 409 iff some row has its username or its email |
| `Signup.InsertKeepsLoginsUnique` | app/api/auth/signup/route.ts:47-67 | appending the row of an accepted request keeps usernames unique and emails unique |
| `Signin.LoginMatches` | app/api/auth/signin/route.ts:22 | `WHERE username = $1 OR email = $1`: the login is the row's username or its email |
| `Signin.IsLookup` | app/api/auth/signin/route.ts:19-27 | an answer of `WHERE username = $1 OR email = $1 LIMIT 1`: any row whose username or email is the login, or nothing exactly when no row matches |
| `Signin.Selected` | app/api/auth/signin/route.ts:27 | `result.rows[0]`: the row a lookup answer names, or nothing |
| `Signin.Decide` | app/api/auth/signin/route.ts:11-43 | sign-in is accepted iff both inputs are non-empty, a row was returned, it is active and the password checks; the result is that row; every failure is 400, 401 or 403 |
| `Signin.StampLogin` | app/api/auth/signin/route.ts:46-49 | every row with the id gets the new last login; no other field and no other row changes |
| `Signin.MissingInputIs400` | app/api/auth/signin/route.ts:11-16 | an empty login or password gives 400, whatever the lookup would return |
| `Signin.UnknownUserIs401` | app/api/auth/signin/route.ts:19-31 | with both inputs present, for a login that is no row's username or email the only lookup answer is nothing, and the reply is 401 "Invalid credentials." |
| `Signin.LookupByUsernameOrEmail` | app/api/auth/signin/route.ts:19-25 | a row whose username or email is the login may be returned, and "nothing" may not |
| `Signin.UnambiguousLookup` | app/api/auth/signin/route.ts:19-27 | with unique usernames, unique emails and no username equal to another row's email, every lookup returns the same row |
| `Signin.DisabledIs403` | app/api/auth/signin/route.ts:33-38 | an inactive returned account gives 403 for every password checker |
| `Signin.WrongPasswordLooksUnknown` | app/api/auth/signin/route.ts:40-43 | a wrong password for an active account gives 401 "Invalid credentials.", the same reply as when no row is returned |
| `Signin.StampLoginTouchesOneRow` | app/api/auth/signin/route.ts:45-49 | with unique ids, the update by id changes only the matched row's `lastLoginAt` |
| `Signin.StampLoginWithSharedId` | app/api/auth/signin/route.ts:46-49 | the update stamps every row that has the id, so uniqueness of ids is what confines it to one row |
| `Database.UserTable.SignUp` | app/api/auth/signup/route.ts:47-92 | a rejected request returns its error with no session, and the table is unchanged; an accepted one appends exactly the new row with the next id and answers 201 with that row's public fields and claims |
| `Database.UserTable.SignIn` | app/api/auth/signin/route.ts:11-69 | with both inputs present, `found` is some legal lookup answer; a rejected request returns its error with no session, and the rows are unchanged; an accepted one sets only the returned row's last login and answers 200 with its public fields and claims, including its role |
| `Database.SignUpThenSignIn` | app/api/auth/signin/route.ts:19-69 | on an empty table, a user who signs up can sign in with the same username and password, and gets 201 then 200 with the requested role in the session |
| `Database.SignUpThenSignInOnAnyTable` | app/api/auth/signup/route.ts:47-67 | on any table, if sign-up accepts a request whose username is no existing email, the new row is the only row its username can return, and sign-in with its password succeeds |
| `Database.CrossColumnCollision` | app/api/auth/signup/route.ts:47-51 | a user with email `bob@x.io` and a user with username `bob@x.io` both pass validation, the second is no duplicate of the first's row whatever its password hash, and they meet `CollidingSignIn`'s requirements |
| `Database.CollidingSignIn` | app/api/auth/signin/route.ts:19-43 | after two such sign-ups, the second user's sign-in with their own password is 401 when the database returns the first row and succeeds when it returns the second |
| `Sidebar.IsActive` | components/superadmin/sidebar.tsx:107-109 | the root item needs the exact pathname `/`; any other item a raw `startsWith` of its path; no pathname activates nothing |
| `Sidebar.ActiveFlags` | components/superadmin/sidebar.tsx:105-109 | one flag per menu item, in menu order, each the item's active rule |
| `Sidebar.RootActiveExactlyOnRoot` | components/superadmin/sidebar.tsx:107-108 | the `/` item is active iff the pathname is exactly `/` |
| `Sidebar.NonRootActiveByRawPrefix` | components/superadmin/sidebar.tsx:107-109 | a non-root item is active iff the pathname starts with its path |
| `Sidebar.NoPathnameNothingActive` | components/superadmin/sidebar.tsx:107-109 | with no pathname no item is active |
| `Sidebar.SidebarPrefixIsLooser` | components/superadmin/sidebar.tsx:107-109 | `/users-archive` activates Users, although the middleware does not count it as an admin route |
| `Sidebar.UnderPrefixActivates` | components/superadmin/sidebar.tsx:107-109 | every path the middleware puts under a non-root item's path also activates that item |
| `Sidebar.PrefixFreeAtMostOneActive` | components/superadmin/sidebar.tsx:105-109 | in a menu with one root item at most and no non-root path a prefix of another, no pathname activates two items |
| `Sidebar.MenuIsPrefixFree` | components/superadmin/sidebar.tsx:37-43 | the menu table is prefix-free in that sense |
| `Sidebar.NonRootPathsDiffer` | components/superadmin/sidebar.tsx:37-43 | the non-root menu paths differ at their second character |
| `Sidebar.AtMostOneActive` | components/superadmin/sidebar.tsx:37-109 | no pathname activates two items of the sidebar's menu |
| `Sidebar.FirstChar` | components/superadmin/sidebar.tsx:152 | a name contributes its first character, or nothing when it is missing or empty |
| `Sidebar.Initials` | components/superadmin/sidebar.tsx:152 | the avatar text has at most two characters: the first name's first, then the last name's first |
| `Sidebar.UpperChar` | components/superadmin/sidebar.tsx:161 | a lower-case ASCII letter becomes its capital; every other character stays |
| `Sidebar.Upper` | components/superadmin/sidebar.tsx:161 | upper-casing keeps the length and maps each character by `UpperChar` |
| `Sidebar.RoleLabel` | components/superadmin/sidebar.tsx:161 | a missing role shows nothing; a role shows as each of its characters upper-cased by `UpperChar`, so with its length kept and no lower-case ASCII letter |
| `Sidebar.UpperIdempotent` | components/superadmin/sidebar.tsx:161 | upper-casing twice is upper-casing once |
| `Sidebar.RoleLabels` | components/superadmin/sidebar.tsx:161 | the three roles show as `SUPERADMIN`, `ADMIN` and `USER` |

## Left out

- JWT signature, structure and expiry checking (`jwtVerify`, RFC 7519; expiry is the `exp` claim of section 4.1.4) is the parameter `verify`. The signing key and its environment fallback are deployment configuration. `verify` stands for the check made at the time of one request, so within a request it gives one answer. Because expiry depends on the clock, the same token can verify on one request and fail on a later one; the model does not relate requests made at different times.
- `Middleware.Middleware` verifies the cookie before the decision chain runs. The source verifies only after the bypass test. Verification has no effect, so the outcome is the same.
- `config.matcher`, the Next.js response objects and the absolute URLs built from `request.url` are framework plumbing. A redirect is modelled by its path, and the login redirect by its `redirect` parameter.
- `PROTECTED_PREFIXES` is declared in the source but never used.
- bcrypt hashing and comparison are the parameters `hash` and `check`. The hash's random salt and its cost factor 12 are not modelled.
- The SQL driver is replaced by the row sequence of `UserTable`. `lib/session` is not part of this model: the claims that `createSession` receives are recorded in `Reply.session`.
- `created_at` and `updated_at` are not columns of `UserRow`. The table's trigger, named at app/api/superadmin/users/[userId]/route.ts:44, sets `updated_at` on every UPDATE.
- Database.UserTable.SignIn: says the update changes only the row's last login. In the database the trigger also changes that row's `updated_at`, which the model does not have.
- New rows are modelled as active with no last login. The table's schema is not part of this model, so these column defaults are an assumption.
- The 500 replies of the `catch` blocks are not modelled: a failed database call or a body that is not JSON. `console.error` is not modelled either.
- Fields that are not strings are outside the model: every field is a string, and `role` and `phone` are absent or a string. In the source `role: null` skips the `user` default and gets 400 "Invalid role.", and a falsy non-string such as `username: 0` gets the required-fields 400; the model represents neither value.
- Lengths and first characters count Unicode code points. JavaScript counts UTF-16 units, so the two disagree only outside the Basic Multilingual Plane.
- `Sidebar.RoleLabel`: upper-cases the ASCII letters only. JavaScript's `toUpperCase` also maps other letters. The roles are ASCII, so their labels are the same.
- The login, register and unauthorized pages, the logout endpoint and the users listing endpoint are not modelled. They are UI, cookie deletion, or a single role guard around a SELECT.
- The sidebar's styling, icons, router navigation and collapse state are not modelled.
- Database.UserTable.SignUp: requests are modelled one at a time. Two concurrent sign-ups with the same username or email can both pass the duplicate SELECT before either INSERT runs. No unique constraint appears in the source, and the schema is not part of this model. So `UserTable.Valid()`'s uniqueness of usernames and emails holds only when sign-ups do not overlap.
