# Feedback app: a Dafny model of its request handling

This project models the core of a small Flask application. Users register, log in, view their own
profile page, and create, edit and delete short "feedback" notes tied to their account. Each route
handler of `app.py` becomes a pure function from a state and a request to a next state and a response.
The state has two parts:

- the database, which holds the `users` table, the `feedback` table and the serial sequence behind
  `feedback.id`;
- the browser session's `user_id`, which is an optional username.

`models.py` supplies the tables, `User.register`, `User.authenticate` and the user-to-feedback cascade.
`forms.py` supplies the WTForms validity rules that guard the register, login, add-feedback and
edit-feedback state changes.

Modules (one file each):

- `Wrappers` (`wrappers.dfy`): `Option`.
- `Forms` (`forms.dfy`): the four forms as field records and validity predicates. `InputRequired` means
  non-empty; `Length(max=n)` means at most `n` characters.
- `Models` (`models.dfy`): the rows, the database constraints `Valid`, and the store operations.
  The hash library is an abstract `Hasher` (a hash function plus a check predicate). `Sound(h)` is the
  assumption that a stored hash accepts exactly the password it was made from.
- `Flashes` (`flashes.dfy`): the exact text and category of every flash message. This includes the
  decimal rendering of feedback ids inside f-strings.
- `App` (`app.dfy`): the handlers, the authorization rule `Decide`, request routing `Handle` and
  request sequences `Run`.
- `Invariants` (`invariants.dfy`): the database constraints hold in every reachable state. This file
  also lists which crashes remain.
- `Security` (`security.dfy`): authorization and "nothing else changes" properties, for single requests
  and for whole request sequences.
- `Scenarios` (`scenarios.dfy`): concrete request sequences, plus round trips between routes.

How the source behaves, as modelled:

- **Authorization.** Every protected route follows one rule, `Decide(session, owner)`, except as listed
  below:
  - no identity: redirect home;
  - the owner: allowed;
  - anyone else: redirect to their own page.

  "No identity" follows the truthiness of the `if`/`elif` tests, so a session holding `""` counts as
  none. Feedback routes
  judge against the stored owner of the row, not against anything in the URL.
- **`delete_feedback`** looks the row up before it consults the session. An unknown id therefore goes
  home with a "does not exist" flash even without a session. A logged-in non-owner is redirected to the
  **owner's** page.
- **`handle_feedback_update`** checks for a missing session (`is None`) before the lookup.
- **`delete_user`** deletes only on a POST from the account's own session. Any other request flashes
  "Cannot delete other users." and redirects to `/users/{session['user_id']}`. Without a session that
  expression raises, which the model records as `Crash`. A GET from the owner is refused.
- **`User` objects in redirects.** Some successful redirects interpolate a `User` object rather than a
  username (app.py:31, 204, 241). These are the target `UserObj(owner)`, which is distinct from
  `UserPage(name)`.
- **Duplicate usernames.** Registering a taken username fails at commit with a primary-key violation
  (`Crash`). The email column has no uniqueness constraint, so accounts sharing an email are reachable.
- **`get_or_404`** aborts are the response `NotFound`. The state does not change.
- **Feedback ids** come from the sequence `nextId`. If an insert meets an id already in use it is an
  integrity error (`Crash`). Under the database constraints this never happens.

Four consequences of these rules are easy to miss:

- A duplicate username crashes at commit rather than giving a validation error. Two accounts may share
  an email.
- A refused non-owner is not always sent to their own page: `delete_feedback` sends them to the owner's
  page.
- The `if`/`elif` truthiness tests treat an empty-string session as no identity, but two checks do not.
  `handle_feedback_update` tests `is None` (app.py:177), so a `""` session gets past it and an unknown
  id then flashes "does not exist". `delete_user` indexes `session['user_id']` (app.py:123), which does
  not raise for `""`: that request flashes "Cannot delete other users." and redirects to `/users/`.
  Only an absent session crashes.
- The feedback delete URL accepts GET (app.py:217) and its handler never looks at the method, so a GET
  from the owner deletes the row. No other GET changes the database.

## Model

| member | source | states |
|---|---|---|
| Models.Register | models.py:37-52 | the new row stores the hash of the password, keeps username, email and names verbatim, and (for a sound hasher) its stored password field accepts exactly the registered password and no other |
| Models.Authenticate | models.py:54-68 | returns the stored user exactly when the username is a key and the hash check accepts the password; every failure, unknown user or wrong password, is the one value `None` |
| Models.AuthenticateAfterRegister | models.py:42-68 | after registering a username, authenticating under it succeeds iff the candidate equals the registered password, whatever the table held before |
| Models.InsertFeedback | models.py:76-77 | a new row goes in at the next sequence value, which is fresh; the table grows by exactly one and existing rows are unchanged; an id already in use fails |
| Models.EditFeedback | app.py:196-200 | only the title and content of that one row change; its owner, every other row and the users table stay the same |
| Models.RemoveFeedback | app.py:237-238 | exactly that id disappears, every other row is unchanged, the table shrinks by one |
| Models.CascadeDelete | models.py:34 | the user's row goes and a feedback row survives iff its owner is a different user; surviving rows and other users are unchanged |
| Models.CascadeDeleteCount | models.py:34 | the cascade shrinks the feedback table by exactly the number of rows the user owned |
| Models.InsertKeepsValid | models.py:77-84 | inserting a row that fits the title bound and references an existing user keeps every database constraint and never collides |
| Models.CascadeDeleteKeepsValid | models.py:34 | deleting a user keeps every foreign key valid and leaves no row owned by that user |
| Forms.FeedbackFormsAgree | forms.py:26-38 | the add and edit feedback forms accept exactly the same submissions: title non-empty and at most 100 characters, content non-empty with no upper bound |
| Forms.RegisteredCredentialsFitLogin | forms.py:8-23 | every username and password the register form accepts also passes the login form's rules |
| Flashes.Decimal | app.py:185 | the id interpolated into a flash message is a non-empty run of digits that reads back as the id, a single digit exactly below 10 and with no leading zero |
| Flashes.DecimalCanonical | app.py:185 | every digit string without a leading zero is exactly the rendering of the number it denotes, so `str(id)` is the one such spelling of each id |
| Flashes.TextDistinguishes | app.py:240-244 | two flash messages with the same text are the same message, so a message about a feedback item names exactly that item |
| App.ShowIndex | app.py:23-33 | never changes state; a truthy session whose user exists is always redirected through that `User` object, a stale one gets a 404, anyone else goes to /register |
| App.HandleRegister | app.py:35-56 | a valid POST with a new username adds exactly that user, stored as `User.register` builds it (the password hashed, the other fields verbatim), keeps every other user and logs the new one in; for a sound hasher the stored row accepts only the registered password; a taken username crashes at commit; anything else re-renders the form unchanged |
| App.HandleLogin | app.py:58-78 | the database never changes; the session changes only on a valid POST that authenticates, becoming that user, and in a consistent database exactly the username typed; a failed valid POST flashes "Wrong username or password." and leaves the state as it was |
| App.ShowUserDetails | app.py:81-97 | never changes state; the profile page renders iff the session equals the URL username; another logged-in user is sent to their own page; no session goes home |
| App.DeleteUser | app.py:99-123 | the database changes iff a POST comes from the account's own existing session, and then the cascade runs and the session is cleared; any other request with a session flashes "Cannot delete other users." unchanged; no session crashes |
| App.HandleFeedbackAdd | app.py:129-167 | the database changes iff the session equals the URL username, the user exists and the form is valid, and then exactly one row owned by that user is added at the sequence value, which advances by one, with every existing row unchanged; if that id is already in use the request crashes; a non-owner goes to their own add page, no session goes home |
| App.HandleFeedbackUpdate | app.py:169-215 | no session goes home before any lookup; an unknown id flashes "does not exist"; only the owner's valid POST changes, and only that row's title and content, flashing "changes saved!"; a non-owner gets a flash and their own page, the row unchanged |
| App.DeleteFeedback | app.py:217-248 | an unknown id goes home with a flash whatever the session; the database changes iff the session is the row's owner, removing exactly that id; a logged-in non-owner is sent to the owner's page unchanged; no session changes nothing |
| App.HandleLogout | app.py:250-257 | the database never changes and the response is a redirect home; a truthy session is removed, and an empty-string session leaves the whole state as it was |
| App.Handle | app.py:23-251 | a method missing from the route's `methods=` list (GET only when omitted) is answered 405 with no change, and 405 arises in no other way; a GET changes the database only on the feedback delete URL |
| Invariants.RegisterKeepsConsistent | forms.py:8-16 | the register form's bounds make every stored user fit the column bounds of models.py |
| Invariants.DeleteUserKeepsConsistent | models.py:34 | deleting an account keeps every database constraint |
| Invariants.FeedbackAddKeepsConsistent | forms.py:29-31 | the add form's title bound and the owner check keep every database constraint |
| Invariants.HandleKeepsConsistent | models.py:24-84 | every request keeps primary keys, column bounds, foreign keys and the id sequence consistent |
| Invariants.RunKeepsConsistent | models.py:24-84 | every sequence of requests keeps those constraints |
| Invariants.ReachableConsistent | models.py:77-84 | every state one browser reaches from an empty database has non-null owners that exist, titles of at most 100 characters and usernames of at most 20 |
| Invariants.CrashCases | app.py:123 | in a consistent state a request crashes iff it is `delete_user` without a session or a valid registration of a taken username |
| Invariants.NotFoundMeansStaleSession | app.py:28 | in a consistent state a 404 arises only from a session naming a user who no longer exists |
| Security.DeniedRequestChangesNothing | app.py:86-248 | a protected request whose resource is missing or whose owner the authorization rule does not allow leaves database and session untouched |
| Security.OnlyOwnerChangesFeedback | app.py:192-245 | whatever the request, a feedback row changes or disappears only under its owner's session |
| Security.OnlyOwnerRemovesAccount | app.py:106-119 | whatever the request, an account changes or disappears only by a POST to its own delete URL under its own session |
| Security.SessionChangesOnlyThere | app.py:52-71 | only register, login, logout and delete-account change the session |
| Security.DeleteAccountCascades | models.py:34 | deleting one's own account removes every row one owned, shrinks the table by their number and leaves everyone else's rows unchanged |
| Security.LoginFailuresLookAlike | models.py:62-68 | an unknown username and a wrong password give the same response and the same state |
| Security.ErrorFlashChangesNothing | app.py:58-248 | every request answered with a flash in the "error" category (wrong credentials, cannot delete others, item missing, item not yours) leaves database and session as they were |
| Security.LogoutIdempotent | app.py:254-257 | logging out twice is the same as logging out once |
| Security.UntouchedWithoutOwner | app.py:192-245 | a feedback row survives unchanged any request sequence in which the browser never acts under its owner's session |
| Security.AccountSurvives | app.py:106-119 | an account survives unchanged any request sequence that never posts to its delete URL from its own session |
| Scenarios.RegisterThenLogin | app.py:48-72 | register, log out, log in: the login succeeds iff the password is the registered one |
| Scenarios.WrongPasswordThenRightPassword | app.py:64-78 | alice/pw1 registered; a login with a wrong password flashes the error and sets no session; then the right password logs her in |
| Scenarios.ForeignUpdateRefused | app.py:209-212 | bob asking to edit alice's feedback is sent to his own page with the ownership flash and the row is unchanged |
| Scenarios.DeletedFeedbackIsGone | app.py:225-241 | after its owner deletes an item, both the delete and the edit routes report it as missing |
| Scenarios.SharedEmailReachable | models.py:28 | two accounts with the same email are a consistent state reachable from an empty database |

## Left out

- Flask plumbing is not modelled: cookie signing, CSRF, the debug toolbar, and the templates including
  the custom 404 page (app.py:1-21). Pages, redirect targets and flash messages are tags. A `get_or_404`
  abort is the single response `NotFound`.
- `show_user_details` renders the profile for a matching session without checking that the user exists
  (app.py:87). Its page is a tag, so what the template does with a missing user is not modelled.
- The hashing library is abstract. `Sound` is an assumption about it, not a fact. It idealises bcrypt,
  which salts each hash and only looks at the first 72 bytes of a password.
- The WTForms `Email()` format check is the abstract predicate `Env.emailFormat`.
- Requests are atomic and come from one browser. Other browsers, and the stale sessions they create by
  deleting accounts, appear only as arbitrary starting states.
- Database transactions and store failures other than the two integrity errors are not modelled.
- `delete_user` without a session: the flash raised before the crash is dropped.
- A failed insert leaves the id sequence where it was. Postgres advances the sequence even when the
  insert fails.
- HTTP methods other than GET and POST (HEAD, OPTIONS) are not modelled.
- Rendering details are not modelled: the edit form pre-filled from the row, and the `Bad name/password`
  field error on a failed login.
- `seed.py` (a seeding script with no logic) and `test_app.py` (integration tests) are not part of this
  model.
