/** The two tables of models.py and the store operations the route handlers
    perform on them. The relational store is a pair of maps keyed by primary
    key plus the next value of the feedback id sequence. */
module Models {
  import opened Wrappers
  import opened Forms

  type Username = string

  /** A row of `users`. `password` holds the hash, never the plaintext. */
  datatype User = User(
    username: Username,
    password: string,
    email: string,
    firstName: string,
    lastName: string)

  /** A row of `feedback`; `owner` is the non-null `username` foreign key. */
  datatype Feedback = Feedback(title: string, content: string, owner: Username)

  /** The database: both tables, and the serial sequence behind `feedback.id`. */
  datatype Db = Db(users: map<Username, User>, feedback: map<nat, Feedback>, nextId: nat)

  /** The password hashing library, which is not part of this model: `hash`
      stands for `generate_password_hash` and `check` for
      `check_password_hash(stored, candidate)`. */
  datatype Hasher = Hasher(hash: string -> string, check: (string, string) -> bool)

  /** The hashing library's promise: a stored hash accepts exactly the
      password it was made from. */
  ghost predicate Sound(h: Hasher) {
    forall p, q :: h.check(h.hash(p), q) <==> p == q
  }

  /** The column bounds of `users`: String(20), String(50), String(30), String(30). */
  predicate UserFits(u: User) {
    && |u.username| <= UsernameMax
    && |u.email| <= EmailMax
    && |u.firstName| <= NameMax
    && |u.lastName| <= NameMax
  }

  /** The column bound of `feedback.title`: String(100). */
  predicate FeedbackFits(f: Feedback) {
    |f.title| <= TitleMax
  }

  /** The database constraints: primary keys agree with the rows, every column
      bound holds, every feedback row references an existing user, and every
      id in use was handed out by the sequence. Email is deliberately NOT
      required to be unique: the column has no such constraint. */
  predicate Valid(db: Db) {
    && (forall u :: u in db.users ==> db.users[u].username == u && UserFits(db.users[u]))
    && (forall id :: id in db.feedback ==>
          id < db.nextId && FeedbackFits(db.feedback[id]) && db.feedback[id].owner in db.users)
  }

  /** The empty database; a Postgres serial sequence starts at 1. */
  const Empty: Db := Db(map[], map[], 1)

  /** The ids of the feedback rows owned by `username`. */
  function OwnedBy(db: Db, username: Username): set<nat> {
    set id | id in db.feedback && db.feedback[id].owner == username
  }

  /** `User.register`: the new row stores the hash of the password and every
      other field verbatim. */
  function Register(h: Hasher, username: Username, password: string, email: string,
                    firstName: string, lastName: string): (u: User)
    ensures u.password == h.hash(password)
    ensures u.username == username && u.email == email
    ensures u.firstName == firstName && u.lastName == lastName
    ensures Sound(h) ==> forall q :: h.check(u.password, q) <==> q == password
  {
    User(username, h.hash(password), email, firstName, lastName)
  }

  /** `User.authenticate`: the stored user when the username is a key and the
      hash check accepts the password; a single failure value otherwise, so an
      unknown username and a wrong password cannot be told apart. */
  function Authenticate(h: Hasher, users: map<Username, User>, username: Username,
                        password: string): (r: Option<User>)
    ensures r.Some? <==> username in users && h.check(users[username].password, password)
    ensures r.Some? ==> r.value == users[username]
  {
    if username in users && h.check(users[username].password, password) then
      Some(users[username])
    else
      None
  }

  /** Registering a user and then authenticating under that username succeeds
      exactly for the registered password, whatever the table held before. */
  lemma AuthenticateAfterRegister(h: Hasher, users: map<Username, User>, username: Username,
                                  password: string, email: string, firstName: string,
                                  lastName: string, candidate: string)
    requires Sound(h)
    ensures var users' := users[username := Register(h, username, password, email, firstName, lastName)];
            Authenticate(h, users', username, candidate).Some? <==> candidate == password
  {
  }

  /** Adding a feedback row at the next sequence value. The insert fails (an
      integrity error) when that id is already in use. */
  function InsertFeedback(db: Db, f: Feedback): (r: Option<Db>)
    ensures r.None? <==> db.nextId in db.feedback
    ensures r.Some? ==> r.value.users == db.users && r.value.nextId == db.nextId + 1
    ensures r.Some? ==> r.value.feedback.Keys == db.feedback.Keys + {db.nextId}
    ensures r.Some? ==> r.value.feedback[db.nextId] == f
    ensures r.Some? ==> forall id :: id in db.feedback ==> r.value.feedback[id] == db.feedback[id]
    ensures r.Some? ==> |r.value.feedback| == |db.feedback| + 1
  {
    if db.nextId in db.feedback then None
    else Some(Db(db.users, db.feedback[db.nextId := f], db.nextId + 1))
  }

  /** Changing the title and content of an existing feedback row. */
  function EditFeedback(db: Db, id: nat, title: string, content: string): (r: Db)
    requires id in db.feedback
    ensures r.users == db.users && r.nextId == db.nextId
    ensures r.feedback.Keys == db.feedback.Keys
    ensures r.feedback[id].title == title && r.feedback[id].content == content
    ensures r.feedback[id].owner == db.feedback[id].owner
    ensures forall other :: other in db.feedback && other != id ==> r.feedback[other] == db.feedback[other]
  {
    db.(feedback := db.feedback[id := db.feedback[id].(title := title, content := content)])
  }

  /** Deleting one feedback row. */
  function RemoveFeedback(db: Db, id: nat): (r: Db)
    requires id in db.feedback
    ensures r.users == db.users && r.nextId == db.nextId
    ensures r.feedback.Keys == db.feedback.Keys - {id}
    ensures forall other :: other in r.feedback ==> r.feedback[other] == db.feedback[other]
    ensures |r.feedback| == |db.feedback| - 1
  {
    db.(feedback := db.feedback - {id})
  }

  /** Deleting a user row; the relationship's `cascade="all,delete"` deletes
      every feedback row the user owns along with it. */
  function CascadeDelete(db: Db, username: Username): (r: Db)
    ensures r.users.Keys == db.users.Keys - {username}
    ensures forall u :: u in r.users ==> r.users[u] == db.users[u]
    ensures forall id :: id in r.feedback <==> id in db.feedback && db.feedback[id].owner != username
    ensures forall id :: id in r.feedback ==> r.feedback[id] == db.feedback[id]
    ensures r.nextId == db.nextId
  {
    Db(db.users - {username},
       map id | id in db.feedback && db.feedback[id].owner != username :: db.feedback[id],
       db.nextId)
  }

  /** The cascade removes exactly the rows the user owned: the table shrinks
      by their number. */
  lemma CascadeDeleteCount(db: Db, username: Username)
    ensures |CascadeDelete(db, username).feedback| == |db.feedback| - |OwnedBy(db, username)|
  {
    var r := CascadeDelete(db, username);
    var owned := OwnedBy(db, username);
    assert r.feedback.Keys == db.feedback.Keys - owned;
    assert owned <= db.feedback.Keys;
  }

  /** Each store operation keeps the database constraints when its inputs
      respect the column bounds and the foreign key. */
  lemma InsertKeepsValid(db: Db, f: Feedback)
    requires Valid(db) && FeedbackFits(f) && f.owner in db.users
    ensures InsertFeedback(db, f).Some? && Valid(InsertFeedback(db, f).value)
  {
  }

  lemma CascadeDeleteKeepsValid(db: Db, username: Username)
    requires Valid(db)
    ensures Valid(CascadeDelete(db, username))
    ensures OwnedBy(CascadeDelete(db, username), username) == {}
  {
  }
}
